/** What the idle timer promises, stated over a plain map from fd to deadline.

    Seconds are unbounded integers. Where the wheel casts a second to `uint64_t`
    before taking the remainder, the wrap of a negative value is written out.
  */
module WheelSpec {
  import opened Basics
  import opened ListContents

  const NANOS_PER_SECOND := 1_000_000_000
  const TWO_TO_THE_64 := 0x1_0000_0000_0000_0000

  datatype TimeSpec = TimeSpec(sec: int, nsec: int) {
    predicate Normal() {
      0 <= nsec < NANOS_PER_SECOND
    }

    /** `timespec_compare(this, other) <= 0` */
    predicate AtMost(other: TimeSpec) {
      sec < other.sec || (sec == other.sec && nsec <= other.nsec)
    }

    function Plus(seconds: int): TimeSpec {
      TimeSpec(sec + seconds, nsec)
    }
  }

  /** The first whole second at or after the deadline. */
  function Tick(deadline: TimeSpec): int {
    deadline.sec + if deadline.nsec != 0 then 1 else 0
  }

  /** `(uint64_t)second` */
  function Unsigned(second: int): int {
    if second < 0 then second + TWO_TO_THE_64 else second
  }

  /** `(uint64_t)second % slot_count` */
  function Slot(second: int, slotCount: Positive): (slot: nat)
    ensures slot < slotCount
  {
    Unsigned(second) % slotCount
  }

  type Deadlines = map<int, TimeSpec>

  ghost predicate AllNormal(deadlines: Deadlines) {
    forall fd :: fd in deadlines ==> deadlines[fd].Normal()
  }

  /** A sweep over the seconds after `from`, up to and including `to`, looks into
      the slot that holds `tick`. */
  ghost predicate Visited(tick: int, from: int, to: int, slotCount: Positive)
  {
    exists second :: from < second <= to && Slot(second, slotCount) == Slot(tick, slotCount)
  }

  /** Every tracked deadline lies ahead of the wheel. */
  ghost predicate Ahead(deadlines: Deadlines, current: int) {
    forall fd :: fd in deadlines ==> current < Tick(deadlines[fd])
  }

  /** Every tracked deadline lies ahead of the wheel by at most one revolution. */
  ghost predicate WithinOneTurn(deadlines: Deadlines, current: int, slotCount: Positive) {
    forall fd :: fd in deadlines ==> current < Tick(deadlines[fd]) <= current + slotCount
  }

  /** What a sweep of the seconds after `from`, up to `to`, removes at time `now`, read
      off the slots alone. */
  ghost function Swept(deadlines: Deadlines, from: int, to: int, now: TimeSpec, slotCount: Positive): set<int>
  {
    set fd | fd in deadlines && deadlines[fd].AtMost(now) && Visited(Tick(deadlines[fd]), from, to, slotCount)
  }

  /** What such a sweep looks at in second `second`: the whole slot, except what it has
      removed already. */
  ghost predicate Examines(deadlines: Deadlines, from: int, second: int, now: TimeSpec, slotCount: Positive, fd: int)
  {
    && fd in deadlines && Slot(Tick(deadlines[fd]), slotCount) == Slot(second, slotCount)
    && fd !in Swept(deadlines, from, second - 1, now, slotCount)
  }

  /** The due ones among `fds`, in order. */
  ghost function DueOf(fds: seq<int>, deadlines: Deadlines, now: TimeSpec): seq<int> {
    if fds == [] then [] else
      var last := fds[|fds| - 1];
      DueOf(fds[..|fds| - 1], deadlines, now)
      + if last in deadlines && deadlines[last].AtMost(now) then [last] else []
  }

  lemma {:induction false} DueOfMembers(fds: seq<int>, deadlines: Deadlines, now: TimeSpec)
    ensures forall fd :: fd in DueOf(fds, deadlines, now) <==>
      fd in fds && fd in deadlines && deadlines[fd].AtMost(now)
    ensures NoRepeats(fds) ==> NoRepeats(DueOf(fds, deadlines, now))
  {
    if fds != [] {
      var front, last := fds[..|fds| - 1], fds[|fds| - 1];
      DueOfMembers(front, deadlines, now);
      assert fds == front + [last];
    }
  }

  ghost function Removed(deadlines: Deadlines, expired: seq<int>): Deadlines {
    deadlines - set fd | fd in expired
  }

  /** A walk over the fds of one slot has come to position i. */
  ghost predicate WalkedTo(before: Deadlines, fds: seq<int>, i: nat, now: TimeSpec,
                           examined: seq<int>, expired: seq<int>, after: Deadlines)
  {
    i <= |fds| && examined == fds[..i] && expired == DueOf(examined, before, now) && after == Removed(before, expired)
  }

  lemma WalkStart(before: Deadlines, fds: seq<int>, now: TimeSpec)
    ensures WalkedTo(before, fds, 0, now, [], [], before)
  {
  }

  lemma WalkOn(before: Deadlines, fds: seq<int>, i: nat, now: TimeSpec,
               examined: seq<int>, expired: seq<int>, after: Deadlines)
    requires WalkedTo(before, fds, i, now, examined, expired, after)
    requires i < |fds| && fds[i] in before
    ensures var due := before[fds[i]].AtMost(now);
      WalkedTo(before, fds, i + 1, now, examined + [fds[i]],
               if due then expired + [fds[i]] else expired, if due then after - {fds[i]} else after)
  {
    assert fds[..i + 1] == fds[..i] + [fds[i]];
    assert fds[..i + 1][..i] == fds[..i];
    var due := before[fds[i]].AtMost(now);
    assert due ==> after - {fds[i]} == Removed(before, expired + [fds[i]]);
    assert expired + [] == expired;
  }

  /** One second of a sweep: every fd of the slot is examined once, and the due ones
      among them expire, in the same order. */
  ghost predicate Round(before: Deadlines, slot: nat, now: TimeSpec, slotCount: Positive,
                        examined: seq<int>, expired: seq<int>, after: Deadlines)
  {
    && NoRepeats(examined)
    && (forall fd :: fd in examined <==> fd in before && Slot(Tick(before[fd]), slotCount) == slot)
    && expired == DueOf(examined, before, now)
    && after == Removed(before, expired)
  }

  lemma WalkEnds(before: Deadlines, fds: seq<int>, slot: nat, now: TimeSpec, slotCount: Positive,
                 examined: seq<int>, expired: seq<int>, after: Deadlines)
    requires WalkedTo(before, fds, |fds|, now, examined, expired, after)
    requires NoRepeats(fds)
    requires forall fd :: fd in fds <==> fd in before && Slot(Tick(before[fd]), slotCount) == slot
    ensures Round(before, slot, now, slotCount, examined, expired, after)
  {
    assert fds[..|fds|] == fds;
  }

  /** A whole sweep of the seconds after `from`, up to `to`. */
  ghost predicate Sweep(before: Deadlines, from: int, to: int, now: TimeSpec, slotCount: Positive,
                        rounds: seq<seq<int>>, expired: seq<int>, after: Deadlines)
  {
    && NoRepeats(expired)
    && (forall fd :: fd in expired <==> fd in Swept(before, from, to, now, slotCount))
    && after == before - Swept(before, from, to, now, slotCount)
    && |rounds| == to - from
    && (forall i :: 0 <= i < |rounds| ==> NoRepeats(rounds[i]))
    && (forall i, fd :: 0 <= i < |rounds| ==>
          (fd in rounds[i] <==> Examines(before, from, from + 1 + i, now, slotCount, fd)))
  }

  lemma SweepStart(before: Deadlines, from: int, now: TimeSpec, slotCount: Positive)
    ensures Sweep(before, from, from, now, slotCount, [], [], before)
  {
    assert forall fd :: fd in before ==> !Visited(Tick(before[fd]), from, from, slotCount);
  }

  lemma SweepOn(before: Deadlines, from: int, to: int, now: TimeSpec, slotCount: Positive,
                rounds: seq<seq<int>>, expired: seq<int>, current: Deadlines,
                examined: seq<int>, due: seq<int>, after: Deadlines)
    requires Sweep(before, from, to, now, slotCount, rounds, expired, current)
    requires Round(current, Slot(to + 1, slotCount), now, slotCount, examined, due, after)
    ensures Sweep(before, from, to + 1, now, slotCount, rounds + [examined], expired + due, after)
  {
    SweptBy(before, from, to, now, slotCount, expired, current, examined, due, after);
    RoundsJoin(before, from, to, now, slotCount, rounds, examined);
  }

  lemma SweptBy(before: Deadlines, from: int, to: int, now: TimeSpec, slotCount: Positive,
                expired: seq<int>, current: Deadlines, examined: seq<int>, due: seq<int>, after: Deadlines)
    requires from <= to && NoRepeats(expired)
    requires forall fd :: fd in expired <==> fd in Swept(before, from, to, now, slotCount)
    requires current == before - Swept(before, from, to, now, slotCount)
    requires Round(current, Slot(to + 1, slotCount), now, slotCount, examined, due, after)
    ensures NoRepeats(expired + due)
    ensures forall fd :: fd in expired + due <==> fd in Swept(before, from, to + 1, now, slotCount)
    ensures after == before - Swept(before, from, to + 1, now, slotCount)
    ensures forall fd :: fd in examined <==> Examines(before, from, to + 1, now, slotCount, fd)
  {
    var gone := Swept(before, from, to, now, slotCount);
    DueOfMembers(examined, current, now);
    SweptNext(before, from, to, now, slotCount);
    hide Slot, Visited, Tick;
    assert forall fd :: fd in due ==> fd !in expired;
    NoRepeatsJoin(expired, due);
    var late := set fd | fd in due;
    forall fd ensures fd in gone + late <==> fd in Swept(before, from, to + 1, now, slotCount) {
      assert fd in before && fd !in gone ==> fd in current && current[fd] == before[fd];
    }
    assert gone + late == Swept(before, from, to + 1, now, slotCount);
    assert (before - gone) - late == before - (gone + late);
  }

  lemma NoRepeatsJoin(a: seq<int>, b: seq<int>)
    requires NoRepeats(a) && NoRepeats(b) && forall x :: x in b ==> x !in a
    ensures NoRepeats(a + b)
  {
    forall i, j | 0 <= i < j < |a + b| ensures (a + b)[i] != (a + b)[j] {
      if i < |a| <= j {
        assert b[j - |a|] in b && a[i] in a;
      }
    }
  }

  lemma RoundsJoin(before: Deadlines, from: int, to: int, now: TimeSpec, slotCount: Positive,
                   rounds: seq<seq<int>>, examined: seq<int>)
    requires |rounds| == to - from
    requires forall i, fd :: 0 <= i < |rounds| ==>
      (fd in rounds[i] <==> Examines(before, from, from + 1 + i, now, slotCount, fd))
    requires forall fd :: fd in examined <==> Examines(before, from, to + 1, now, slotCount, fd)
    ensures forall i, fd :: 0 <= i < |rounds + [examined]| ==>
      (fd in (rounds + [examined])[i] <==> Examines(before, from, from + 1 + i, now, slotCount, fd))
  {
    hide Examines;
    forall i, fd | 0 <= i < |rounds + [examined]|
      ensures fd in (rounds + [examined])[i] <==> Examines(before, from, from + 1 + i, now, slotCount, fd)
    {
      if i < |rounds| {
        assert (rounds + [examined])[i] == rounds[i];
      } else {
        assert (rounds + [examined])[i] == examined && from + 1 + i == to + 1;
      }
    }
  }

  lemma VisitedNext(tick: int, from: int, to: int, slotCount: Positive)
    requires from <= to
    ensures Visited(tick, from, to + 1, slotCount) <==>
            Visited(tick, from, to, slotCount) || Slot(to + 1, slotCount) == Slot(tick, slotCount)
  {
    if Visited(tick, from, to + 1, slotCount) && Slot(to + 1, slotCount) != Slot(tick, slotCount) {
      var second :| from < second <= to + 1 && Slot(second, slotCount) == Slot(tick, slotCount);
      assert from < second <= to;
    }
    if Visited(tick, from, to, slotCount) {
      var second :| from < second <= to && Slot(second, slotCount) == Slot(tick, slotCount);
      assert from < second <= to + 1;
    }
  }

  /** One more second of a sweep removes what is due in its slot. */
  lemma SweptNext(deadlines: Deadlines, from: int, to: int, now: TimeSpec, slotCount: Positive)
    requires from <= to
    ensures Swept(deadlines, from, to + 1, now, slotCount)
         == Swept(deadlines, from, to, now, slotCount)
          + set fd | fd in deadlines && deadlines[fd].AtMost(now)
                  && Slot(Tick(deadlines[fd]), slotCount) == Slot(to + 1, slotCount)
  {
    forall fd | fd in deadlines {
      VisitedNext(Tick(deadlines[fd]), from, to, slotCount);
    }
  }

  lemma MultipleAtLeast(factor: int, n: nat)
    requires factor >= 1
    ensures factor * n >= n
  {
    assert factor * n == (factor - 1) * n + n;
    assert (factor - 1) * n >= 0;
  }

  lemma RemainderUnique(a: int, q: int, r: int, n: nat)
    requires n > 0 && a == q * n + r && 0 <= r < n
    ensures a % n == r
  {
    var q', r' := a / n, a % n;
    assert (q - q') * n == r' - r by {
      assert (q - q') * n == q * n - q' * n;
    }
    if q > q' {
      MultipleAtLeast(q - q', n);
    } else if q < q' {
      MultipleAtLeast(q' - q, n);
    }
  }

  lemma SameRemainder(a: int, b: int, n: Positive)
    ensures a % n == b % n <==> (b - a) % n == 0
  {
    var p, q := a / n, b / n;
    assert a == p * n + a % n && b == q * n + b % n;
    assert (q - p) * n == q * n - p * n;
    if a % n == b % n {
      RemainderUnique(b - a, q - p, 0, n);
    } else if a % n < b % n {
      RemainderUnique(b - a, q - p, b % n - a % n, n);
    } else {
      assert (q - p - 1) * n == (q - p) * n - n;
      RemainderUnique(b - a, q - p - 1, n + b % n - a % n, n);
    }
  }

  /** Two seconds share a slot exactly if whole turns lie between them, after the cast. */
  lemma SlotsShared(a: int, b: int, slotCount: Positive)
    ensures Slot(a, slotCount) == Slot(b, slotCount) <==> (Unsigned(b) - Unsigned(a)) % slotCount == 0
    ensures (a < 0 <==> b < 0) ==> (Slot(a, slotCount) == Slot(b, slotCount) <==> (b - a) % slotCount == 0)
  {
    SameRemainder(Unsigned(a), Unsigned(b), slotCount);
  }

  lemma SlotPeriodic(a: nat, b: nat, slotCount: Positive)
    requires a < b
    requires Slot(a, slotCount) == Slot(b, slotCount)
    ensures a + slotCount <= b
  {
    SlotsShared(a, b, slotCount);
    if b - a < slotCount {
      RemainderUnique(b - a, 0, b - a, slotCount);
    }
  }

  lemma SlotShift(a: nat, slotCount: Positive)
    ensures Slot(a + slotCount, slotCount) == Slot(a, slotCount)
  {
    var q := a / slotCount;
    assert (q + 1) * slotCount == q * slotCount + slotCount;
    RemainderUnique(a + slotCount, q + 1, a % slotCount, slotCount);
  }

  lemma LateTickIsAfter(deadline: TimeSpec, now: TimeSpec)
    requires deadline.Normal() && now.Normal()
    ensures Tick(deadline) <= now.sec ==> deadline.AtMost(now)
    ensures !deadline.AtMost(now) ==> now.sec < Tick(deadline)
    ensures deadline.AtMost(now) && now.sec < Tick(deadline) ==> Tick(deadline) == now.sec + 1
  {
  }

  /** Exact expiry. While every deadline is ahead of the wheel, a sweep removes the
      entries whose tick has come and, only when the wheel makes a whole turn, the
      entries that fall due inside the current second; never an entry before its
      deadline. What stays is ahead of the wheel again. */
  lemma ExactExpiry(deadlines: Deadlines, from: int, now: TimeSpec, slotCount: Positive)
    requires 0 <= from <= now.sec && now.Normal()
    requires AllNormal(deadlines) && Ahead(deadlines, from)
    ensures forall fd :: fd in deadlines ==>
      (fd in Swept(deadlines, from, now.sec, now, slotCount) <==>
        Tick(deadlines[fd]) <= now.sec
        || (now.sec - from >= slotCount && deadlines[fd].AtMost(now)))
    ensures forall fd :: fd in Swept(deadlines, from, now.sec, now, slotCount) ==> deadlines[fd].AtMost(now)
    ensures Ahead(deadlines - Swept(deadlines, from, now.sec, now, slotCount), now.sec)
  {
    forall fd | fd in deadlines
      ensures fd in Swept(deadlines, from, now.sec, now, slotCount) <==>
        Tick(deadlines[fd]) <= now.sec
        || (now.sec - from >= slotCount && deadlines[fd].AtMost(now))
    {
      var d := deadlines[fd];
      LateTickIsAfter(d, now);
      if Tick(d) <= now.sec {
        assert Slot(Tick(d), slotCount) == Slot(Tick(d), slotCount);
      } else if d.AtMost(now) {
        if now.sec - from >= slotCount {
          SlotShift(now.sec + 1 - slotCount, slotCount);
          assert Visited(Tick(d), from, now.sec, slotCount);
        } else if Visited(Tick(d), from, now.sec, slotCount) {
          var second :| from < second <= now.sec && Slot(second, slotCount) == Slot(Tick(d), slotCount);
          SlotPeriodic(second, Tick(d), slotCount);
        }
      }
    }
  }

  /** The first second after `from` whose slot is the one of `tick`. */
  function NextVisit(tick: int, from: int, slotCount: Positive): int {
    from + 1 + (tick - from - 1) % slotCount
  }

  /** Exact expiry without any assumption on when entries were armed: a due entry goes
      exactly when the sweep reaches the next visit of its slot, so it outlives its
      deadline by at most one turn. */
  lemma SweptExactly(deadlines: Deadlines, from: int, to: int, now: TimeSpec, slotCount: Positive, fd: int)
    requires 0 <= from && fd in deadlines && 0 <= Tick(deadlines[fd])
    ensures fd in Swept(deadlines, from, to, now, slotCount) <==>
      deadlines[fd].AtMost(now) && NextVisit(Tick(deadlines[fd]), from, slotCount) <= to
    ensures NextVisit(Tick(deadlines[fd]), from, slotCount) <= from + slotCount
  {
    var tick := Tick(deadlines[fd]);
    var next := NextVisit(tick, from, slotCount);
    NextVisitSlot(tick, from, slotCount);
    if Visited(tick, from, to, slotCount) {
      var second :| from < second <= to && Slot(second, slotCount) == Slot(tick, slotCount);
      if second < next {
        SlotPeriodic(second, next, slotCount);
      }
    }
  }

  lemma NextVisitSlot(tick: nat, from: nat, slotCount: Positive)
    ensures Slot(NextVisit(tick, from, slotCount), slotCount) == Slot(tick, slotCount)
  {
    var gap := tick - from - 1;
    var turns, next := gap / slotCount, NextVisit(tick, from, slotCount);
    assert next == tick - turns * slotCount;
    var q, r := tick / slotCount, tick % slotCount;
    assert (q - turns) * slotCount == q * slotCount - turns * slotCount;
    RemainderUnique(next, q - turns, r, slotCount);
  }

  /** What arming does to the two invariants, exactly. */
  lemma Arming(deadlines: Deadlines, current: int, fd: int, now: TimeSpec, timeout: nat)
    requires now.Normal()
    ensures var armed := deadlines[fd := now.Plus(timeout)];
      && (Ahead(deadlines, current) ==>
           (Ahead(armed, current) <==> current < now.sec + timeout + if now.nsec != 0 then 1 else 0))
      && (WithinOneTurn(deadlines, current, timeout + 1) ==>
           (WithinOneTurn(armed, current, timeout + 1) <==>
             current < now.sec + timeout + (if now.nsec != 0 then 1 else 0) <= current + timeout + 1))
  {
    var armed := deadlines[fd := now.Plus(timeout)];
    assert armed[fd] == now.Plus(timeout);
  }

  /** An entry armed in the wheel's own second lies ahead by at most one turn, rounding up
      included; with one slot fewer its slot would come up before its tick. */
  lemma SpareSlot(current: nat, now: TimeSpec, timeout: Positive, slotCount: Positive)
    requires now.Normal() && now.sec == current && slotCount == timeout + 1
    ensures current < Tick(now.Plus(timeout)) <= current + slotCount
    ensures forall second :: current < second < Tick(now.Plus(timeout)) ==>
      Slot(second, slotCount) != Slot(Tick(now.Plus(timeout)), slotCount)
    ensures now.nsec != 0 ==>
      current + 1 < Tick(now.Plus(timeout)) && Slot(current + 1, timeout) == Slot(Tick(now.Plus(timeout)), timeout)
  {
    var tick := Tick(now.Plus(timeout));
    forall second | current < second < tick ensures Slot(second, slotCount) != Slot(tick, slotCount) {
      if Slot(second, slotCount) == Slot(tick, slotCount) {
        SlotPeriodic(second, tick, slotCount);
      }
    }
    if now.nsec != 0 {
      SlotShift(current + 1, timeout);
    }
  }

  /** An entry within one turn is examined in one second only, its own tick, and then removed,
      whatever else is tracked; so it is not linked again. */
  lemma ExaminedAtOwnTick(deadlines: Deadlines, from: nat, now: TimeSpec, slotCount: Positive, second: int, fd: int)
    requires now.Normal() && from < second <= now.sec
    requires fd in deadlines && deadlines[fd].Normal() && from < Tick(deadlines[fd]) <= from + slotCount
    ensures Examines(deadlines, from, second, now, slotCount, fd) <==> Tick(deadlines[fd]) == second
    ensures Examines(deadlines, from, second, now, slotCount, fd) ==> deadlines[fd].AtMost(now)
  {
    var tick := Tick(deadlines[fd]);
    LateTickIsAfter(deadlines[fd], now);
    if Slot(tick, slotCount) == Slot(second, slotCount) {
      if second < tick {
        SlotPeriodic(second, tick, slotCount);
      } else if tick < second {
        assert Visited(tick, from, second - 1, slotCount);
      } else if Visited(tick, from, second - 1, slotCount) {
        var earlier :| from < earlier <= second - 1 && Slot(earlier, slotCount) == Slot(tick, slotCount);
        SlotPeriodic(earlier, tick, slotCount);
      }
    }
  }

  /** A sweep examines the entry and links it again. */
  ghost predicate Relinks(deadlines: Deadlines, from: int, now: TimeSpec, slotCount: Positive, fd: int) {
    exists second :: from < second <= now.sec
      && Examines(deadlines, from, second, now, slotCount, fd) && !deadlines[fd].AtMost(now)
  }

  /** An entry ahead of the wheel is linked again exactly if it is not due and its slot comes
      up before its tick, which takes a deadline more than one turn ahead. Nothing is asked of
      other entries. */
  lemma RelinkedIff(deadlines: Deadlines, from: nat, now: TimeSpec, slotCount: Positive, fd: int)
    requires now.Normal() && fd in deadlines && deadlines[fd].Normal() && from < Tick(deadlines[fd])
    ensures Relinks(deadlines, from, now, slotCount, fd) <==>
      !deadlines[fd].AtMost(now) && NextVisit(Tick(deadlines[fd]), from, slotCount) <= now.sec
    ensures Relinks(deadlines, from, now, slotCount, fd) ==> from + slotCount < Tick(deadlines[fd])
  {
    var tick := Tick(deadlines[fd]);
    var next := NextVisit(tick, from, slotCount);
    NextVisitSlot(tick, from, slotCount);
    LateTickIsAfter(deadlines[fd], now);
    if Relinks(deadlines, from, now, slotCount, fd) {
      var second :| from < second <= now.sec
        && Examines(deadlines, from, second, now, slotCount, fd) && !deadlines[fd].AtMost(now);
      SlotPeriodic(second, tick, slotCount);
      if second < next {
        SlotPeriodic(second, next, slotCount);
      }
    }
    if !deadlines[fd].AtMost(now) && next <= now.sec {
      assert Examines(deadlines, from, next, now, slotCount, fd);
    }
  }

  /** In particular, an entry armed while the wheel lags, so that it lies more than a turn ahead,
      is examined a turn before its tick and kept. */
  lemma LaggingIsRelinked(deadlines: Deadlines, from: nat, now: TimeSpec, slotCount: Positive, fd: int)
    requires fd in deadlines && !deadlines[fd].AtMost(now)
    requires from + slotCount < Tick(deadlines[fd]) <= now.sec + slotCount
    ensures Examines(deadlines, from, Tick(deadlines[fd]) - slotCount, now, slotCount, fd)
  {
    SlotShift(Tick(deadlines[fd]) - slotCount, slotCount);
  }

  /** One turn of the wheel after a sweep in which all entries were within one turn. */
  lemma SweepKeepsWithinOneTurn(deadlines: Deadlines, from: nat, now: TimeSpec, slotCount: Positive)
    requires now.Normal() && AllNormal(deadlines) && WithinOneTurn(deadlines, from, slotCount) && from <= now.sec
    ensures WithinOneTurn(deadlines - Swept(deadlines, from, now.sec, now, slotCount), now.sec, slotCount)
  {
    ExactExpiry(deadlines, from, now, slotCount);
  }

  /** The calls a wheel sees. */
  datatype Call = Arm(fd: int, at: TimeSpec) | Remove(fd: int) | Advance(now: TimeSpec)

  datatype Wheel = Wheel(deadlines: Deadlines, current: int)

  ghost function Apply(w: Wheel, call: Call, timeout: nat): Wheel {
    match call
    case Arm(fd, at) => w.(deadlines := w.deadlines[fd := at.Plus(timeout)])
    case Remove(fd) => w.(deadlines := w.deadlines - {fd})
    case Advance(now) =>
      if w.current < now.sec
      then Wheel(w.deadlines - Swept(w.deadlines, w.current, now.sec, now, timeout + 1), now.sec)
      else w
  }

  /** Times are well formed, and nothing is armed so late that the wheel has passed it. */
  ghost predicate Timely(w: Wheel, call: Call, timeout: nat) {
    match call
    case Arm(fd, at) => at.Normal() && w.current < at.sec + timeout
    case Remove(fd) => true
    case Advance(now) => now.Normal()
  }

  ghost predicate TimelyRun(w: Wheel, calls: seq<Call>, timeout: nat)
    decreases |calls|
  {
    calls == [] || (Timely(w, calls[0], timeout) && TimelyRun(Apply(w, calls[0], timeout), calls[1..], timeout))
  }

  ghost function After(w: Wheel, calls: seq<Call>, timeout: nat): Wheel
    decreases |calls|
  {
    if calls == [] then w else After(Apply(w, calls[0], timeout), calls[1..], timeout)
  }

  /** Over every timely run from an empty wheel, whatever is still tracked has not passed
      its deadline by the wheel's second, and the next sweep expires exactly the entries
      whose tick has come, or, after a whole turn, whose deadline has. */
  lemma {:induction false} RunExpiresExactly(w: Wheel, calls: seq<Call>, timeout: nat)
    requires w.current >= 0 && AllNormal(w.deadlines) && Ahead(w.deadlines, w.current)
    requires TimelyRun(w, calls, timeout)
    ensures var end := After(w, calls, timeout);
      && end.current >= 0 && AllNormal(end.deadlines) && Ahead(end.deadlines, end.current)
      && forall now: TimeSpec, fd :: now.Normal() && end.current < now.sec && fd in end.deadlines ==>
           (fd !in Apply(end, Advance(now), timeout).deadlines <==>
             Tick(end.deadlines[fd]) <= now.sec
             || (now.sec - end.current > timeout && end.deadlines[fd].AtMost(now)))
    decreases |calls|
  {
    if calls == [] {
      forall now: TimeSpec | now.Normal() && w.current < now.sec {
        ExactExpiry(w.deadlines, w.current, now, timeout + 1);
      }
    } else {
      var next := Apply(w, calls[0], timeout);
      if calls[0].Advance? && w.current < calls[0].now.sec {
        ExactExpiry(w.deadlines, w.current, calls[0].now, timeout + 1);
      }
      RunExpiresExactly(next, calls[1..], timeout);
    }
  }

  /** The entry is ahead of the wheel by at most one turn, if it is tracked. */
  ghost predicate InTurn(w: Wheel, timeout: nat, fd: int) {
    fd in w.deadlines ==>
      w.deadlines[fd].Normal() && w.current < Tick(w.deadlines[fd]) <= w.current + timeout + 1
  }

  lemma OwnTickIsVisited(tick: int, from: int, to: int, slotCount: Positive)
    requires from < tick <= to
    ensures Visited(tick, from, to, slotCount)
  {
    assert Slot(tick, slotCount) < slotCount;
  }

  /** Neither arms nor removes the entry; anything may be armed beside it, at any time. */
  predicate Spares(call: Call, fd: int) {
    match call
    case Arm(other, _) => other != fd
    case Remove(other) => other != fd
    case Advance(now) => now.Normal()
  }

  lemma SparedStaysInTurn(w: Wheel, call: Call, timeout: nat, fd: int)
    requires w.current >= 0 && InTurn(w, timeout, fd) && Spares(call, fd)
    ensures Apply(w, call, timeout).current >= 0 && InTurn(Apply(w, call, timeout), timeout, fd)
    ensures call.Advance? && w.current < call.now.sec ==>
      !Relinks(w.deadlines, w.current, call.now, timeout + 1, fd)
  {
    if call.Advance? && w.current < call.now.sec && fd in w.deadlines {
      var d := w.deadlines[fd];
      RelinkedIff(w.deadlines, w.current, call.now, timeout + 1, fd);
      LateTickIsAfter(d, call.now);
      if Tick(d) <= call.now.sec {
        OwnTickIsVisited(Tick(d), w.current, call.now.sec, timeout + 1);
      }
    }
  }

  lemma {:induction false} InTurnIsNotRelinked(w: Wheel, calls: seq<Call>, timeout: nat, fd: int, n: nat)
    requires w.current >= 0 && InTurn(w, timeout, fd) && n < |calls|
    requires forall i :: 0 <= i <= n ==> Spares(calls[i], fd)
    ensures !RelinksAt(w, calls, timeout, fd, n)
    decreases n
  {
    SparedStaysInTurn(w, calls[0], timeout, fd);
    if n > 0 {
      assert calls[..n][0] == calls[0] && calls[..n][1..] == calls[1..][..n - 1];
      InTurnIsNotRelinked(Apply(w, calls[0], timeout), calls[1..], timeout, fd, n - 1);
    } else {
      assert calls[..0] == [];
    }
  }

  /** Call number `n` of a run is a sweep that links the entry again. */
  ghost predicate RelinksAt(w: Wheel, calls: seq<Call>, timeout: nat, fd: int, n: nat)
    requires n < |calls|
  {
    var before := After(w, calls[..n], timeout);
    calls[n].Advance? && before.current < calls[n].now.sec
    && Relinks(before.deadlines, before.current, calls[n].now, timeout + 1, fd)
  }

  /** An entry that is armed in the wheel's own second is never linked again, over whatever
      calls follow until it is armed anew or removed; other entries may be armed while the
      wheel lags. */
  lemma ArmedInTimeIsNeverRelinked(
    w: Wheel, fd: int, at: TimeSpec, timeout: Positive, calls: seq<Call>, n: nat)
    requires w.current >= 0 && at.Normal() && at.sec == w.current && n < |calls|
    requires forall i :: 0 <= i <= n ==> Spares(calls[i], fd)
    ensures !RelinksAt(Apply(w, Arm(fd, at), timeout), calls, timeout, fd, n)
  {
    InTurnIsNotRelinked(Apply(w, Arm(fd, at), timeout), calls, timeout, fd, n);
  }

  /** A time in nanoseconds. */
  function Nanos(t: TimeSpec): int {
    t.sec * NANOS_PER_SECOND + t.nsec
  }

  /** Comparing, adding and rounding up, in nanoseconds. */
  lemma TimesAreNanos(a: TimeSpec, b: TimeSpec, seconds: nat)
    requires a.Normal() && b.Normal()
    ensures a.AtMost(b) <==> Nanos(a) <= Nanos(b)
    ensures a.Plus(seconds).Normal() && Nanos(a.Plus(seconds)) == Nanos(a) + seconds * NANOS_PER_SECOND
    ensures Nanos(a) <= Tick(a) * NANOS_PER_SECOND < Nanos(a) + NANOS_PER_SECOND
  {
  }

  /** Some sweep of the run came at or after the time. */
  ghost predicate SweptSince(calls: seq<Call>, time: int) {
    exists i :: 0 <= i < |calls| && calls[i].Advance? && time <= Nanos(calls[i].now)
  }

  lemma {:induction false} GoesWhenDue(w: Wheel, calls: seq<Call>, timeout: nat, fd: int, deadline: TimeSpec)
    requires w.current >= 0 && InTurn(w, timeout, fd) && fd in w.deadlines && w.deadlines[fd] == deadline
    requires forall i :: 0 <= i < |calls| ==> Spares(calls[i], fd)
    ensures var end := After(w, calls, timeout);
      && (fd in end.deadlines ==> end.current * NANOS_PER_SECOND < Nanos(deadline))
      && (fd !in end.deadlines ==> SweptSince(calls, Nanos(deadline)))
    decreases |calls|
  {
    TimesAreNanos(deadline, deadline, 0);
    if calls != [] {
      var next, rest := Apply(w, calls[0], timeout), calls[1..];
      SparedStaysInTurn(w, calls[0], timeout, fd);
      if fd in next.deadlines {
        assert forall i :: 0 <= i < |rest| ==> Spares(rest[i], fd) by {
          assert forall i :: 0 <= i < |rest| ==> rest[i] == calls[i + 1];
        }
        GoesWhenDue(next, rest, timeout, fd, deadline);
        if SweptSince(rest, Nanos(deadline)) {
          var i :| 0 <= i < |rest| && rest[i].Advance? && Nanos(deadline) <= Nanos(rest[i].now);
          assert calls[i + 1] == rest[i];
        }
      } else {
        TimesAreNanos(deadline, calls[0].now, 0);
        assert Nanos(deadline) <= Nanos(calls[0].now);
        GoneStaysGone(next, rest, timeout, fd);
      }
    }
  }

  lemma {:induction false} GoneStaysGone(w: Wheel, calls: seq<Call>, timeout: nat, fd: int)
    requires fd !in w.deadlines && forall i :: 0 <= i < |calls| ==> calls[i].Arm? ==> calls[i].fd != fd
    ensures fd !in After(w, calls, timeout).deadlines
    decreases |calls|
  {
    if calls != [] {
      assert forall i :: 0 <= i < |calls[1..]| ==> calls[1..][i] == calls[i + 1];
      GoneStaysGone(Apply(w, calls[0], timeout), calls[1..], timeout, fd);
    }
  }

  /** An idle connection lasts for the timeout. Armed in the wheel's own second and left alone
      since, it is taken out only by a sweep that comes `timeout` seconds or more after it was
      armed, to the nanosecond, and it is gone as soon as the wheel has reached that time. */
  lemma IdleForTheTimeout(w: Wheel, fd: int, at: TimeSpec, timeout: Positive, calls: seq<Call>)
    requires w.current >= 0 && at.Normal() && at.sec == w.current
    requires forall i :: 0 <= i < |calls| ==> Spares(calls[i], fd)
    ensures var end := After(Apply(w, Arm(fd, at), timeout), calls, timeout);
      && (fd in end.deadlines ==> end.current * NANOS_PER_SECOND < Nanos(at) + timeout * NANOS_PER_SECOND)
      && (fd !in end.deadlines ==> SweptSince(calls, Nanos(at) + timeout * NANOS_PER_SECOND))
  {
    TimesAreNanos(at, at, timeout);
    GoesWhenDue(Apply(w, Arm(fd, at), timeout), calls, timeout, fd, at.Plus(timeout));
  }

  /** What is removed stays out until it is armed again. */
  lemma RemovedStaysOut(w: Wheel, fd: int, timeout: nat, calls: seq<Call>)
    requires forall i :: 0 <= i < |calls| ==> calls[i].Arm? ==> calls[i].fd != fd
    ensures fd !in After(Apply(w, Remove(fd), timeout), calls, timeout).deadlines
  {
    GoneStaysGone(Apply(w, Remove(fd), timeout), calls, timeout, fd);
  }
}

/** `run_download` and the sending loops of `handle_gets`, step by step. */
module DownloadHandlers {
  import opened Basics
  import opened FileStream
  import opened Downloads
  import Recovery

  class Downloader {
    var target: Option<Bytes>
    var part: Option<Bytes>

    function View(): Local
      reads this
    {
      Local(target, part)
    }

    constructor (local: Local)
      ensures View() == local
    {
      target, part := local.target, local.part;
    }

    /** Decides where to go on from, once the file is described. */
    method Open(hash: Hash, size: nat, sha: string, io: Io) returns (client: Client, sent: seq<Body>)
      modifies this
      ensures Outcome(client, View(), sent) == OnInfo(hash, old(View()), size, sha, io)
      ensures client.Fetching? ==> client == Fetching(size, sha, false, client.offset, 0)
    {
      if !IsSha(sha) {
        return Ended(false), [Failure];
      }
      if io.openTarget && target.Some? && io.rehash && Matches(hash, target.value, size, sha) {
        return AwaitEnd(size, sha, true), [ResumePos(size)];
      }
      if !io.open {
        return Ended(false), [Failure];
      }
      if part.None? {
        part := Some([]);
      }
      if !io.stat {
        return Ended(false), [Failure];
      }
      var offset := |part.value|;
      if offset > size {
        if !io.truncate {
          return Ended(false), [Failure];
        }
        part, offset := Some([]), 0;
      }
      if !io.seek {
        return Ended(false), [Failure];
      }
      client := if offset == size then AwaitEnd(size, sha, false) else Fetching(size, sha, false, offset, 0);
      sent := [ResumePos(offset)];
    }

    /** Receives the missing byte range and the end marker; stops early when the connection
        is lost. */
    method ReceiveAll(start: Client, packets: seq<Packet>, writes: seq<seq<Write>>)
        returns (client: Client, sent: seq<Body>)
      requires start.AwaitEnd? || (start.Fetching? && start.received == 0 && start.offset < start.size && part.Some?)
      modifies this
      ensures Outcome(client, View(), sent) == Fetch(start, old(View()), packets, Calls(packets, writes))
    {
      hide Fetch, OnPacket, Calls;
      ghost var before := old(View());
      ghost var calls := Calls(packets, writes);
      CallsAt(packets, writes);
      var expected := if start.Fetching? then start.size - start.offset else 0;
      var received, i := 0, 0;
      client, sent := start, [];
      assert packets[0..] == packets && calls[0..] == calls;
      while received < expected
        invariant 0 <= i <= |packets| && 0 <= received <= expected
        invariant client ==
          (if start.AwaitEnd? || received == expected then AwaitEnd(start.size, start.sha, start.useFinal)
            else start.(received := received)) && (received < expected ==> part.Some?)
        invariant Fetch(start, before, packets, calls) == Fetch(client, View(), packets[i..], calls[i..])
        decreases |packets| - i
      {
        if i == |packets| {
          FetchNothing(client, View(), packets[i..], calls[i..]);
          return;
        }
        var packet := packets[i];
        FetchNext(client, View(), packets, calls, i);
        if !packet.mine || !packet.body.FileData? || !Acceptable(packet.body.bytes, expected - received) {
          RefusesPacket(client, View(), packet, calls[i]);
          return Ended(false), [Failure];
        }
        TakesData(client, View(), packet, calls[i]);
        var written, file := WriteN(part.value, packet.body.bytes, Schedule(writes, i));
        part := Some(file);
        if written.Some? {
          return Ended(false), [Failure];
        }
        received, i := received + |packet.body.bytes|, i + 1;
        client :=
          if received == expected then AwaitEnd(start.size, start.sha, start.useFinal)
          else start.(received := received);
      }
      if i == |packets| {
        FetchNothing(client, View(), packets[i..], calls[i..]);
      } else {
        FetchNext(client, View(), packets, calls, i);
        TakesEnd(client, View(), packets[i], calls[i]);
        if packets[i].mine && packets[i].body.FileEnd? {
          client := Verifying(start.size, start.sha, start.useFinal);
        } else {
          client, sent := Ended(false), [Failure];
        }
      }
    }

    /** Verifies the complete part and puts it in place of the target. */
    method Settle(hash: Hash, verifying: Client, io: Io) returns (client: Client, sent: seq<Body>)
      requires verifying.Verifying?
      modifies this
      ensures Outcome(client, View(), sent) == Finish(hash, verifying, old(View()), io)
    {
      if !verifying.useFinal {
        if !io.sync || !io.rehash || !Matches(hash, PartOf(View()), verifying.size, verifying.sha) {
          return Ended(false), [Failure];
        }
        if !io.rename {
          return Ended(false), [Failure];
        }
        target, part := Some(PartOf(View())), None;
      }
      client, sent := Acking, [Ack];
    }

    /** The whole of `run_download` after the request, for any sender: the attempt of the
        specification that these packets and calls make, and a success exactly if the
        acknowledgement goes out. If nothing fails and the sender is honest, that is so exactly
        if what is kept of the part is a beginning of the file, and the file is in place then. */
    method RunDownload(hash: Hash, info: Packet, packets: seq<Packet>, writes: seq<seq<Write>>,
                       first: Io, last: Io, ackSent: bool)
        returns (ok: bool, sent: seq<Body>, ghost client: Client)
      modifies this
      ensures Outcome(client, View(), sent) ==
        Attempt(hash, old(View()), info, packets, [first, last] + Calls(packets, writes))
      ensures ok <==> Ack in sent && ackSent
      ensures target == old(target) ||
        (info.body.GetsInfo? && target.Some? && Matches(hash, target.value, info.body.size, info.body.sha))
      ensures ok ==> info.body.GetsInfo? && target.Some? && Matches(hash, target.value, info.body.size, info.body.sha)
      ensures first == SMOOTH && last == SMOOTH && ackSent ==> forall source, bodies ::
        Honest(hash, old(View()), info, packets, writes, source, bodies) ==>
          var kept := Recovery.Kept(PartOf(old(View())), |source|);
          && (ok <==> kept <= source)
          && (ok ==> target == Some(source) && part.None?)
          && (!ok ==> target == old(target) && part == Some(Recovery.Completed(kept, source)))
    {
      hide OnInfo, Fetch, Finish, Matches, Calls, Honest;
      ghost var calls := Calls(packets, writes);
      ghost var ios := [first, last] + calls;
      assert ios[2..] == calls;
      TargetIsSafe(hash, old(View()), info, packets, ios);
      AcknowledgesIff(hash, old(View()), info, packets, ios);
      if !info.mine || !info.body.GetsInfo? {
        ok, sent, client := false, if info.mine then [] else [Failure], Ended(false);
        NotHonest(hash, old(View()), info, packets, writes);
        return;
      }
      OnInfoFetches(hash, View(), info.body.size, info.body.sha, first);
      var phase, answers := Open(hash, info.body.size, info.body.sha, first);
      sent := answers;
      if phase.Fetching? || phase.AwaitEnd? {
        phase, answers := ReceiveAll(phase, packets, writes);
        sent := sent + answers;
      } else {
        FetchNothing(phase, View(), packets, calls);
      }
      if phase.Verifying? {
        phase, answers := Settle(hash, phase, last);
        sent := sent + answers;
      }
      ok, client := phase.Acking? && ackSent, phase;
      if first == SMOOTH && last == SMOOTH && ackSent {
        forall source, bodies | Honest(hash, old(View()), info, packets, writes, source, bodies)
          ensures var kept := Recovery.Kept(PartOf(old(View())), |source|);
            && (ok <==> kept <= source)
            && (ok ==> target == Some(source) && part.None?)
            && (!ok ==> target == old(target) && part == Some(Recovery.Completed(kept, source)))
        {
          HonestSucceedsIff(hash, old(View()), info, packets, writes, source, bodies);
        }
      }
    }
  }

  /** The system calls of a receiving loop, packet by packet. */
  function Calls(packets: seq<Packet>, writes: seq<seq<Write>>): (calls: seq<Io>)
    ensures |calls| == |packets|
  {
    seq(|packets|, i requires 0 <= i < |packets| =>
      SMOOTH.(written := Shortfall(Length(packets[i].body), Schedule(writes, i))))
  }

  lemma CallsAt(packets: seq<Packet>, writes: seq<seq<Write>>)
    ensures forall i :: 0 <= i < |packets| ==>
      Calls(packets, writes)[i] == SMOOTH.(written := Shortfall(Length(packets[i].body), Schedule(writes, i)))
  {
  }

  lemma FetchNext(client: Client, local: Local, packets: seq<Packet>, calls: seq<Io>, i: nat)
    requires i < |packets| == |calls| && (client.Fetching? || client.AwaitEnd?)
    ensures var next := OnPacket(client, local, packets[i], calls[i]);
      var rest := Fetch(next.client, next.local, packets[i + 1..], calls[i + 1..]);
      && Fetch(client, local, packets[i..], calls[i..]) == rest.(answers := next.answers + rest.answers)
      && (next.client.Ended? || next.client.Verifying? ==> rest == Outcome(next.client, next.local, []))
  {
    assert packets[i..][1..] == packets[i + 1..] && calls[i..][1..] == calls[i + 1..];
  }

  lemma RefusesPacket(client: Client, local: Local, packet: Packet, io: Io)
    requires client.Fetching?
    requires !packet.mine || !packet.body.FileData?
      || !Acceptable(packet.body.bytes, client.size - client.offset - client.received)
    ensures OnPacket(client, local, packet, io) == GiveUp(local)
  {
  }

  lemma TakesData(client: Client, local: Local, packet: Packet, io: Io)
    requires client.Fetching? && packet.mine && packet.body.FileData? && local.part.Some?
    requires Acceptable(packet.body.bytes, client.size - client.offset - client.received)
    ensures var bytes := packet.body.bytes;
      var local' := local.(part := Some(Written(local.part.value, bytes, io.written)));
      OnPacket(client, local, packet, io) ==
        if io.written.Some? then GiveUp(local')
        else Outcome(
          if client.offset + client.received + |bytes| == client.size
          then AwaitEnd(client.size, client.sha, client.useFinal)
          else client.(received := client.received + |bytes|), local', [])
  {
  }

  lemma TakesEnd(client: Client, local: Local, packet: Packet, io: Io)
    requires client.AwaitEnd?
    ensures OnPacket(client, local, packet, io) ==
      if packet.mine && packet.body.FileEnd?
      then Outcome(Verifying(client.size, client.sha, client.useFinal), local, []) else GiveUp(local)
  {
  }

  /** The client acknowledges exactly when it is done. */
  lemma AcknowledgesIff(hash: Hash, local: Local, info: Packet, packets: seq<Packet>, ios: seq<Io>)
    requires |ios| >= 2
    ensures var after := Attempt(hash, local, info, packets, ios); Ack in after.answers <==> after.client.Acking?
  {
    if info.mine && info.body.GetsInfo? {
      OnInfoFetches(hash, local, info.body.size, info.body.sha, ios[0]);
      var begun := OnInfo(hash, local, info.body.size, info.body.sha, ios[0]);
      FetchFetches(hash, begun.client, info.body.size, info.body.sha, begun.local, packets, ios[2..]);
    }
  }

  /** The packets are those of a server that has the file, describes it by its size and digest,
      and sends all that is missing; the target does not hold it yet; and every chunk can be
      written. */
  ghost predicate Honest(hash: Hash, local: Local, info: Packet, packets: seq<Packet>,
      writes: seq<seq<Write>>, source: Bytes, bodies: seq<Body>)
  {
    && Recovery.Wanted(hash, local, source) && info == Packet(true, GetsInfo(|source|, hash(source)))
    && packets == Recovery.Mine(bodies) && Recovery.Sends(bodies, source, |Recovery.Kept(PartOf(local), |source|)|)
    && forall i :: 0 <= i < |bodies| ==> Length(bodies[i]) <= Room(Schedule(writes, i))
  }

  lemma NotHonest(hash: Hash, local: Local, info: Packet, packets: seq<Packet>, writes: seq<seq<Write>>)
    requires !info.mine || !info.body.GetsInfo?
    ensures forall source, bodies :: !Honest(hash, local, info, packets, writes, source, bodies)
  {
  }

  lemma HonestSucceedsIff(hash: Hash, local: Local, info: Packet, packets: seq<Packet>,
      writes: seq<seq<Write>>, source: Bytes, bodies: seq<Body>)
    requires Honest(hash, local, info, packets, writes, source, bodies)
    ensures var kept := Recovery.Kept(PartOf(local), |source|);
      var after := Attempt(hash, local, info, packets, [SMOOTH, SMOOTH] + Calls(packets, writes));
      && (after.client.Acking? <==> kept <= source)
      && (kept <= source ==> after.local == Local(Some(source), None))
      && (!(kept <= source) ==> after.local == local.(part := Some(Recovery.Completed(kept, source))))
  {
    hide Attempt, Recovery.Sends, Calls, Recovery.Mine, Recovery.Completed, Recovery.Wanted;
    var calls := Calls(packets, writes);
    CallsAt(packets, writes);
    forall i | 0 <= i < |calls| ensures calls[i] == SMOOTH {
      Recovery.MineAt(bodies, i);
    }
    Recovery.DownloadSucceedsIff(hash, local, source, bodies, [SMOOTH, SMOOTH] + calls);
  }

  /** What one call of `sendfile` does. */
  datatype SendFile = Moved(n: nat) | SendInterrupted | SendFailed

  /** How many bytes get through before a call fails or moves nothing. */
  function Moves(results: seq<SendFile>): nat {
    if results == [] || results[0].SendFailed? || results[0] == Moved(0) then 0
    else (if results[0].Moved? then results[0].n else 0) + Moves(results[1..])
  }

  /** `sendfile_exact`: the whole range, exactly if the calls move as much; or as much of it as
      they do, and a failure. */
  method SendFileExact(stored: Bytes, offset: nat, count: nat, results: seq<SendFile>) returns (ok: bool, sent: Bytes)
    requires offset + count <= |stored|
    ensures ok <==> count <= Moves(results)
    ensures sent == stored[offset..offset + if ok then count else Moves(results)]
  {
    var remaining, i := count, 0;
    sent := [];
    assert results[0..] == results;
    while remaining > 0
      invariant 0 <= i <= |results| && 0 <= remaining <= count
      invariant sent == stored[offset..offset + count - remaining]
      invariant if remaining > 0 then Moves(results) == count - remaining + Moves(results[i..])
                else count <= Moves(results)
      decreases |results| - i
    {
      if i == |results| || results[i].SendFailed? || results[i] == Moved(0) {
        return false, sent;
      }
      if results[i].Moved? {
        var n := if results[i].n < remaining then results[i].n else remaining;
        var pos := offset + count - remaining;
        assert stored[offset..pos] + stored[pos..pos + n] == stored[offset..pos + n];
        sent := sent + stored[pos..pos + n];
        remaining := remaining - n;
      }
      i := i + 1;
    }
    ok := true;
  }

  function ChunkOf(missing: nat): nat {
    if missing > CHUNK then CHUNK else missing
  }

  /** Every chunk of what is missing gets through. */
  predicate AllMove(results: seq<seq<SendFile>>, missing: nat)
    decreases |results|
  {
    missing == 0
    || (results != [] && ChunkOf(missing) <= Moves(results[0]) && AllMove(results[1..], missing - ChunkOf(missing)))
  }

  /** The sending loop of `handle_gets`: the object from the offset on, in chunks, and the end
      marker, exactly if every chunk gets through; otherwise a beginning of it. */
  method SendFrom(stored: Bytes, start: nat, results: seq<seq<SendFile>>) returns (ok: bool, sent: seq<Body>)
    requires start <= |stored|
    ensures Follows(sent, stored, start) && Stream(sent, ok) && Reach(sent, start) <= |stored|
    ensures ok <==> AllMove(results, |stored| - start)
    ensures ok ==> Reach(sent, start) == |stored| && Data(sent) == stored[start..]
  {
    var pos, i := start, 0;
    sent := [];
    assert results[0..] == results;
    while pos < |stored|
      invariant 0 <= i <= |results| && start <= pos <= |stored|
      invariant Follows(sent, stored, start) && Stream(sent, false) && Reach(sent, start) == pos
      invariant AllMove(results, |stored| - start) <==> AllMove(results[i..], |stored| - pos)
      decreases |results| - i
    {
      if i == |results| {
        return false, sent;
      }
      var count := ChunkOf(|stored| - pos);
      var exact, bytes := SendFileExact(stored, pos, count, results[i]);
      assert results[i..][1..] == results[i + 1..];
      if !exact {
        return false, sent;
      }
      assert bytes == stored[pos..pos + count];
      NextFollows(stored, pos, count);
      StreamsOn(sent, stored, start, FileData(bytes));
      sent := sent + [FileData(bytes)];
      pos, i := pos + count, i + 1;
    }
    NextFollows(stored, pos, 0);
    StreamsOn(sent, stored, start, FileEnd);
    StreamCarries(sent + [FileEnd], stored, start, true);
    return true, sent + [FileEnd];
  }
}

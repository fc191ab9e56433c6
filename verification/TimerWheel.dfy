/** The timing wheel of the server: every tracked fd has one node, linked at once into
    a singly linked fd-hash chain and a doubly linked slot list. */
module TimerWheel {
  import opened Basics
  import opened ListContents
  import opened WheelSpec

  const FD_BUCKET_COUNT: nat := 1024

  function HashFd(fd: int): (bucket: nat)
    ensures bucket < FD_BUCKET_COUNT
  {
    fd % FD_BUCKET_COUNT
  }

  class Node {
    var fd: int
    var deadline: TimeSpec
    var slot: nat
    var slotPrevious: Node?
    var slotNext: Node?
    var hashNext: Node?

    constructor (fd: int, deadline: TimeSpec)
      ensures this.fd == fd && this.deadline == deadline && slot == 0
      ensures slotPrevious == null && slotNext == null && hashNext == null
    {
      this.fd, this.deadline, slot := fd, deadline, 0;
      slotPrevious, slotNext, hashNext := null, null, null;
    }
  }

  /** The element of a list at position i, or null past its end. */
  ghost function At(list: seq<Node>, i: nat): Node? {
    if i < |list| then list[i] else null
  }

  ghost function Taken(lists: seq<seq<Node>>, s: nat, node: Node): seq<seq<Node>> {
    if s < |lists| && node in lists[s] then lists[s := Minus(lists[s], node)] else lists
  }

  ghost function Pushed(lists: seq<seq<Node>>, s: nat, node: Node): seq<seq<Node>> {
    if s < |lists| then lists[s := [node] + lists[s]] else lists
  }

  /** The slot links of the i-th node are the ones of a doubly linked list. */
  ghost predicate SlotLinks(list: seq<Node>, i: nat, slot: nat)
    requires i < |list|
    reads list`slot, list`slotNext, list`slotPrevious
  {
    && list[i].slot == slot
    && list[i].slotNext == At(list, i + 1)
    && list[i].slotPrevious == (if i == 0 then null else list[i - 1])
  }

  /** `head` starts a doubly linked list that holds exactly `list`, in order. */
  ghost predicate SlotList(list: seq<Node>, head: Node?, slot: nat)
    reads list`slot, list`slotNext, list`slotPrevious
  {
    && head == At(list, 0)
    && NoRepeats(list)
    && forall i :: 0 <= i < |list| ==> SlotLinks(list, i, slot)
  }

  ghost predicate HashLink(list: seq<Node>, i: nat)
    requires i < |list|
    reads list`hashNext
  {
    list[i].hashNext == At(list, i + 1)
  }

  /** `head` starts a singly linked hash chain that holds exactly `list`, in order. */
  ghost predicate HashChain(list: seq<Node>, head: Node?)
    reads list`hashNext
  {
    && head == At(list, 0)
    && NoRepeats(list)
    && forall i :: 0 <= i < |list| ==> HashLink(list, i)
  }

  class TimerWheel {
    const timeoutSeconds: nat
    const slotCount: Positive
    const slots: array<Node?>
    const fdBuckets: array<Node?>
    var currentSecond: int
    var size: nat

    /** The map the wheel stands for. */
    ghost var deadlines: Deadlines
    ghost var nodeOf: map<int, Node>
    ghost var nodes: set<Node>
    ghost var slotLists: seq<seq<Node>>
    ghost var chains: seq<seq<Node>>

    ghost predicate HashShape()
      reads `chains
    {
      fdBuckets.Length == FD_BUCKET_COUNT == |chains| && slots != fdBuckets
    }

    ghost predicate SlotShape()
      reads `slotLists
    {
      && timeoutSeconds > 0 && slotCount == timeoutSeconds + 1
      && slots.Length == slotCount == |slotLists| && slots != fdBuckets
    }

    /** `nodeOf` finds each node by its fd, and `deadlines` says when it is due. */
    ghost predicate IndexValid()
      reads `nodes, `nodeOf, `deadlines, nodes`fd, nodes`deadline
    {
      && (forall node :: node in nodes ==> node.fd in nodeOf && nodeOf[node.fd] == node)
      && (forall fd :: fd in nodeOf ==> nodeOf[fd] in nodes && nodeOf[fd].fd == fd)
      && (forall fd :: fd in deadlines <==> fd in nodeOf)
      && (forall fd :: fd in nodeOf ==> nodeOf[fd].deadline == deadlines[fd])
    }

    /** Bucket b holds the chain `chains[b]`, made of tracked nodes other than `off` that
        hash to b. */
    ghost predicate BucketOk(b: nat, off: Node?)
      requires HashShape() && b < FD_BUCKET_COUNT
      reads `chains, `nodes, fdBuckets, chains[b]`fd, chains[b]`hashNext
    {
      && HashChain(chains[b], fdBuckets[b])
      && forall node :: node in chains[b] ==> node in nodes && HashFd(node.fd) == b && node != off
    }

    /** The hash chains hold exactly the tracked nodes other than `off`, each in its
        fd's bucket. */
    ghost predicate HashValid(off: Node?)
      reads `chains, `nodes, fdBuckets, nodes`fd, nodes`hashNext
    {
      && HashShape()
      && (forall b :: 0 <= b < FD_BUCKET_COUNT ==> forall node :: node in chains[b] ==> node in nodes)
      && (forall node :: node in nodes && node != off ==> node in chains[HashFd(node.fd)])
      && forall b :: 0 <= b < FD_BUCKET_COUNT ==> BucketOk(b, off)
    }

    /** Slot s holds the list `slotLists[s]`, made of tracked nodes other than `off`. */
    ghost predicate SlotOk(s: nat, off: Node?)
      requires SlotShape() && s < slotCount
      reads `slotLists, `nodes, slots
      reads slotLists[s]`slot, slotLists[s]`slotNext, slotLists[s]`slotPrevious
    {
      && SlotList(slotLists[s], slots[s], s)
      && forall node :: node in slotLists[s] ==> node in nodes && node.slot == s && node != off
    }

    ghost predicate Placed(node: Node)
      requires SlotShape()
      reads `slotLists, node`slot, node`deadline
    {
      && node.slot == Slot(Tick(node.deadline), slotCount)
      && node in slotLists[node.slot]
    }

    /** The slot lists hold exactly the tracked nodes other than `off`, each in the
        slot of its deadline. */
    ghost predicate SlotValid(off: Node?)
      reads `slotLists, `nodes, slots
      reads nodes`slot, nodes`deadline, nodes`slotNext, nodes`slotPrevious
    {
      && SlotShape()
      && (forall s :: 0 <= s < slotCount ==> forall node :: node in slotLists[s] ==> node in nodes)
      && (forall node :: node in nodes && node != off ==> Placed(node))
      && forall s :: 0 <= s < slotCount ==> SlotOk(s, off)
    }

    ghost predicate Counted()
      reads `nodes, `size
    {
      size == |nodes|
    }

    ghost predicate Valid()
      reads this, slots, fdBuckets, nodes
    {
      && IndexValid() && HashValid(null) && SlotValid(null) && Counted()
      && slots != fdBuckets && currentSecond >= 0
    }

    method FindNode(fd: int) returns (node: Node?)
      requires IndexValid() && HashValid(null)
      ensures node == if fd in nodeOf then nodeOf[fd] else null
      ensures node == null <==> fd !in deadlines
      ensures node != null ==> node in nodes && node.fd == fd
    {
      assert BucketOk(HashFd(fd), null);
      node := fdBuckets[HashFd(fd)];
      ghost var chain, k := chains[HashFd(fd)], 0;
      while node != null
        invariant 0 <= k <= |chain| && node == At(chain, k)
        invariant forall i :: 0 <= i < k ==> chain[i].fd != fd
        decreases |chain| - k
      {
        assert HashLink(chain, k);
        if node.fd == fd {
          return;
        }
        node, k := node.hashNext, k + 1;
      }
    }

    /** The pointer surgery of `unlink_slot`, on the one list it touches. */
    method UnlinkAt(node: Node, ghost list: seq<Node>, ghost k: nat)
      requires node.slot < slots.Length && SlotList(list, slots[node.slot], node.slot)
      requires k < |list| && list[k] == node
      modifies slots, list`slotPrevious, list`slotNext
      ensures SlotList(Without(list, k), slots[node.slot], node.slot)
      ensures forall s :: 0 <= s < slots.Length && s != node.slot ==> slots[s] == old(slots[s])
      ensures node.slotPrevious == null && node.slotNext == null
    {
      assert SlotLinks(list, k, node.slot);
      assert k > 0 ==> SlotLinks(list, k - 1, node.slot);
      assert k + 1 < |list| ==> SlotLinks(list, k + 1, node.slot);
      if node.slotPrevious != null {
        node.slotPrevious.slotNext := node.slotNext;
      } else {
        slots[node.slot] := node.slotNext;
      }
      if node.slotNext != null {
        node.slotNext.slotPrevious := node.slotPrevious;
      }
      node.slotPrevious := null;
      node.slotNext := null;
      ghost var rest := Without(list, k);
      forall j | 0 <= j < |rest| ensures SlotLinks(rest, j, node.slot) {
        assert old(SlotLinks(list, if j < k then j else j + 1, node.slot));
      }
    }

    method UnlinkSlot(node: Node)
      requires SlotValid(null) && node in nodes
      modifies this`slotLists, slots, nodes`slotPrevious, nodes`slotNext
      ensures SlotValid(node)
      ensures node.slotPrevious == null && node.slotNext == null
      ensures slotLists == Taken(old(slotLists), old(node.slot), node)
    {
      assert Placed(node) && SlotOk(node.slot, null);
      ghost var list := slotLists[node.slot];
      ghost var k := IndexOf(list, node);
      WithoutMembers(list, k);
      UnlinkAt(node, list, k);
      slotLists := slotLists[node.slot := Without(list, k)];
      forall s | 0 <= s < slotCount ensures SlotOk(s, node) {
        assert old(SlotOk(s, null));
        if s != node.slot {
          assert forall other :: other in slotLists[s] ==> other !in list;
          forall i | 0 <= i < |slotLists[s]| ensures SlotLinks(slotLists[s], i, s) {
            assert old(SlotLinks(slotLists[s], i, s));
          }
        }
      }
      forall other | other in nodes && other != node ensures Placed(other) {
        assert old(Placed(other));
      }
    }

    /** The pointer surgery of `link_slot`, on the one list it touches. */
    method LinkFront(node: Node, ghost list: seq<Node>)
      requires node.slot < slots.Length && SlotList(list, slots[node.slot], node.slot)
      requires node !in list && node.slotPrevious == null
      modifies slots, node`slotNext, list`slotPrevious
      ensures SlotList([node] + list, slots[node.slot], node.slot)
      ensures forall s :: 0 <= s < slots.Length && s != node.slot ==> slots[s] == old(slots[s])
    {
      node.slotNext := slots[node.slot];
      if node.slotNext != null {
        node.slotNext.slotPrevious := node;
      }
      slots[node.slot] := node;
      ghost var longer := [node] + list;
      forall j | 0 <= j < |longer| ensures SlotLinks(longer, j, node.slot) {
        assert j > 0 ==> old(SlotLinks(list, j - 1, node.slot));
      }
    }

    method LinkSlot(node: Node)
      requires SlotValid(node) && node in nodes && node.slotPrevious == null
      modifies this`slotLists, slots, node`slot, node`slotNext, nodes`slotPrevious
      ensures SlotValid(null)
      ensures slotLists == Pushed(old(slotLists), Slot(Tick(node.deadline), slotCount), node)
    {
      node.slot := Slot(Tick(node.deadline), slotCount);
      ghost var list := slotLists[node.slot];
      assert old(SlotOk(Slot(Tick(node.deadline), slotCount), node));
      forall i | 0 <= i < |list| ensures SlotLinks(list, i, node.slot) {
        assert old(SlotLinks(list, i, Slot(Tick(node.deadline), slotCount)));
      }
      LinkFront(node, list);
      slotLists := slotLists[node.slot := [node] + list];
      forall s | 0 <= s < slotCount ensures SlotOk(s, null) {
        assert old(SlotOk(s, node));
        if s != node.slot {
          assert forall other :: other in slotLists[s] ==> other !in list && other != node;
          forall i | 0 <= i < |slotLists[s]| ensures SlotLinks(slotLists[s], i, s) {
            assert old(SlotLinks(slotLists[s], i, s));
          }
        }
      }
      forall other | other in nodes ensures Placed(other) {
        assert other != node ==> old(Placed(other));
      }
    }

    /** The walk and the pointer surgery of `unlink_hash`, on the one chain it touches. */
    method UnlinkChain(node: Node, ghost list: seq<Node>, ghost k: nat)
      requires fdBuckets.Length == FD_BUCKET_COUNT
      requires HashChain(list, fdBuckets[HashFd(node.fd)])
      requires k < |list| && list[k] == node
      modifies fdBuckets, list`hashNext
      ensures HashChain(Without(list, k), fdBuckets[HashFd(node.fd)])
      ensures forall b :: 0 <= b < FD_BUCKET_COUNT && b != HashFd(node.fd) ==> fdBuckets[b] == old(fdBuckets[b])
    {
      var bucket := HashFd(node.fd);
      var previous: Node?, link := null, fdBuckets[bucket];
      ghost var i := 0;
      while link != null && link != node
        invariant 0 <= i <= k && link == list[i]
        invariant previous == if i == 0 then null else list[i - 1]
        decreases k - i
      {
        assert HashLink(list, i);
        previous, link, i := link, link.hashNext, i + 1;
      }
      assert HashLink(list, k);
      if link == node {
        if previous == null {
          fdBuckets[bucket] := node.hashNext;
        } else {
          previous.hashNext := node.hashNext;
        }
      }
      WithoutMembers(list, k);
      ghost var rest := Without(list, k);
      forall j | 0 <= j < |rest| ensures HashLink(rest, j) {
        assert old(HashLink(list, if j < k then j else j + 1));
      }
    }

    method UnlinkHash(node: Node)
      requires HashValid(null) && node in nodes
      modifies this`chains, fdBuckets, nodes`hashNext
      ensures HashValid(node)
    {
      var bucket := HashFd(node.fd);
      assert BucketOk(bucket, null);
      ghost var list := chains[bucket];
      ghost var k :| 0 <= k < |list| && list[k] == node;
      UnlinkChain(node, list, k);
      WithoutMembers(list, k);
      chains := chains[bucket := Without(list, k)];
      forall b | 0 <= b < FD_BUCKET_COUNT ensures BucketOk(b, node) {
        assert old(BucketOk(b, null));
        if b != bucket {
          assert forall other :: other in chains[b] ==> other !in list;
          forall i | 0 <= i < |chains[b]| ensures HashLink(chains[b], i) {
            assert old(HashLink(chains[b], i));
            assert chains[b][i] in chains[b];
          }
        }
      }
      assert forall b :: 0 <= b < FD_BUCKET_COUNT ==> BucketOk(b, node);
    }

    method LinkHash(node: Node)
      requires HashValid(node) && node in nodes
      modifies this`chains, fdBuckets, node`hashNext
      ensures HashValid(null)
    {
      var bucket := HashFd(node.fd);
      assert BucketOk(bucket, node);
      ghost var list := chains[bucket];
      node.hashNext := fdBuckets[bucket];
      fdBuckets[bucket] := node;
      chains := chains[bucket := [node] + list];
      forall b | 0 <= b < FD_BUCKET_COUNT ensures BucketOk(b, null) {
        assert old(BucketOk(b, node));
        forall i | 0 <= i < |chains[b]| ensures HashLink(chains[b], i) {
          assert b != bucket ==> old(HashLink(chains[b], i));
          assert b == bucket && i > 0 ==> old(HashLink(list, i - 1));
          assert chains[b][i] in chains[b];
        }
      }
    }

    /** Drops a node that is in no list any more. */
    ghost method Free(node: Node)
      requires IndexValid() && HashValid(node) && SlotValid(node) && node in nodes
      modifies this`nodes, this`nodeOf, this`deadlines
      ensures IndexValid() && HashValid(null) && SlotValid(null)
      ensures nodes == old(nodes) - {node} && deadlines == old(deadlines) - {node.fd}
    {
      nodes, nodeOf, deadlines := nodes - {node}, nodeOf - {node.fd}, deadlines - {node.fd};
      forall b | 0 <= b < FD_BUCKET_COUNT
        ensures BucketOk(b, null) && forall other :: other in chains[b] ==> other in nodes
      {
        assert old(BucketOk(b, node));
      }
      forall s | 0 <= s < slotCount
        ensures SlotOk(s, null) && forall other :: other in slotLists[s] ==> other in nodes
      {
        assert old(SlotOk(s, node));
      }
      forall other | other in nodes ensures Placed(other) {
        assert old(Placed(other));
      }
    }

    /** Takes up a new node that is in no list yet. */
    ghost method Admit(node: Node)
      requires IndexValid() && HashValid(null) && SlotValid(null)
      requires node !in nodes && node.fd !in deadlines
      modifies this`nodes, this`nodeOf, this`deadlines
      ensures IndexValid() && HashValid(node) && SlotValid(node)
      ensures nodes == old(nodes) + {node} && deadlines == old(deadlines)[node.fd := node.deadline]
    {
      nodes, nodeOf, deadlines :=
        nodes + {node}, nodeOf[node.fd := node], deadlines[node.fd := node.deadline];
      forall b | 0 <= b < FD_BUCKET_COUNT ensures BucketOk(b, node) {
        assert old(BucketOk(b, null));
      }
      forall s | 0 <= s < slotCount ensures SlotOk(s, node) {
        assert old(SlotOk(s, null));
      }
      forall other | other in nodes && other != node ensures Placed(other) {
        assert old(Placed(other));
      }
    }

    /** The four statements that take a node out of the wheel. */
    method Discard(node: Node)
      requires Valid() && node in nodes
      modifies this`slotLists, this`chains, this`nodes, this`nodeOf, this`deadlines, this`size, slots, fdBuckets
      modifies nodes`slotPrevious, nodes`slotNext, nodes`hashNext
      ensures Valid()
      ensures nodes == old(nodes) - {node} && deadlines == old(deadlines) - {node.fd}
      ensures slotLists == Taken(old(slotLists), old(node.slot), node)
    {
      hide IndexValid, HashValid, SlotValid, Taken;
      UnlinkSlot(node);
      UnlinkHash(node);
      Free(node);
      size := size - 1;
    }

    /** Takes a node out of its slot list and puts it at the head of its slot again. */
    method Relink(node: Node)
      requires Valid() && node in nodes
      modifies this`slotLists, slots, nodes`slot, nodes`slotPrevious, nodes`slotNext
      ensures Valid()
      ensures slotLists == Pushed(Taken(old(slotLists), old(node.slot), node),
        Slot(Tick(node.deadline), slotCount), node)
    {
      hide IndexValid, HashValid, SlotValid, Counted, Taken, Pushed;
      UnlinkSlot(node);
      LinkSlot(node);
    }

    /** `timer_wheel_create`, on the seconds the monotonic clock shows. */
    constructor (timeoutSeconds: nat, currentSecond: nat)
      requires timeoutSeconds > 0
      ensures Valid() && fresh(slots) && fresh(fdBuckets) && nodes == {}
      ensures this.timeoutSeconds == timeoutSeconds && this.currentSecond == currentSecond
      ensures deadlines == map[]
    {
      this.timeoutSeconds, this.slotCount := timeoutSeconds, timeoutSeconds + 1;
      this.currentSecond, size := currentSecond, 0;
      slots := new Node?[timeoutSeconds + 1](_ => null);
      fdBuckets := new Node?[FD_BUCKET_COUNT](_ => null);
      deadlines, nodeOf, nodes := map[], map[], {};
      slotLists := seq(timeoutSeconds + 1, _ => []);
      chains := seq(FD_BUCKET_COUNT, _ => []);
      new;
      forall s | 0 <= s < slotCount ensures SlotOk(s, null) {
      }
      forall b | 0 <= b < FD_BUCKET_COUNT ensures BucketOk(b, null) {
      }
    }

    /** Puts a new node into both structures. */
    method Place(node: Node)
      requires IndexValid() && HashValid(null) && SlotValid(null) && slots != fdBuckets
      requires node !in nodes && node.fd !in deadlines && node.slotPrevious == null
      modifies this`slotLists, this`chains, this`nodes, this`nodeOf, this`deadlines, slots, fdBuckets
      modifies nodes`slotPrevious, node`slot, node`slotNext, node`slotPrevious, node`hashNext
      ensures IndexValid() && HashValid(null) && SlotValid(null)
      ensures nodes == old(nodes) + {node} && deadlines == old(deadlines)[node.fd := node.deadline]
    {
      hide IndexValid, HashValid, SlotValid, Pushed;
      Admit(node);
      LinkHash(node);
      LinkSlot(node);
    }

    /** `track_locked`; `memory` says whether the allocation succeeds. */
    method TrackLocked(fd: int, now: TimeSpec, memory: bool) returns (ok: bool)
      requires Valid()
      modifies this`slotLists, this`chains, this`nodes, this`nodeOf, this`deadlines, this`size, slots, fdBuckets
      modifies nodes`slotPrevious
      ensures Valid() && fresh(nodes - old(nodes))
      ensures ok == (memory && fd !in old(deadlines))
      ensures deadlines == if ok then old(deadlines)[fd := now.Plus(timeoutSeconds)] else old(deadlines)
    {
      hide IndexValid, HashValid, SlotValid;
      var found := FindNode(fd);
      if found != null || !memory {
        return false;
      }
      var node := new Node(fd, now.Plus(timeoutSeconds));
      Place(node);
      size := size + 1;
      ok := true;
    }

    /** `timer_wheel_track_at` */
    method TrackAt(fd: int, now: TimeSpec, memory: bool) returns (ok: bool)
      requires Valid()
      modifies this`slotLists, this`chains, this`nodes, this`nodeOf, this`deadlines, this`size, slots, fdBuckets
      modifies nodes`slotPrevious
      ensures Valid() && fresh(nodes - old(nodes))
      ensures ok == (fd >= 0 && now.Normal() && memory && fd !in old(deadlines))
      ensures deadlines == if ok then old(deadlines)[fd := now.Plus(timeoutSeconds)] else old(deadlines)
    {
      if fd < 0 || now.nsec < 0 || now.nsec >= NANOS_PER_SECOND {
        return false;
      }
      ok := TrackLocked(fd, now, memory);
    }

    /** `timer_wheel_track_and_publish`; `clock`, `memory` and `publish` say whether the
        clock, the allocation and the callback succeed. */
    method TrackAndPublish(fd: int, now: TimeSpec, clock: bool, memory: bool, publish: bool)
      returns (ok: bool)
      requires Valid()
      modifies this`slotLists, this`chains, this`nodes, this`nodeOf, this`deadlines, this`size, slots, fdBuckets
      modifies nodes`slotPrevious, nodes`slotNext, nodes`hashNext
      ensures Valid() && fresh(nodes - old(nodes))
      ensures ok == (fd >= 0 && clock && memory && publish && fd !in old(deadlines))
      ensures deadlines == if ok then old(deadlines)[fd := now.Plus(timeoutSeconds)] else old(deadlines)
    {
      hide IndexValid, HashValid, SlotValid, Counted, Taken;
      if fd < 0 || !clock {
        return false;
      }
      ghost var before := deadlines;
      ok := TrackLocked(fd, now, memory);
      if ok && !publish {
        var node := FindNode(fd);
        Discard(node);
        assert deadlines == before;
        ok := false;
      }
    }

    /** Changes the deadline of a node that is in no slot list. */
    method SetDeadline(node: Node, deadline: TimeSpec)
      requires IndexValid() && SlotValid(node) && node in nodes
      modifies this`deadlines, node`deadline
      ensures IndexValid() && SlotValid(node)
      ensures deadlines == old(deadlines)[node.fd := deadline] && node.deadline == deadline
    {
      node.deadline := deadline;
      deadlines := deadlines[node.fd := deadline];
      forall s | 0 <= s < slotCount ensures SlotOk(s, node) {
        assert old(SlotOk(s, node));
      }
      forall other | other in nodes && other != node ensures Placed(other) {
        assert old(Placed(other));
      }
    }

    /** `timer_wheel_touch_at` */
    method TouchAt(fd: int, now: TimeSpec) returns (ok: bool)
      requires Valid()
      modifies this`slotLists, this`deadlines, slots
      modifies nodes`slot, nodes`deadline, nodes`slotPrevious, nodes`slotNext
      ensures Valid() && nodes == old(nodes)
      ensures ok == (now.Normal() && fd in old(deadlines))
      ensures deadlines == if ok then old(deadlines)[fd := now.Plus(timeoutSeconds)] else old(deadlines)
    {
      hide IndexValid, HashValid, SlotValid, Counted, Taken, Pushed;
      if now.nsec < 0 || now.nsec >= NANOS_PER_SECOND {
        return false;
      }
      var node := FindNode(fd);
      if node == null {
        return false;
      }
      UnlinkSlot(node);
      SetDeadline(node, now.Plus(timeoutSeconds));
      LinkSlot(node);
      ok := true;
    }

    /** `timer_wheel_remove` */
    method Remove(fd: int)
      requires Valid()
      modifies this`slotLists, this`chains, this`nodes, this`nodeOf, this`deadlines, this`size, slots, fdBuckets
      modifies nodes`slotPrevious, nodes`slotNext, nodes`hashNext
      ensures Valid() && nodes <= old(nodes)
      ensures deadlines == if fd < 0 then old(deadlines) else old(deadlines) - {fd}
    {
      hide IndexValid, HashValid, SlotValid, Counted, Taken;
      if fd < 0 {
        return;
      }
      var node := FindNode(fd);
      if node == null {
        return;
      }
      Discard(node);
    }

    /** The sweep of a slot that held `list` has come to position i; the survivors before
        it now stand at the head, as `kept`. */
    ghost predicate Reached(slot: nat, kept: seq<Node>, list: seq<Node>, i: nat)
      reads `slotLists
    {
      slot < slotCount == |slotLists| && i <= |list| && slotLists[slot] == kept + list[i..]
    }

    /** What the sweep does with one node. */
    method Examine(node: Node, now: TimeSpec, slot: nat, ghost kept: seq<Node>, ghost list: seq<Node>, ghost i: nat)
      returns (due: bool, ghost kept': seq<Node>)
      requires Valid() && Reached(slot, kept, list, i) && i < |list| && node == list[i]
      modifies this`slotLists, this`chains, this`nodes, this`nodeOf, this`deadlines, this`size, slots, fdBuckets
      modifies nodes`slot, nodes`slotPrevious, nodes`slotNext, nodes`hashNext
      ensures Valid() && due == node.deadline.AtMost(now) && Reached(slot, kept', list, i + 1)
      ensures nodes == if due then old(nodes) - {node} else old(nodes)
      ensures deadlines == if due then old(deadlines) - {node.fd} else old(deadlines)
    {
      hide IndexValid, HashValid, SlotValid, Counted, Taken, Pushed, Reached;
      TakenFromMiddle(slot, kept, list, i);
      due := node.deadline.AtMost(now);
      if due {
        Discard(node);
        kept' := kept;
      } else {
        Relink(node);
        kept' := [node] + kept;
      }
      ReachedBy(slot, kept', list, i + 1);
    }

    lemma ReachedBy(slot: nat, kept: seq<Node>, list: seq<Node>, i: nat)
      requires slot < slotCount == |slotLists| && i <= |list| && slotLists[slot] == kept + list[i..]
      ensures Reached(slot, kept, list, i)
    {
    }

    /** Taking out the node at position i, and pushing it again, moves the sweep on. */
    lemma TakenFromMiddle(slot: nat, kept: seq<Node>, list: seq<Node>, i: nat)
      requires SlotValid(null) && Reached(slot, kept, list, i) && i < |list|
      ensures list[i] in nodes
      ensures var taken := Taken(slotLists, list[i].slot, list[i]);
        && slot < slotCount == |taken| && taken[slot] == kept + list[i + 1..]
        && var pushed := Pushed(taken, Slot(Tick(list[i].deadline), slotCount), list[i]);
           |pushed| == slotCount && pushed[slot] == [list[i]] + kept + list[i + 1..]
    {
      assert SlotOk(slot, null);
      var node, all := list[i], slotLists[slot];
      assert all == kept + [node] + list[i + 1..];
      assert all[|kept|] == node && node in all && Placed(node);
      assert IndexOf(all, node) == |kept|;
      assert Without(all, |kept|) == kept + list[i + 1..];
      assert [node] + (kept + list[i + 1..]) == [node] + kept + list[i + 1..];
    }

    /** `fds` and `before` say what the nodes of `list` hold. */
    ghost predicate Listed(list: seq<Node>, fds: seq<int>, before: Deadlines)
      reads list`fd, list`deadline
    {
      && |fds| == |list|
      && forall i :: 0 <= i < |list| ==>
           fds[i] == list[i].fd && fds[i] in before && before[fds[i]] == list[i].deadline
    }

    ghost function Fds(list: seq<Node>): (fds: seq<int>)
      reads list
      ensures |fds| == |list| && forall i :: 0 <= i < |list| ==> fds[i] == list[i].fd
    {
      seq(|list|, i requires 0 <= i < |list| reads list => list[i].fd)
    }

    /** A slot list holds, once each, the fds whose tick falls into the slot. */
    lemma SlotMembers(slot: nat)
      requires IndexValid() && SlotValid(null) && slot < slotCount
      ensures NoRepeats(Fds(slotLists[slot]))
      ensures forall fd :: fd in Fds(slotLists[slot]) <==>
        fd in deadlines && Slot(Tick(deadlines[fd]), slotCount) == slot
      ensures Listed(slotLists[slot], Fds(slotLists[slot]), deadlines)
      ensures slots[slot] == At(slotLists[slot], 0)
    {
      var list := slotLists[slot];
      assert SlotOk(slot, null);
      forall node | node in list ensures Placed(node) && node in nodes && node.slot == slot {
      }
      forall fd | fd in deadlines && Slot(Tick(deadlines[fd]), slotCount) == slot ensures fd in Fds(list) {
        assert Placed(nodeOf[fd]);
        assert Fds(list)[IndexOf(list, nodeOf[fd])] == fd;
      }
    }

    /** The successor of a node the sweep has reached is the next one of the original list. */
    lemma NextOf(slot: nat, kept: seq<Node>, list: seq<Node>, i: nat, fds: seq<int>, before: Deadlines)
      requires SlotValid(null) && Reached(slot, kept, list, i) && i < |list| && Listed(list, fds, before)
      ensures list[i] in nodes && list[i].slotNext == At(list, i + 1)
      ensures i < |fds| && fds[i] == list[i].fd && fds[i] in before && before[fds[i]] == list[i].deadline
    {
      assert SlotOk(slot, null);
      assert SlotLinks(slotLists[slot], |kept|, slot);
      assert slotLists[slot][|kept|] == list[i];
      assert list[i..] == [list[i]] + list[i + 1..];
    }

    /** The inner loop of `timer_wheel_advance_at`, over a slot that held `list`. */
    method Walk(slot: nat, now: TimeSpec, ghost list: seq<Node>, ghost fds: seq<int>)
      returns (expired: seq<int>, ghost examined: seq<int>)
      requires Valid() && slot < slots.Length && slots[slot] == At(list, 0)
      requires Reached(slot, [], list, 0) && Listed(list, fds, deadlines) && |fds| == |list|
      modifies this`slotLists, this`chains, this`nodes, this`nodeOf, this`deadlines, this`size, slots, fdBuckets
      modifies nodes`slot, nodes`slotPrevious, nodes`slotNext, nodes`hashNext
      ensures Valid() && nodes <= old(nodes)
      ensures WalkedTo(old(deadlines), fds, |fds|, now, examined, expired, deadlines)
    {
      hide IndexValid, HashValid, SlotValid, Counted, WalkedTo, Listed, Reached;
      ghost var before, kept: seq<Node>, i := deadlines, [], 0;
      var node := slots[slot];
      expired, examined := [], [];
      WalkStart(before, fds, now);
      while node != null
        invariant Valid() && nodes <= old(nodes) && Listed(list, fds, before)
        invariant 0 <= i <= |list| && node == At(list, i) && Reached(slot, kept, list, i)
        invariant WalkedTo(before, fds, i, now, examined, expired, deadlines)
        decreases |list| - i
      {
        NextOf(slot, kept, list, i, fds, before);
        WalkOn(before, fds, i, now, examined, expired, deadlines);
        var next, fd := node.slotNext, node.fd;
        var due;
        due, kept := Examine(node, now, slot, kept, list, i);
        if due {
          expired := expired + [fd];
        }
        examined := examined + [fd];
        node, i := next, i + 1;
      }
    }

    /** One second of the sweep: every node of the slot is examined once, in list order,
        although survivors move to the head of the same list. */
    method SweepSlot(slot: nat, now: TimeSpec) returns (expired: seq<int>, ghost examined: seq<int>)
      requires Valid() && slot < slotCount
      modifies this`slotLists, this`chains, this`nodes, this`nodeOf, this`deadlines, this`size, slots, fdBuckets
      modifies nodes`slot, nodes`slotPrevious, nodes`slotNext, nodes`hashNext
      ensures Valid() && nodes <= old(nodes)
      ensures Round(old(deadlines), slot, now, slotCount, examined, expired, deadlines)
    {
      SlotMembers(slot);
      ghost var list, fds := slotLists[slot], Fds(slotLists[slot]);
      hide IndexValid, HashValid, SlotValid, Counted, WalkedTo, Round;
      expired, examined := Walk(slot, now, list, fds);
      WalkEnds(old(deadlines), fds, slot, now, slotCount, examined, expired, deadlines);
    }

    /** `timer_wheel_advance_at`. The fds handed to `expire` come back in order;
        `rounds` lists, second by second, the fds that were examined. */
    method AdvanceAt(now: TimeSpec) returns (expired: seq<int>, ghost rounds: seq<seq<int>>)
      requires Valid()
      modifies this`slotLists, this`chains, this`nodes, this`nodeOf, this`deadlines, this`size, slots, fdBuckets
      modifies this`currentSecond, nodes`slot, nodes`slotPrevious, nodes`slotNext, nodes`hashNext
      ensures Valid() && nodes <= old(nodes)
      ensures currentSecond == if old(currentSecond) < now.sec then now.sec else old(currentSecond)
      ensures Sweep(old(deadlines), old(currentSecond), currentSecond, now, slotCount, rounds, expired, deadlines)
    {
      expired, rounds := [], [];
      SweepStart(deadlines, currentSecond, now, slotCount);
      hide IndexValid, HashValid, SlotValid, Counted, Round, Sweep, Slot;
      ghost var from, before := currentSecond, deadlines;
      while currentSecond < now.sec
        invariant Valid() && nodes <= old(nodes)
        invariant from <= currentSecond && (currentSecond <= now.sec || currentSecond == from)
        invariant Sweep(before, from, currentSecond, now, slotCount, rounds, expired, deadlines)
      {
        currentSecond := currentSecond + 1;
        ghost var current := deadlines;
        var due; ghost var examined;
        due, examined := SweepSlot(Slot(currentSecond, slotCount), now);
        SweepOn(before, from, currentSecond - 1, now, slotCount, rounds, expired, current, examined, due, deadlines);
        expired, rounds := expired + due, rounds + [examined];
      }
    }

    /** `timer_wheel_size` */
    method Size() returns (count: nat)
      requires Valid()
      ensures count == |deadlines|
    {
      count := size;
      OneNodeEach(nodeOf, nodes);
      assert forall fd :: fd in deadlines.Keys <==> fd in nodeOf.Keys;
      assert deadlines.Keys == nodeOf.Keys;
    }
  }

  /** A map that finds each node by its own fd has as many entries as there are nodes. */
  lemma {:induction false} OneNodeEach(nodeOf: map<int, Node>, nodes: set<Node>)
    requires forall node :: node in nodes ==> exists fd :: fd in nodeOf && nodeOf[fd] == node
    requires forall fd :: fd in nodeOf ==> nodeOf[fd] in nodes
    requires forall fd, fd' :: fd in nodeOf && fd' in nodeOf && nodeOf[fd] == nodeOf[fd'] ==> fd == fd'
    ensures |nodeOf| == |nodes|
    decreases |nodes|
  {
    if nodes == {} {
      assert forall fd :: fd in nodeOf.Keys ==> nodeOf[fd] in nodes;
      assert nodeOf.Keys == {};
    } else {
      var node :| node in nodes;
      var fd :| fd in nodeOf && nodeOf[fd] == node;
      var rest := nodeOf - {fd};
      forall other | other in nodes - {node} ensures exists k :: k in rest && rest[k] == other {
        var k :| k in nodeOf && nodeOf[k] == other;
        assert k in rest;
      }
      OneNodeEach(rest, nodes - {node});
      assert rest.Keys == nodeOf.Keys - {fd};
    }
  }
}

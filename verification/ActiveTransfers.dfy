/** The client's list of active transfers, linked through the tasks, and the loops that run
    over it under the manager's lock. */
module ActiveTransfers {
  import opened Basics
  import opened ListContents
  import Spec = TransferManager

  class Transfer {
    const id: nat
    const kind: Spec.Kind
    const target: string
    var canceled: bool
    var socket: Option<int>
    var next: Transfer?

    constructor (id: nat, kind: Spec.Kind, target: string)
      ensures this.id == id && this.kind == kind && this.target == target
      ensures !canceled && socket == None && next == null
    {
      this.id, this.kind, this.target := id, kind, target;
      canceled, socket, next := false, None, null;
    }

    ghost function View(): Spec.Task
      reads this`canceled, this`socket
    {
      Spec.Task(kind, target, canceled, socket)
    }
  }

  ghost function At(list: seq<Transfer>, i: nat): Transfer? {
    if i < |list| then list[i] else null
  }

  ghost predicate Link(list: seq<Transfer>, i: nat)
    requires i < |list|
    reads list`next
  {
    list[i].next == At(list, i + 1)
  }

  /** The entry of a task in the table shows the transfer. */
  ghost predicate Shows(list: seq<Transfer>, ids: seq<nat>, tasks: map<nat, Spec.Task>, i: nat)
    requires i < |list| == |ids|
    reads list`canceled, list`socket
  {
    list[i].id == ids[i] && ids[i] in tasks && list[i].View() == tasks[ids[i]]
  }

  class TransferManager {
    var active: Transfer?
    var activeCount: nat
    const maxConcurrent: nat
    var stopping: bool
    var events: seq<Spec.Event>
    ghost var list: seq<Transfer>
    ghost var ids: seq<nat>
    ghost var tasks: map<nat, Spec.Task>

    ghost predicate Valid()
      reads this, list`next, list`canceled, list`socket
    {
      && active == At(list, 0) && activeCount == |list| == |ids| && NoRepeats(list) && NoRepeats(ids)
      && (forall i :: 0 <= i < |list| ==> Link(list, i))
      && (forall i :: 0 <= i < |list| ==> Shows(list, ids, tasks, i))
      && (forall t :: t in tasks <==> t in ids)
    }

    ghost function View(): Spec.Manager
      reads this
    {
      Spec.Manager(ids, activeCount, maxConcurrent, stopping, tasks, events)
    }

    constructor (maxConcurrent: nat)
      ensures Valid() && list == [] && View() == Spec.Manager([], 0, maxConcurrent, false, map[], [])
    {
      active, activeCount, stopping, events := null, 0, false, [];
      list, ids, tasks := [], [], map[];
      this.maxConcurrent := maxConcurrent;
    }

    /** The search of `start_task` for another download to the same file. */
    method FindTarget(target: string) returns (found: bool)
      requires Valid()
      ensures found <==> Spec.TargetTaken(View(), target)
    {
      var transfer := active;
      ghost var i := 0;
      while transfer != null
        invariant 0 <= i <= |list| && transfer == At(list, i)
        invariant forall k :: 0 <= k < |list| ==> Shows(list, ids, tasks, k)
        invariant forall k :: 0 <= k < i ==> !(tasks[ids[k]].kind == Spec.Download && tasks[ids[k]].target == target)
        decreases |list| - i
      {
        assert Link(list, i) && Shows(list, ids, tasks, i);
        if transfer.kind == Spec.Download && transfer.target == target {
          assert ids[i] in ids;
          return true;
        }
        transfer, i := transfer.next, i + 1;
      }
      found := false;
    }

    /** `start_task`: the transfer goes to the front of the list before its thread is created,
        and is taken off again when there is no thread. */
    method StartTask(transfer: Transfer, thread: bool) returns (ok: bool)
      requires Valid() && transfer !in list && transfer.id !in ids
      requires !transfer.canceled && transfer.socket == None
      modifies this, transfer`next
      ensures Valid() && View() == Spec.Started(old(View()), transfer.id, transfer.kind, transfer.target, thread)
      ensures ok <==> Spec.MayStart(old(View()), transfer.kind, transfer.target) && thread
      ensures list == if ok then [transfer] + old(list) else old(list)
    {
      if stopping || activeCount >= maxConcurrent {
        return false;
      }
      if transfer.kind == Spec.Download {
        var found := FindTarget(transfer.target);
        if found {
          return false;
        }
      }
      transfer.next := active;
      active, activeCount := transfer, activeCount + 1;
      if !thread {
        active, activeCount := transfer.next, activeCount - 1;
        assert forall i :: 0 <= i < |list| ==> old(Link(list, i)) && Link(list, i);
        return false;
      }
      Remember(transfer);
      ok := true;
    }

    ghost method Remember(transfer: Transfer)
      requires |list| == |ids| && transfer.next == At(list, 0) && transfer.id !in ids
      requires forall i :: 0 <= i < |list| ==> Link(list, i) && Shows(list, ids, tasks, i)
      modifies this`list, this`ids, this`tasks
      ensures list == [transfer] + old(list) && ids == [transfer.id] + old(ids)
      ensures tasks == old(tasks)[transfer.id := transfer.View()]
      ensures forall i :: 0 <= i < |list| ==> Link(list, i) && Shows(list, ids, tasks, i)
    {
      list, ids, tasks := [transfer] + list, [transfer.id] + ids, tasks[transfer.id := transfer.View()];
      forall i | 0 <= i < |list| ensures Link(list, i) && Shows(list, ids, tasks, i) {
        assert i > 0 ==> old(Link(list, i - 1) && Shows(list, ids, tasks, i - 1));
        assert i > 0 ==> ids[i] == old(ids)[i - 1];
      }
    }

    /** The critical section of `finish_task`. */
    method FinishTask(transfer: Transfer, outcome: Spec.Outcome)
      requires Valid() && (transfer in list || transfer.id !in ids)
      modifies this, list`next
      ensures Valid() && View() == Spec.Finished(old(View()), transfer.id, outcome)
      ensures forall x :: x in list <==> x in old(list) && x != transfer
    {
      hide NoRepeats, Without, Minus;
      var found, i := Unlink(transfer);
      events := events + [Spec.Event(transfer.id, outcome)];
      if found {
        activeCount := activeCount - 1;
        assert Shows(list, ids, tasks, i);
        MinusAt(ids, i);
        Forget(i);
      } else {
        assert tasks - {transfer.id} == tasks;
      }
    }

    /** Walks to the link that points at the transfer and makes it point past it. */
    method Unlink(transfer: Transfer) returns (found: bool, ghost i: nat)
      requires Valid()
      modifies this`active, list`next
      ensures found <==> transfer in list
      ensures found ==> i < |list| && list[i] == transfer && active == At(Without(list, i), 0)
      ensures found ==> forall k :: 0 <= k < |list| - 1 ==> Link(Without(list, i), k)
      ensures !found ==> active == At(list, 0) && forall k :: 0 <= k < |list| ==> Link(list, k)
    {
      i := 0;
      if active == null {
        return false, i;
      }
      if active == transfer {
        assert Link(list, 0);
        active := transfer.next;
      } else {
        var previous := active;
        while previous.next != null && previous.next != transfer
          invariant 0 <= i < |list| && previous == list[i]
          invariant forall k :: 0 <= k <= i ==> list[k] != transfer
          decreases |list| - i
        {
          assert Link(list, i);
          previous, i := previous.next, i + 1;
        }
        assert Link(list, i);
        if previous.next == null {
          return false, i;
        }
        assert Link(list, i + 1);
        previous.next := transfer.next;
        i := i + 1;
      }
      found := true;
      forall k | 0 <= k < |list| - 1 ensures Link(Without(list, i), k) {
        assert old(Link(list, k)) && old(Link(list, k + 1));
      }
    }

    ghost method Forget(i: nat)
      requires i < |list| == |ids| && NoRepeats(list) && NoRepeats(ids)
      requires forall k :: 0 <= k < |list| ==> Shows(list, ids, tasks, k)
      requires forall t :: t in tasks <==> t in ids
      modifies this`list, this`ids, this`tasks
      ensures list == old(Without(list, i)) && ids == old(Without(ids, i)) && tasks == old(tasks) - {old(ids[i])}
      ensures |list| == |ids| == |old(list)| - 1 && NoRepeats(ids) && forall t :: t in tasks <==> t in ids
      ensures forall k :: 0 <= k < |list| ==> Shows(list, ids, tasks, k)
      ensures NoRepeats(list) && forall x :: x in list <==> x in old(list) && x != old(list[i])
    {
      WithoutMembers(list, i);
      WithoutMembers(ids, i);
      list, ids, tasks := Without(list, i), Without(ids, i), tasks - {ids[i]};
      forall k | 0 <= k < |list| ensures Shows(list, ids, tasks, k) {
        assert old(Shows(list, ids, tasks, if k < i then k else k + 1));
        assert ids[k] in ids;
      }
    }

    /** The loop of `transfer_manager_stop`; `cut` are the sockets it shuts down. */
    method CancelAll() returns (cut: set<int>)
      requires Valid()
      modifies this`stopping, this`tasks, list`canceled
      ensures Valid() && View() == Spec.Stopped(old(View())) && cut == Spec.Reached(old(View()))
      ensures list == old(list)
    {
      hide CanceledUpTo, ReachedUpTo;
      NoneCanceled(View());
      stopping, cut := true, {};
      var transfer := active;
      ghost var i := 0;
      while transfer != null
        invariant 0 <= i <= |list| && transfer == At(list, i) && stopping
        invariant forall k :: 0 <= k < |list| ==> Shows(list, ids, tasks, k)
        invariant tasks == CanceledUpTo(old(View()), i) && cut == ReachedUpTo(old(View()), i)
        decreases |list| - i
      {
        assert Link(list, i) && Shows(list, ids, tasks, i);
        Cancel(transfer, i);
        if transfer.socket.Some? {
          cut := cut + {transfer.socket.value};
        }
        OneMoreCanceled(old(View()), i);
        transfer, i := transfer.next, i + 1;
      }
      AllCanceled(old(View()));
      assert forall k :: 0 <= k < |list| ==> Link(list, k);
    }

    method Cancel(transfer: Transfer, ghost i: nat)
      requires i < |list| == |ids| && list[i] == transfer && ids[i] in tasks && NoRepeats(list) && NoRepeats(ids)
      requires forall k :: 0 <= k < |list| ==> Shows(list, ids, tasks, k)
      modifies this`tasks, transfer`canceled
      ensures tasks == old(tasks)[ids[i] := old(tasks)[ids[i]].(canceled := true)]
      ensures forall k :: 0 <= k < |list| ==> Shows(list, ids, tasks, k)
    {
      assert Shows(list, ids, tasks, i);
      transfer.canceled := true;
      tasks := tasks[ids[i] := tasks[ids[i]].(canceled := true)];
      forall k | 0 <= k < |list| ensures Shows(list, ids, tasks, k) {
        assert old(Shows(list, ids, tasks, k));
      }
    }
  }

  /** The table once the first `n` tasks are canceled. */
  ghost function CanceledUpTo(m: Spec.Manager, n: nat): map<nat, Spec.Task>
    requires n <= |m.active|
  {
    map t | t in m.tasks :: if t in m.active[..n] then m.tasks[t].(canceled := true) else m.tasks[t]
  }

  /** The published sockets of the first `n` tasks. */
  ghost function ReachedUpTo(m: Spec.Manager, n: nat): set<int>
    requires n <= |m.active|
  {
    set t | t in m.active[..n] && t in m.tasks && m.tasks[t].socket.Some? :: m.tasks[t].socket.value
  }

  lemma OneMoreCanceled(m: Spec.Manager, n: nat)
    requires n < |m.active| && m.active[n] in m.tasks && NoRepeats(m.active)
    ensures var t := m.active[n];
      && CanceledUpTo(m, n + 1) == CanceledUpTo(m, n)[t := m.tasks[t].(canceled := true)]
      && ReachedUpTo(m, n + 1) == ReachedUpTo(m, n)
          + (if m.tasks[t].socket.Some? then {m.tasks[t].socket.value} else {})
      && CanceledUpTo(m, n)[t] == m.tasks[t]
  {
    assert m.active[..n + 1] == m.active[..n] + [m.active[n]];
  }

  lemma NoneCanceled(m: Spec.Manager)
    ensures CanceledUpTo(m, 0) == m.tasks && ReachedUpTo(m, 0) == {}
  {
  }

  lemma AllCanceled(m: Spec.Manager)
    ensures CanceledUpTo(m, |m.active|) == Spec.Stopped(m).tasks && ReachedUpTo(m, |m.active|) == Spec.Reached(m)
  {
    assert m.active[..|m.active|] == m.active;
  }
}

/** The worker pool's queue: a singly linked list with a head, a tail and a size. */
module TaskQueue {

  class Task {
    const arg: nat
    var next: Task?

    constructor (arg: nat)
      ensures this.arg == arg && next == null
    {
      this.arg, next := arg, null;
    }
  }

  ghost function At(list: seq<Task>, i: nat): Task? {
    if i < |list| then list[i] else null
  }

  ghost predicate Link(list: seq<Task>, i: nat)
    requires i < |list|
    reads list
  {
    list[i].next == At(list, i + 1)
  }

  class TaskQueue {
    var head: Task?
    var tail: Task?
    var size: nat
    const capacity: nat
    ghost var tasks: seq<Task>

    ghost predicate Valid()
      reads this, tasks
    {
      && head == At(tasks, 0) && tail == (if tasks == [] then null else tasks[|tasks| - 1])
      && size == |tasks| <= capacity
      && (forall i, j :: 0 <= i < j < |tasks| ==> tasks[i] != tasks[j])
      && forall i :: 0 <= i < |tasks| ==> Link(tasks, i)
    }

    /** The arguments in the queue, first in first. */
    ghost function Contents(): (args: seq<nat>)
      reads this, tasks
      ensures |args| == |tasks| && forall i :: 0 <= i < |tasks| ==> args[i] == tasks[i].arg
    {
      var list := tasks;
      seq(|list|, i requires 0 <= i < |list| => list[i].arg)
    }

    constructor (capacity: nat)
      ensures Valid() && Contents() == [] && this.capacity == capacity
    {
      head, tail, size, tasks := null, null, 0, [];
      this.capacity := capacity;
    }

    /** The enqueuing part of `thread_pool_add`, once there is room. */
    method Enqueue(arg: nat)
      requires Valid() && size < capacity
      modifies this, tasks
      ensures Valid() && Contents() == old(Contents()) + [arg]
      ensures fresh(tasks[|tasks| - 1]) && tasks == old(tasks) + [tasks[|tasks| - 1]]
    {
      var task := new Task(arg);
      ghost var before := tasks;
      if tail == null {
        head, tail := task, task;
      } else {
        tail.next := task;
        tail := task;
      }
      size, tasks := size + 1, tasks + [task];
      forall i | 0 <= i < |tasks| ensures Link(tasks, i) {
        assert i < |before| ==> old(Link(before, i));
      }
    }

    /** The dequeuing part of `thread_worker`, once there is a task. */
    method Dequeue() returns (arg: nat)
      requires Valid() && size > 0
      modifies this
      ensures Valid() && old(Contents()) == [arg] + Contents()
      ensures tasks == old(tasks)[1..]
    {
      var task := head;
      assert Link(tasks, 0);
      head := task.next;
      if head == null {
        tail := null;
      }
      size := size - 1;
      arg := task.arg;
      ghost var before := tasks;
      tasks := tasks[1..];
      forall i | 0 <= i < |tasks| ensures Link(tasks, i) {
        assert old(Link(before, i + 1));
      }
    }
  }
}

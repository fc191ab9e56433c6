/** The client's background transfers: which run, which sockets they hold, and how a stop
    reaches them.

    One step is one critical section under the manager's lock, or one action outside it.
    Socket numbers may be handed out again after a close. */
module TransferManager {
  import opened Basics
  import opened ListContents

  datatype Kind = Upload | Download

  datatype Outcome = Ok | Failed | Canceled

  datatype Event = Event(task: nat, outcome: Outcome)

  /** The part of a task that the manager's lock protects. */
  datatype Task = Task(kind: Kind, target: string, canceled: bool, socket: Option<int>)

  /** `struct transfer_manager`: `active` is the list, its head first. */
  datatype Manager = Manager(
    active: seq<nat>, activeCount: nat, maxConcurrent: nat, stopping: bool, tasks: map<nat, Task>, events: seq<Event>)

  /** Where the thread of a task stands. */
  datatype Thread =
    | Connecting
    | Connected(fd: int)                    // a socket of its own, not published yet
    | Transferring                          // socket published
    | Ended(ok: bool)                       // socket still published
    | Releasing(fd: int, ok: bool)          // socket taken back, not closed yet
    | Closed(ok: bool)
    | Reporting(outcome: Outcome)           // outcome decided, not reported yet

  datatype Stopper = NotStopping | Checking | Asleep | Returned

  datatype World = World(
    manager: Manager,
    threads: map<nat, Thread>,
    sockets: map<int, nat>,                 // open transfer sockets, with the transfer that opened them
    shut: set<int>,                         // those that have been shut down
    stopper: Stopper,
    started: seq<nat>,                      // every task that was ever started
    results: map<nat, bool>,                // how the transfers themselves ended
    drained: seq<Event>)                    // events already shown to the user

  predicate Init(w: World) {
    && w.manager.active == [] && w.manager.activeCount == 0 && !w.manager.stopping
    && w.manager.maxConcurrent > 0 && w.manager.tasks == map[] && w.manager.events == []
    && w.threads == map[] && w.sockets == map[] && w.shut == {} && w.stopper.NotStopping?
    && w.started == [] && w.results == map[] && w.drained == []
  }

  /** The loop of `start_task` over the active list. */
  ghost predicate TargetTaken(m: Manager, target: string) {
    exists t :: t in m.active && t in m.tasks && m.tasks[t].kind == Download && m.tasks[t].target == target
  }

  ghost predicate MayStart(m: Manager, kind: Kind, target: string) {
    !m.stopping && m.activeCount < m.maxConcurrent && (kind == Download ==> !TargetTaken(m, target))
  }

  /** `start_task`; `thread` says whether the thread can be created. */
  ghost function Started(m: Manager, id: nat, kind: Kind, target: string, thread: bool): Manager {
    if MayStart(m, kind, target) && thread
    then m.(active := [id] + m.active, activeCount := m.activeCount + 1,
            tasks := m.tasks[id := Task(kind, target, false, None)])
    else m
  }

  function Publish(m: Manager, id: nat, fd: int): Manager
    requires id in m.tasks
  {
    if m.tasks[id].canceled then m else m.(tasks := m.tasks[id := m.tasks[id].(socket := Some(fd))])
  }

  function TakeBack(m: Manager, id: nat): Manager
    requires id in m.tasks
  {
    m.(tasks := m.tasks[id := m.tasks[id].(socket := None)])
  }

  /** `finish_task` under the lock. */
  ghost function Finished(m: Manager, id: nat, outcome: Outcome): Manager {
    if id in m.active
    then m.(active := Minus(m.active, id), activeCount := if m.activeCount > 0 then m.activeCount - 1 else 0,
            tasks := m.tasks - {id}, events := m.events + [Event(id, outcome)])
    else m.(tasks := m.tasks - {id}, events := m.events + [Event(id, outcome)])
  }

  /** The loop of `transfer_manager_stop`: every active task is canceled. */
  ghost function Stopped(m: Manager): Manager {
    m.(stopping := true,
       tasks := map t | t in m.tasks :: if t in m.active then m.tasks[t].(canceled := true) else m.tasks[t])
  }

  /** The sockets that the same loop shuts down. */
  ghost function Reached(m: Manager): set<int> {
    set t | t in m.active && t in m.tasks && m.tasks[t].socket.Some? :: m.tasks[t].socket.value
  }

  datatype Step =
    | Start(id: nat, kind: Kind, target: string, thread: bool)
    | ConnectFails(id: nat)
    | Connect(id: nat, fd: int)
    | PublishSocket(id: nat)
    | EndTransfer(id: nat, ok: bool)
    | TakeSocket(id: nat)
    | CloseSocket(id: nat)
    | Decide(id: nat)
    | Finish(id: nat)
    | BeginStop
    | StopLooks
    | StopWakes
    | Drain

  predicate At(w: World, id: nat, thread: Thread) {
    id in w.threads && w.threads[id] == thread && id in w.manager.tasks
  }

  ghost predicate Enabled(w: World, step: Step) {
    match step
    case Start(id, kind, target, thread) => id !in w.started
    case ConnectFails(id) => At(w, id, Connecting)
    case Connect(id, fd) => At(w, id, Connecting) && fd >= 0 && fd !in w.sockets
    case PublishSocket(id) => id in w.threads && w.threads[id].Connected? && id in w.manager.tasks
    case EndTransfer(id, ok) => At(w, id, Transferring)
    case TakeSocket(id) => id in w.threads && w.threads[id].Ended? && id in w.manager.tasks
    case CloseSocket(id) => id in w.threads && w.threads[id].Releasing?
    case Decide(id) => id in w.threads && w.threads[id].Closed? && id in w.manager.tasks
    case Finish(id) => id in w.threads && w.threads[id].Reporting?
    case BeginStop => w.stopper.NotStopping?
    case StopLooks => w.stopper.Checking?
    case StopWakes => w.stopper.Asleep?
    case Drain => true
  }

  ghost function After(w: World, step: Step): World
    requires Enabled(w, step)
  {
    match step
    case Start(id, kind, target, thread) =>
      if MayStart(w.manager, kind, target) && thread
      then w.(manager := Started(w.manager, id, kind, target, thread),
              threads := w.threads[id := Connecting], started := w.started + [id])
      else w
    case ConnectFails(id) => w.(threads := w.threads[id := Closed(false)])
    case Connect(id, fd) => w.(threads := w.threads[id := Connected(fd)], sockets := w.sockets[fd := id])
    case PublishSocket(id) =>
      var fd := w.threads[id].fd;
      if w.manager.tasks[id].canceled
      then w.(threads := w.threads[id := Closed(false)], sockets := w.sockets - {fd}, shut := w.shut - {fd})
      else w.(manager := Publish(w.manager, id, fd), threads := w.threads[id := Transferring])
    case EndTransfer(id, ok) => w.(threads := w.threads[id := Ended(ok)], results := w.results[id := ok])
    case TakeSocket(id) =>
      var socket := w.manager.tasks[id].socket;
      w.(manager := TakeBack(w.manager, id),
         threads := w.threads[id :=
            if socket.Some? then Releasing(socket.value, w.threads[id].ok) else Closed(w.threads[id].ok)])
    case CloseSocket(id) =>
      var fd := w.threads[id].fd;
      w.(threads := w.threads[id := Closed(w.threads[id].ok)], sockets := w.sockets - {fd}, shut := w.shut - {fd})
    case Decide(id) =>
      w.(threads := w.threads[id := Reporting(
        if w.manager.tasks[id].canceled then Canceled else if w.threads[id].ok then Ok else Failed)])
    case Finish(id) =>
      var m := Finished(w.manager, id, w.threads[id].outcome);
      w.(manager := m, threads := w.threads - {id},
         stopper := if m.activeCount == 0 && w.stopper.Asleep? then Checking else w.stopper)
    case BeginStop =>
      w.(manager := Stopped(w.manager), shut := w.shut + Reached(w.manager), stopper := Checking)
    case StopLooks => w.(stopper := if w.manager.activeCount == 0 then Returned else Asleep)
    case StopWakes => w.(stopper := Checking)
    case Drain => w.(manager := w.manager.(events := []), drained := w.drained + w.manager.events)
  }

  /** All events ever reported, shown or not. */
  function Reported(w: World): seq<Event> {
    w.drained + w.manager.events
  }

  /** The list, the count, the limit, and the targets. */
  ghost predicate ListOk(w: World) {
    && w.manager.activeCount == |w.manager.active| <= w.manager.maxConcurrent
    && NoRepeats(w.manager.active)
    && (forall t :: t in w.manager.active <==> t in w.threads)
    && (forall t :: t in w.manager.active <==> t in w.manager.tasks)
    && (forall t, u, target :: LoadsTo(w, t, target) && LoadsTo(w, u, target) ==> t == u)
  }

  predicate LoadsTo(w: World, t: nat, target: string) {
    t in w.manager.tasks && w.manager.tasks[t].kind == Download && w.manager.tasks[t].target == target
  }

  /** Every started task is active or has reported once. */
  ghost predicate EventsOk(w: World) {
    && (forall t :: t in w.started <==> t in w.threads || HasReported(w, t))
    && (forall i :: 0 <= i < |Reported(w)| ==> Reported(w)[i].task !in w.threads)
    && (forall i, j :: 0 <= i < j < |Reported(w)| ==> Reported(w)[i].task != Reported(w)[j].task)
  }

  ghost predicate HasReported(w: World, t: nat) {
    exists i :: 0 <= i < |Reported(w)| && Reported(w)[i].task == t
  }

  /** The socket a thread is responsible for. */
  function Holds(w: World, t: nat): Option<int> {
    if t !in w.threads || t !in w.manager.tasks then None
    else match w.threads[t]
      case Connected(fd) => Some(fd)
      case Transferring => w.manager.tasks[t].socket
      case Ended(_) => w.manager.tasks[t].socket
      case Releasing(fd, _) => Some(fd)
      case _ => None
  }

  predicate Published(w: World, t: nat) {
    t in w.manager.tasks && w.manager.tasks[t].socket.Some?
  }

  predicate Busy(w: World, t: nat) {
    t in w.threads && t in w.manager.tasks && (w.threads[t].Transferring? || w.threads[t].Ended?)
  }

  predicate Opened(w: World, t: nat, fd: int) {
    fd in w.sockets && w.sockets[fd] == t
  }

  /** The sockets that a task opened and has not closed are those its thread is responsible
      for, and it publishes one exactly while the transfer is under way. */
  ghost predicate SocketOf(w: World, t: nat) {
    && (forall fd :: Opened(w, t, fd) <==> Holds(w, t) == Some(fd))
    && (Published(w, t) <==> Busy(w, t))
  }

  ghost predicate SocketsOk(w: World) {
    (forall t :: SocketOf(w, t)) && w.shut <= w.sockets.Keys
  }

  /** Once stopping, every active task is canceled and its published socket is shut down. */
  ghost predicate StopOk(w: World) {
    && (w.manager.stopping <==> !w.stopper.NotStopping?)
    && (w.manager.stopping ==> forall t :: t in w.manager.tasks ==> ReachedByStop(w, w.manager.tasks[t]))
    && (w.stopper.Asleep? ==> w.manager.activeCount > 0)
    && (w.stopper.Returned? ==> w.manager.activeCount == 0)
  }

  predicate ReachedByStop(w: World, task: Task) {
    task.canceled && (task.socket.Some? ==> task.socket.value in w.shut)
  }

  predicate Succeeded(w: World, t: nat) {
    t in w.results && w.results[t]
  }

  /** An outcome says how the transfer ended, unless the task was canceled. */
  predicate IsTrue(w: World, t: nat, outcome: Outcome) {
    (outcome.Ok? ==> Succeeded(w, t)) && (outcome.Failed? ==> !Succeeded(w, t))
  }

  predicate ThreadIsTrue(w: World, t: nat)
    requires t in w.threads
  {
    match w.threads[t]
    case Ended(ok) => ok == Succeeded(w, t)
    case Releasing(_, ok) => ok == Succeeded(w, t)
    case Closed(ok) => ok == Succeeded(w, t)
    case Reporting(outcome) => IsTrue(w, t, outcome)
    case _ => t !in w.results
  }

  ghost predicate OutcomesOk(w: World) {
    && (forall t :: t in w.results ==> t in w.started)
    && (forall t :: t in w.threads ==> ThreadIsTrue(w, t))
    && (forall i :: 0 <= i < |Reported(w)| ==> IsTrue(w, Reported(w)[i].task, Reported(w)[i].outcome))
  }

  ghost predicate Inv(w: World) {
    ListOk(w) && EventsOk(w) && SocketsOk(w) && StopOk(w) && OutcomesOk(w)
  }

  lemma InitOk(w: World)
    requires Init(w)
    ensures Inv(w)
  {
  }

  lemma StepKeepsList(w: World, step: Step)
    requires ListOk(w) && Enabled(w, step) && !step.Finish? && !step.Start?
    ensures ListOk(After(w, step))
  {
    var w' := After(w, step);
    assert forall t, target :: LoadsTo(w', t, target) <==> LoadsTo(w, t, target);
  }

  lemma StartKeepsList(w: World, step: Step)
    requires ListOk(w) && EventsOk(w) && Enabled(w, step) && step.Start?
    ensures ListOk(After(w, step))
  {
    var w' := After(w, step);
    if MayStart(w.manager, step.kind, step.target) && step.thread {
      assert w'.manager.active == [step.id] + w.manager.active;
      forall t, target | LoadsTo(w', t, target) && t != step.id ensures LoadsTo(w, t, target) {
      }
      forall t, target | LoadsTo(w', t, target) && t != step.id ensures !LoadsTo(w', step.id, target) {
        assert t in w.manager.active;
      }
    }
  }

  lemma FinishKeepsList(w: World, step: Step)
    requires ListOk(w) && Enabled(w, step) && step.Finish?
    ensures ListOk(After(w, step))
  {
    var w' := After(w, step);
    WithoutMembers(w.manager.active, IndexOf(w.manager.active, step.id));
    assert forall t, target :: LoadsTo(w', t, target) ==> LoadsTo(w, t, target);
  }

  lemma StepKeepsStop(w: World, step: Step)
    requires ListOk(w) && SocketsOk(w) && StopOk(w) && Enabled(w, step)
    ensures StopOk(After(w, step))
  {
    var w' := After(w, step);
    if w'.manager.stopping {
      forall t | t in w'.manager.tasks ensures ReachedByStop(w', w'.manager.tasks[t]) {
        if w.manager.stopping {
          assert t in w.manager.tasks && ReachedByStop(w, w.manager.tasks[t]);
          assert SocketOf(w, t) && Published(w, t) ==> Opened(w, t, w.manager.tasks[t].socket.value);
          if step.PublishSocket? || step.CloseSocket? {
            assert SocketOf(w, step.id) && Opened(w, step.id, w.threads[step.id].fd);
          }
        }
      }
    }
  }

  /** What a step does not touch of the sockets of `t`. */
  ghost predicate SameFor(w: World, w': World, t: nat) {
    && Holds(w', t) == Holds(w, t) && Published(w', t) == Published(w, t) && Busy(w', t) == Busy(w, t)
    && (forall fd :: Opened(w', t, fd) <==> Opened(w, t, fd))
  }

  lemma OneMoves(w: World, w': World, id: nat)
    requires SocketsOk(w) && (forall t :: t != id ==> SameFor(w, w', t))
    requires SocketOf(w', id) && w'.shut <= w'.sockets.Keys
    ensures SocketsOk(w')
  {
    forall t ensures SocketOf(w', t) {
      if t != id {
        assert SocketOf(w, t) && SameFor(w, w', t);
      }
    }
  }

  lemma ThreadStepsKeepSockets(w: World, step: Step)
    requires SocketsOk(w) && Enabled(w, step) && (step.ConnectFails? || step.EndTransfer? || step.Decide?)
    ensures SocketsOk(After(w, step))
  {
    var w' := After(w, step);
    assert SocketOf(w, step.id) && SameFor(w, w', step.id);
    OneMoves(w, w', step.id);
  }

  lemma StartKeepsSockets(w: World, step: Step)
    requires SocketsOk(w) && Enabled(w, step) && step.Start? && step.id !in w.threads && step.id !in w.manager.tasks
    ensures SocketsOk(After(w, step))
  {
    var w' := After(w, step);
    assert SocketOf(w, step.id) && SameFor(w, w', step.id);
    OneMoves(w, w', step.id);
  }

  lemma FinishKeepsSockets(w: World, step: Step)
    requires SocketsOk(w) && Enabled(w, step) && step.Finish?
    ensures SocketsOk(After(w, step))
  {
    var w' := After(w, step);
    assert SocketOf(w, step.id) && SameFor(w, w', step.id);
    OneMoves(w, w', step.id);
  }

  lemma ShutAreOpen(w: World)
    requires SocketsOk(w)
    ensures Reached(w.manager) <= w.sockets.Keys
  {
    forall fd | fd in Reached(w.manager) ensures fd in w.sockets {
      var t :| t in w.manager.active && t in w.manager.tasks && w.manager.tasks[t].socket == Some(fd);
      assert SocketOf(w, t) && Published(w, t) && Busy(w, t) && Opened(w, t, fd);
    }
  }

  lemma StopKeepsSockets(w: World, step: Step)
    requires SocketsOk(w) && Enabled(w, step)
    requires step.BeginStop? || step.StopLooks? || step.StopWakes? || step.Drain?
    ensures SocketsOk(After(w, step))
  {
    ShutAreOpen(w);
    var w' := After(w, step);
    assert SocketOf(w, 0) && SameFor(w, w', 0);
    OneMoves(w, w', 0);
  }

  lemma ConnectKeepsSockets(w: World, step: Step)
    requires SocketsOk(w) && Enabled(w, step) && step.Connect?
    ensures SocketsOk(After(w, step))
  {
    var w' := After(w, step);
    assert SocketOf(w, step.id) && Holds(w, step.id).None?;
    OneMoves(w, w', step.id);
  }

  lemma PublishKeepsSockets(w: World, step: Step)
    requires SocketsOk(w) && Enabled(w, step) && step.PublishSocket?
    ensures SocketsOk(After(w, step))
  {
    var w', fd := After(w, step), w.threads[step.id].fd;
    assert SocketOf(w, step.id) && Holds(w, step.id) == Some(fd) && Opened(w, step.id, fd);
    OneMoves(w, w', step.id);
  }

  lemma TakeKeepsSockets(w: World, step: Step)
    requires SocketsOk(w) && Enabled(w, step) && step.TakeSocket?
    ensures SocketsOk(After(w, step))
  {
    var w' := After(w, step);
    assert SocketOf(w, step.id) && Busy(w, step.id) && Holds(w', step.id) == Holds(w, step.id);
    OneMoves(w, w', step.id);
  }

  lemma CloseKeepsSockets(w: World, step: Step)
    requires SocketsOk(w) && Enabled(w, step) && step.CloseSocket? && step.id in w.manager.tasks
    ensures SocketsOk(After(w, step))
  {
    var w' := After(w, step);
    assert SocketOf(w, step.id) && Opened(w, step.id, w.threads[step.id].fd);
    OneMoves(w, w', step.id);
  }

  lemma FinishKeepsEvents(w: World, step: Step)
    requires EventsOk(w) && Enabled(w, step) && step.Finish?
    ensures EventsOk(After(w, step))
  {
    var w' := After(w, step);
    var event := Event(step.id, w.threads[step.id].outcome);
    assert Reported(w') == Reported(w) + [event];
    forall t ensures HasReported(w', t) <==> HasReported(w, t) || t == step.id {
      if HasReported(w, t) {
        var i :| 0 <= i < |Reported(w)| && Reported(w)[i].task == t;
        assert Reported(w')[i].task == t;
      }
      assert Reported(w')[|Reported(w)|].task == step.id;
    }
  }

  lemma OthersKeepEvents(w: World, step: Step)
    requires EventsOk(w) && Enabled(w, step) && !step.Finish?
    ensures EventsOk(After(w, step))
  {
    var w' := After(w, step);
    assert Reported(w') == Reported(w);
    assert forall t :: HasReported(w', t) <==> HasReported(w, t);
    if step.Start? {
      forall i | 0 <= i < |Reported(w)| ensures Reported(w)[i].task in w.started {
        assert HasReported(w, Reported(w)[i].task);
      }
    }
  }

  lemma StepKeepsOutcomes(w: World, step: Step)
    requires OutcomesOk(w) && Enabled(w, step) && !step.Finish? && !step.EndTransfer?
    requires step.Start? ==> EventsOk(w)
    ensures OutcomesOk(After(w, step))
  {
    var w' := After(w, step);
    assert Reported(w') == Reported(w);
    forall t | t in w'.threads ensures ThreadIsTrue(w', t) {
      assert t in w.threads ==> ThreadIsTrue(w, t);
    }
  }

  lemma EndKeepsOutcomes(w: World, step: Step)
    requires EventsOk(w) && OutcomesOk(w) && Enabled(w, step) && step.EndTransfer?
    ensures OutcomesOk(After(w, step))
  {
    var w' := After(w, step);
    assert Reported(w') == Reported(w);
    forall t | t in w'.threads ensures ThreadIsTrue(w', t) {
      assert ThreadIsTrue(w, t);
    }
  }

  lemma FinishKeepsOutcomes(w: World, step: Step)
    requires OutcomesOk(w) && Enabled(w, step) && step.Finish?
    ensures OutcomesOk(After(w, step))
  {
    var w' := After(w, step);
    assert ThreadIsTrue(w, step.id);
    assert Reported(w') == Reported(w) + [Event(step.id, w.threads[step.id].outcome)];
    forall t | t in w'.threads ensures ThreadIsTrue(w', t) {
      assert ThreadIsTrue(w, t);
    }
  }

  lemma StepKeepsSockets(w: World, step: Step)
    requires Inv(w) && Enabled(w, step)
    ensures SocketsOk(After(w, step))
  {
    hide After, SocketsOk;
    match step
    case Start(_, _, _, _) => StartKeepsSockets(w, step);
    case Finish(_) => FinishKeepsSockets(w, step);
    case Connect(_, _) => ConnectKeepsSockets(w, step);
    case PublishSocket(_) => PublishKeepsSockets(w, step);
    case TakeSocket(_) => TakeKeepsSockets(w, step);
    case CloseSocket(_) => CloseKeepsSockets(w, step);
    case ConnectFails(_) => ThreadStepsKeepSockets(w, step);
    case EndTransfer(_, _) => ThreadStepsKeepSockets(w, step);
    case Decide(_) => ThreadStepsKeepSockets(w, step);
    case _ => StopKeepsSockets(w, step);
  }

  /** Every step keeps the invariant. */
  lemma StepKeepsInv(w: World, step: Step)
    requires Inv(w) && Enabled(w, step)
    ensures Inv(After(w, step))
  {
    hide After, ListOk, EventsOk, SocketsOk, StopOk, OutcomesOk;
    StepKeepsStop(w, step);
    StepKeepsSockets(w, step);
    if step.Finish? {
      FinishKeepsOutcomes(w, step);
      FinishKeepsList(w, step);
      FinishKeepsEvents(w, step);
    } else {
      if step.EndTransfer? {
        EndKeepsOutcomes(w, step);
      } else {
        StepKeepsOutcomes(w, step);
      }
      OthersKeepEvents(w, step);
      if step.Start? {
        StartKeepsList(w, step);
      } else {
        StepKeepsList(w, step);
      }
    }
  }

  ghost predicate IsRun(worlds: seq<World>, steps: seq<Step>) {
    && |worlds| == |steps| + 1 && Init(worlds[0])
    && forall i :: 0 <= i < |steps| ==> Enabled(worlds[i], steps[i]) && worlds[i + 1] == After(worlds[i], steps[i])
  }

  lemma {:induction false} RunsKeepInv(worlds: seq<World>, steps: seq<Step>, n: nat)
    requires IsRun(worlds, steps) && n < |worlds|
    ensures Inv(worlds[n])
  {
    if n == 0 {
      InitOk(worlds[0]);
    } else {
      RunsKeepInv(worlds, steps, n - 1);
      assert Enabled(worlds[n - 1], steps[n - 1]) && worlds[n - 1 + 1] == After(worlds[n - 1], steps[n - 1]);
      StepKeepsInv(worlds[n - 1], steps[n - 1]);
    }
  }

  /** At any time, no more than the allowed number of transfers is active, no two of them
      write the same local file, and a published socket is open and its own task's. */
  lemma TransfersAreLimited(worlds: seq<World>, steps: seq<Step>, n: nat)
    requires IsRun(worlds, steps) && n < |worlds|
    ensures var w := worlds[n];
      && w.manager.activeCount == |w.manager.active| <= w.manager.maxConcurrent && NoRepeats(w.manager.active)
      && (forall t, u, target :: LoadsTo(w, t, target) && LoadsTo(w, u, target) ==> t == u)
      && (forall t :: Published(w, t) ==>
            w.manager.tasks[t].socket.value in w.sockets && w.sockets[w.manager.tasks[t].socket.value] == t)
  {
    RunsKeepInv(worlds, steps, n);
    var w := worlds[n];
    forall t | Published(w, t)
      ensures w.manager.tasks[t].socket.value in w.sockets && w.sockets[w.manager.tasks[t].socket.value] == t
    {
      assert SocketOf(w, t) && Opened(w, t, w.manager.tasks[t].socket.value);
    }
  }

  /** Every task that was started reports exactly one event, when it is no longer active. */
  lemma OneEventPerTask(worlds: seq<World>, steps: seq<Step>, n: nat, t: nat)
    requires IsRun(worlds, steps) && n < |worlds| && t in worlds[n].started
    ensures t in worlds[n].manager.active <==> !HasReported(worlds[n], t)
    ensures forall i, j :: 0 <= i < j < |Reported(worlds[n])| ==>
      !(Reported(worlds[n])[i].task == t && Reported(worlds[n])[j].task == t)
  {
    RunsKeepInv(worlds, steps, n);
  }

  /** What is reported is true: success only of a transfer that succeeded, failure only of one
      that did not. */
  lemma ReportsAreTrue(worlds: seq<World>, steps: seq<Step>, n: nat, event: Event)
    requires IsRun(worlds, steps) && n < |worlds| && event in Reported(worlds[n])
    ensures event.outcome == Ok ==> Succeeded(worlds[n], event.task)
    ensures event.outcome == Failed ==> !Succeeded(worlds[n], event.task)
  {
    RunsKeepInv(worlds, steps, n);
    var i :| 0 <= i < |Reported(worlds[n])| && Reported(worlds[n])[i] == event;
    assert IsTrue(worlds[n], Reported(worlds[n])[i].task, Reported(worlds[n])[i].outcome);
  }

  lemma StepReports(w: World, step: Step)
    requires Enabled(w, step)
    ensures Reported(w) <= Reported(After(w, step)) && w.drained <= After(w, step).drained
  {
    assert step.Drain? ==> Reported(After(w, step)) == Reported(w);
    assert step.Finish? ==>
      Reported(After(w, step)) == Reported(w) + [Event(step.id, w.threads[step.id].outcome)];
  }

  /** Events are neither lost nor reordered, and none that was shown is taken back. */
  lemma {:induction false} ReportsOnlyGrow(worlds: seq<World>, steps: seq<Step>, m: nat, n: nat)
    requires IsRun(worlds, steps) && m <= n < |worlds|
    ensures Reported(worlds[m]) <= Reported(worlds[n]) && worlds[m].drained <= worlds[n].drained
    decreases n
  {
    hide Enabled, After, Reported;
    if m < n {
      ReportsOnlyGrow(worlds, steps, m, n - 1);
      assert Enabled(worlds[n - 1], steps[n - 1]) && worlds[n - 1 + 1] == After(worlds[n - 1], steps[n - 1]);
      StepReports(worlds[n - 1], steps[n - 1]);
    }
  }

  /** Draining shows every event reported so far, in order, and each only once. */
  lemma DrainShowsAll(worlds: seq<World>, steps: seq<Step>, m: nat, n: nat)
    requires IsRun(worlds, steps) && m < n < |worlds| && steps[m].Drain?
    ensures Reported(worlds[m]) == worlds[m + 1].drained <= worlds[n].drained
    ensures worlds[m + 1] == worlds[m].(
      manager := worlds[m].manager.(events := []), drained := worlds[m + 1].drained)
    ensures forall i, j :: 0 <= i < j < |worlds[n].drained| ==> worlds[n].drained[i].task != worlds[n].drained[j].task
  {
    hide ListOk, SocketsOk, StopOk, OutcomesOk;
    assert Enabled(worlds[m], steps[m]) && worlds[m + 1] == After(worlds[m], steps[m]);
    ReportsOnlyGrow(worlds, steps, m + 1, n);
    RunsKeepInv(worlds, steps, n);
    var w := worlds[n];
    assert forall i :: 0 <= i < |w.drained| ==> Reported(w)[i] == w.drained[i];
  }

  /** Only a stop cancels. */
  ghost predicate CancelsOk(w: World) {
    w.manager.stopping
    || ((forall t :: t in w.manager.tasks ==> !w.manager.tasks[t].canceled)
        && (forall t :: t in w.threads ==> w.threads[t] != Reporting(Canceled))
        && (forall e :: e in Reported(w) ==> e.outcome != Canceled))
  }

  lemma StepKeepsCancels(w: World, step: Step)
    requires CancelsOk(w) && Enabled(w, step)
    ensures CancelsOk(After(w, step))
  {
    var w' := After(w, step);
    assert step.Drain? ==> Reported(w') == Reported(w);
    assert step.Finish? ==> Reported(w') == Reported(w) + [Event(step.id, w.threads[step.id].outcome)];
  }

  lemma {:induction false} OnlyStopsCancel(worlds: seq<World>, steps: seq<Step>, n: nat)
    requires IsRun(worlds, steps) && n < |worlds|
    ensures CancelsOk(worlds[n])
  {
    hide Enabled, After, CancelsOk;
    if n == 0 {
      InitCancels(worlds[0]);
    } else {
      OnlyStopsCancel(worlds, steps, n - 1);
      assert Enabled(worlds[n - 1], steps[n - 1]) && worlds[n - 1 + 1] == After(worlds[n - 1], steps[n - 1]);
      StepKeepsCancels(worlds[n - 1], steps[n - 1]);
    }
  }

  lemma InitCancels(w: World)
    requires Init(w)
    ensures CancelsOk(w)
  {
  }

  /** Until a stop begins, a report says exactly how the transfer ended. */
  lemma ReportsAreExact(worlds: seq<World>, steps: seq<Step>, n: nat, event: Event)
    requires IsRun(worlds, steps) && n < |worlds| && event in Reported(worlds[n]) && !worlds[n].manager.stopping
    ensures event.outcome == if Succeeded(worlds[n], event.task) then Ok else Failed
  {
    hide Enabled, After;
    ReportsAreTrue(worlds, steps, n, event);
    OnlyStopsCancel(worlds, steps, n);
  }

  /** How a transfer ended is not changed afterwards. */
  lemma {:induction false} ResultIsKept(worlds: seq<World>, steps: seq<Step>, m: nat, n: nat, t: nat, ok: bool)
    requires IsRun(worlds, steps) && m < n < |worlds| && steps[m] == EndTransfer(t, ok)
    ensures t in worlds[n].results && worlds[n].results[t] == ok
    decreases n
  {
    hide ListOk, EventsOk, SocketsOk, StopOk;
    assert Enabled(worlds[n - 1], steps[n - 1]) && worlds[n - 1 + 1] == After(worlds[n - 1], steps[n - 1]);
    if m < n - 1 {
      ResultIsKept(worlds, steps, m, n - 1, t, ok);
      RunsKeepInv(worlds, steps, n - 1);
      assert steps[n - 1].EndTransfer? ==> ThreadIsTrue(worlds[n - 1], steps[n - 1].id);
    }
  }

  /** A transfer starts exactly if no stop has begun, fewer than the limit are active, none of
      them loads the same file, and its thread can be created. Otherwise nothing changes. */
  lemma StartsIff(worlds: seq<World>, steps: seq<Step>, n: nat)
    requires IsRun(worlds, steps) && n < |steps| && steps[n].Start?
    ensures var w, w', step := worlds[n], worlds[n + 1], steps[n];
      var starts := w.stopper.NotStopping? && |w.threads| < w.manager.maxConcurrent && step.thread
        && (step.kind == Download ==> forall t :: !LoadsTo(w, t, step.target));
      && (!starts ==> w' == w)
      && (starts ==>
            && w'.manager.active == [step.id] + w.manager.active && step.id !in w.threads
            && w'.threads == w.threads[step.id := Connecting]
            && w'.manager.tasks == w.manager.tasks[step.id := Task(step.kind, step.target, false, None)])
  {
    hide SocketsOk, OutcomesOk;
    RunsKeepInv(worlds, steps, n);
    assert Enabled(worlds[n], steps[n]) && worlds[n + 1] == After(worlds[n], steps[n]);
    var w := worlds[n];
    ActiveCountIs(w);
    var target := steps[n].target;
    forall t | LoadsTo(w, t, target) ensures TargetTaken(w.manager, target) {
      assert t in w.manager.active;
    }
    if TargetTaken(w.manager, target) {
      var t :| t in w.manager.active && t in w.manager.tasks && w.manager.tasks[t].kind == Download
        && w.manager.tasks[t].target == target;
      assert LoadsTo(w, t, target);
    }
  }

  lemma ActiveCountIs(w: World)
    requires ListOk(w)
    ensures |w.threads| == w.manager.activeCount
  {
    MembersCount(w.manager.active);
    assert w.threads.Keys == Members(w.manager.active);
  }

  ghost function Members(list: seq<nat>): set<nat> {
    set t | t in list
  }

  lemma {:induction false} MembersCount(list: seq<nat>)
    requires NoRepeats(list)
    ensures |Members(list)| == |list|
  {
    if list == [] {
      assert Members(list) == {};
    } else {
      var front, last := list[..|list| - 1], list[|list| - 1];
      MembersCount(front);
      assert list == front + [last] && last !in Members(front);
      assert Members(list) == Members(front) + {last};
    }
  }

  /** The steps of the script can be taken one after the other, and lead to `w'`. */
  ghost predicate Leads(w: World, script: seq<Step>, w': World)
    decreases |script|
  {
    if script == [] then w' == w
    else Enabled(w, script[0]) && Leads(After(w, script[0]), script[1..], w')
  }

  lemma First(w: World, step: Step, rest: seq<Step>, w': World)
    requires Enabled(w, step) && Leads(After(w, step), rest, w')
    ensures Leads(w, [step] + rest, w')
  {
    assert ([step] + rest)[1..] == rest;
  }

  /** A transfer that has started and is not canceled can run: it gets a socket and publishes it,
      and nothing else is different. */
  lemma TransfersRun(w: World, id: nat, fd: nat)
    requires At(w, id, Connecting) && fd !in w.sockets && !w.manager.tasks[id].canceled
    ensures Leads(w, [Connect(id, fd)] + ([PublishSocket(id)] + []), w.(
      sockets := w.sockets[fd := id], threads := w.threads[id := Transferring],
      manager := w.manager.(tasks := w.manager.tasks[id := w.manager.tasks[id].(socket := Some(fd))])))
  {
    hide Leads;
    var w1 := After(w, Connect(id, fd));
    var w2 := After(w1, PublishSocket(id));
    assert w2.threads == w.threads[id := Transferring];
    NoMore(w2);
    First(w1, PublishSocket(id), [], w2);
    First(w, Connect(id, fd), [PublishSocket(id)] + [], w2);
  }

  lemma NoMore(w: World)
    ensures Leads(w, [], w)
  {
  }

  /** One that is over can take its socket back and close it. */
  lemma TransfersClose(w: World, id: nat, fd: int, ok: bool)
    requires At(w, id, Transferring) && w.manager.tasks[id].socket == Some(fd)
    ensures Leads(w, [EndTransfer(id, ok)] + ([TakeSocket(id)] + ([CloseSocket(id)] + [])), w.(
      sockets := w.sockets - {fd}, shut := w.shut - {fd}, results := w.results[id := ok],
      threads := w.threads[id := Closed(ok)],
      manager := w.manager.(tasks := w.manager.tasks[id := w.manager.tasks[id].(socket := None)])))
  {
    hide Leads;
    var w1 := After(w, EndTransfer(id, ok));
    var w2 := After(w1, TakeSocket(id));
    var w3 := After(w2, CloseSocket(id));
    assert w3.threads == w.threads[id := Closed(ok)];
    NoMore(w3);
    First(w2, CloseSocket(id), [], w3);
    First(w1, TakeSocket(id), [CloseSocket(id)] + [], w3);
    First(w, EndTransfer(id, ok), [TakeSocket(id)] + ([CloseSocket(id)] + []), w3);
  }

  /** And then it reports how it ended, or that it was canceled, and leaves. */
  lemma TransfersLeave(w: World, id: nat, ok: bool)
    requires ListOk(w) && At(w, id, Closed(ok))
    ensures var outcome := if w.manager.tasks[id].canceled then Canceled else if ok then Ok else Failed;
      Leads(w, [Decide(id)] + ([Finish(id)] + []), w.(
        threads := w.threads - {id},
        stopper := if w.stopper.Asleep? && |w.manager.active| == 1 then Checking else w.stopper,
        manager := w.manager.(active := Minus(w.manager.active, id), activeCount := |w.manager.active| - 1,
                              tasks := w.manager.tasks - {id}, events := w.manager.events + [Event(id, outcome)])))
  {
    hide Leads, Minus;
    var w1 := After(w, Decide(id));
    var w2 := After(w1, Finish(id));
    assert w2.threads == w.threads - {id};
    assert id in w.manager.active;
    NoMore(w2);
    First(w1, Finish(id), [], w2);
    First(w, Decide(id), [Finish(id)] + [], w2);
  }

  /** The task will report, or has reported, that it was canceled. */
  ghost predicate Doomed(w: World, t: nat) {
    && w.manager.stopping
    && if t in w.threads then w.threads[t].Reporting? ==> w.threads[t].outcome == Canceled
       else Event(t, Canceled) in Reported(w)
  }

  lemma StepKeepsDoomed(w: World, step: Step, t: nat)
    requires ListOk(w) && StopOk(w) && Enabled(w, step) && Doomed(w, t)
    ensures Doomed(After(w, step), t)
  {
    var w' := After(w, step);
    if step.Decide? {
      assert ReachedByStop(w, w.manager.tasks[step.id]);
    } else if step.Finish? {
      var event := Event(step.id, w.threads[step.id].outcome);
      assert Reported(w') == Reported(w) + [event];
      assert event in Reported(w');
    } else if step.Drain? {
      assert Reported(w') == Reported(w);
    }
  }

  /** Once a stop has begun, every transfer that has not yet come to its outcome reports that
      it was canceled. */
  lemma {:induction false} StoppedReportCanceled(worlds: seq<World>, steps: seq<Step>, k: nat, n: nat, t: nat)
    requires IsRun(worlds, steps) && k <= n < |worlds| && worlds[k].manager.stopping
    requires t in worlds[k].threads && !worlds[k].threads[t].Reporting?
    ensures Doomed(worlds[n], t)
    decreases n
  {
    hide Enabled, After, ListOk, EventsOk, SocketsOk, StopOk, OutcomesOk;
    if k < n {
      StoppedReportCanceled(worlds, steps, k, n - 1, t);
      RunsKeepInv(worlds, steps, n - 1);
      assert Enabled(worlds[n - 1], steps[n - 1]) && worlds[n - 1 + 1] == After(worlds[n - 1], steps[n - 1]);
      StepKeepsDoomed(worlds[n - 1], steps[n - 1], t);
    }
  }

  /** A stop reaches every transfer: those that are active are canceled and cut off. When it
      returns, none is active, and from then on none can start. */
  lemma StopIsFinal(worlds: seq<World>, steps: seq<Step>, n: nat)
    requires IsRun(worlds, steps) && n < |worlds| && worlds[n].manager.stopping
    ensures var w := worlds[n];
      && (forall t :: t in w.manager.active ==>
            t in w.manager.tasks && w.manager.tasks[t].canceled
            && (w.manager.tasks[t].socket.Some? ==> w.manager.tasks[t].socket.value in w.shut))
      && (forall kind, target :: !MayStart(w.manager, kind, target))
      && (w.stopper.Returned? ==> w.manager.active == [] && w.sockets == map[])
      && (w.stopper.Asleep? ==> w.manager.activeCount > 0)
  {
    RunsKeepInv(worlds, steps, n);
    var w := worlds[n];
    forall t | t in w.manager.active ensures t in w.manager.tasks && ReachedByStop(w, w.manager.tasks[t]) {
    }
    if w.stopper.Returned? {
      assert forall t :: t !in w.threads;
      forall fd | fd in w.sockets ensures w.sockets[fd] in w.threads {
        assert SocketOf(w, w.sockets[fd]) && Opened(w, w.sockets[fd], fd);
      }
    }
  }

  /** How many steps a thread has yet to take. */
  function StepsLeft(thread: Thread): nat {
    match thread
    case Connecting => 7
    case Connected(_) => 6
    case Transferring => 5
    case Ended(_) => 4
    case Releasing(_, _) => 3
    case Closed(_) => 2
    case Reporting(_) => 1
  }

  function Work(active: seq<nat>, threads: map<nat, Thread>): nat {
    if active == [] then 0
    else (if active[0] in threads then StepsLeft(threads[active[0]]) else 0) + Work(active[1..], threads)
  }

  function WorkLeft(w: World): nat {
    Work(w.manager.active, w.threads)
  }

  lemma {:induction false} WorkMoves(active: seq<nat>, threads: map<nat, Thread>, id: nat, thread: Thread)
    requires NoRepeats(active) && id in threads
    ensures Work(active, threads[id := thread]) ==
      Work(active, threads) + (if id in active then StepsLeft(thread) - StepsLeft(threads[id]) else 0)
  {
    if active != [] {
      WorkMoves(active[1..], threads, id, thread);
    }
  }

  lemma {:induction false} WorkWithout(active: seq<nat>, threads: map<nat, Thread>, k: nat)
    requires k < |active| && active[k] in threads
    ensures Work(Without(active, k), threads) == Work(active, threads) - StepsLeft(threads[active[k]])
  {
    if k == 0 {
      assert Without(active, 0) == active[1..];
    } else {
      assert Without(active, k)[0] == active[0] && Without(active, k)[1..] == Without(active[1..], k - 1);
      WorkWithout(active[1..], threads, k - 1);
    }
  }

  lemma {:induction false} WorkOnlyOf(active: seq<nat>, threads: map<nat, Thread>, threads': map<nat, Thread>)
    requires forall t :: t in active ==>
      (t in threads <==> t in threads') && (t in threads ==> threads[t] == threads'[t])
    ensures Work(active, threads) == Work(active, threads')
  {
    if active != [] {
      assert forall t :: t in active[1..] ==> t in active;
      WorkOnlyOf(active[1..], threads, threads');
    }
  }

  predicate ByThread(step: Step) {
    !(step.Start? || step.BeginStop? || step.StopLooks? || step.StopWakes? || step.Drain?)
  }

  lemma WorkEnds(active: seq<nat>, threads: map<nat, Thread>, id: nat)
    requires NoRepeats(active) && id in active && id in threads
    ensures Work(Minus(active, id), threads - {id}) < Work(active, threads)
  {
    var k := IndexOf(active, id);
    WithoutMembers(active, k);
    WorkWithout(active, threads, k);
    WorkOnlyOf(Without(active, k), threads, threads - {id});
  }

  lemma ThreadMoves(w: World, step: Step)
    requires Enabled(w, step) && ByThread(step) && !step.Finish?
    ensures var w' := After(w, step);
      && w'.manager.active == w.manager.active && step.id in w.threads && step.id in w'.threads
      && w'.threads == w.threads[step.id := w'.threads[step.id]]
      && StepsLeft(w'.threads[step.id]) < StepsLeft(w.threads[step.id])
  {
  }

  lemma StepIsProgress(w: World, step: Step)
    requires Enabled(w, step) && ByThread(step)
    requires NoRepeats(w.manager.active) && forall t :: t in w.threads ==> t in w.manager.active
    ensures WorkLeft(After(w, step)) < WorkLeft(w)
  {
    if step.Finish? {
      WorkEnds(w.manager.active, w.threads, step.id);
    } else {
      ThreadMoves(w, step);
      WorkMoves(w.manager.active, w.threads, step.id, After(w, step).threads[step.id]);
    }
  }

  /** Once stopping, the other steps leave the threads and the list alone. */
  lemma OtherStepsWait(w: World, step: Step)
    requires Enabled(w, step) && w.manager.stopping
    ensures After(w, step).manager.stopping
    ensures !ByThread(step) ==> WorkLeft(After(w, step)) == WorkLeft(w)
  {
  }

  ghost function ThreadStep(w: World, t: nat): (step: Step)
    requires ListOk(w) && t in w.manager.active
    ensures ByThread(step) && Enabled(w, step)
  {
    match w.threads[t]
    case Connecting => ConnectFails(t)
    case Connected(_) => PublishSocket(t)
    case Transferring => EndTransfer(t, false)
    case Ended(_) => TakeSocket(t)
    case Releasing(_, _) => CloseSocket(t)
    case Closed(_) => Decide(t)
    case Reporting(_) => Finish(t)
  }

  function ThreadStepsIn(steps: seq<Step>): nat {
    if steps == [] then 0
    else ThreadStepsIn(steps[..|steps| - 1]) + if ByThread(steps[|steps| - 1]) then 1 else 0
  }

  /** A stop always comes to an end: from the moment it begins, in every run, the threads
      take no more steps in all than they had left, and as long as it has not returned, a
      thread or the stop itself can go on. */
  lemma {:induction false} StopReturns(worlds: seq<World>, steps: seq<Step>, k: nat, n: nat)
    requires IsRun(worlds, steps) && k <= n < |worlds| && worlds[k].manager.stopping
    ensures worlds[n].manager.stopping
    ensures ThreadStepsIn(steps[k..n]) + WorkLeft(worlds[n]) <= WorkLeft(worlds[k])
    ensures !worlds[n].stopper.Returned? ==>
      exists step :: Enabled(worlds[n], step) && (ByThread(step) || step.StopLooks?)
    decreases n
  {
    hide Enabled, After, WorkLeft, EventsOk, SocketsOk, StopOk;
    RunsKeepInv(worlds, steps, n);
    if k == n {
      assert steps[k..n] == [];
    } else {
      StopReturns(worlds, steps, k, n - 1);
      RunsKeepInv(worlds, steps, n - 1);
      assert Enabled(worlds[n - 1], steps[n - 1]) && worlds[n - 1 + 1] == After(worlds[n - 1], steps[n - 1]);
      OtherStepsWait(worlds[n - 1], steps[n - 1]);
      if ByThread(steps[n - 1]) {
        StepIsProgress(worlds[n - 1], steps[n - 1]);
      }
      assert steps[k..n][..n - k - 1] == steps[k..n - 1];
    }
    SomeoneGoesOn(worlds[n]);
  }

  lemma SomeoneGoesOn(w: World)
    requires Inv(w) && w.manager.stopping
    ensures !w.stopper.Returned? ==> exists step :: Enabled(w, step) && (ByThread(step) || step.StopLooks?)
  {
    if w.stopper.Checking? {
      assert Enabled(w, StopLooks);
    } else if w.stopper.Asleep? {
      var step := ThreadStep(w, w.manager.active[0]);
      assert Enabled(w, step) && ByThread(step);
    }
  }
}

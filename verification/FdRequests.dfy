/** What the steps of `FdOwnership` achieve: how an fd passes from hand to hand, that a request
    reaches its worker and its connection comes back, and that a batch of events is worked off. */
module FdRequests {
  import opened Basics
  import Sessions = SessionSpec
  import opened FdOwnership

  /** Whose an fd is. */
  datatype Status =
    | Free
    | Idle(serial: nat)                   // watched by epoll and tracked by the wheel
    | InLoop(serial: nat)
    | AtWorker(serial: nat, job: nat)

  ghost function StatusOf(s: State, fd: int): Status {
    if fd !in s.open then Free
    else if Held(s) == Some(fd) then InLoop(s.open[fd])
    else if job :| job in s.jobs && s.jobs[job].fd == fd then AtWorker(s.open[fd], job)
    else Idle(s.open[fd])
  }

  /** What the words mean. */
  lemma StatusMeans(s: State, fd: int)
    requires Inv(s)
    ensures StatusOf(s, fd).Idle? <==>
      fd in s.epoll && fd in s.wheel && Held(s) != Some(fd) && !OwnedByJob(s, fd)
    ensures StatusOf(s, fd).Idle? ==> s.wheel[fd] == s.open[fd] == StatusOf(s, fd).serial
    ensures forall job :: job in s.jobs && s.jobs[job].fd == fd ==>
      StatusOf(s, fd) == AtWorker(s.jobs[job].serial, job) && fd !in s.epoll && fd !in s.wheel
    ensures StatusOf(s, fd).Free? ==> fd !in s.epoll && fd !in s.wheel && fd !in s.table.bindings
  {
    hide LoopOk, PendingOk;
    assert FdOk(s, fd);
    forall job | job in s.jobs && s.jobs[job].fd == fd
      ensures StatusOf(s, fd) == AtWorker(s.jobs[job].serial, job) && fd !in s.epoll && fd !in s.wheel
    {
      assert JobOk(s, s.jobs[job]);
    }
  }

  /** The small machine: which fd a step passes on, if any, and to whom. */
  ghost function Passes(s: State, step: Step): Option<(int, Status)>
    requires Enabled(s, step)
  {
    match step
    case Accept(fd) => Some((fd, InLoop(s.nextSerial)))
    case Track(ok) => if ok then Some((s.loop.fd, Idle(s.loop.serial))) else None
    case DropClient => Some(Taken(s.loop.todo.events[0]))
    case AdmitAnonymous => Some(Taken(s.loop.todo.events[0]))
    case AdmitAuthorized(_, _, _) => Some(Taken(s.loop.todo.events[0]))
    case Enqueue(ok) => if ok then Some((s.loop.fd, AtWorker(s.loop.serial, s.nextJob))) else None
    case CloseStep => if s.loop.phase == 3 then Some((s.loop.fd, Free)) else None
    case Expire(fd) => Some((fd, InLoop(s.wheel[fd])))
    case ExpireStep => if s.loop.phase == 2 then Some((s.loop.fd, Free)) else None
    case Republish(job, ok) => if ok then Some((s.jobs[job].fd, Idle(s.jobs[job].serial))) else None
    case WorkerClose(job) => Some((s.jobs[job].fd, Free))
    case _ => None
  }

  function Taken(e: Event): (int, Status)
    requires e.Client?
  {
    (e.fd, InLoop(e.serial))
  }

  predicate Has(s: State, job: nat, fd: int) {
    job in s.jobs && s.jobs[job].fd == fd
  }

  /** Nothing that decides whose `fd` is has changed. */
  ghost predicate SameHands(s: State, s': State, fd: int) {
    && (fd in s'.open <==> fd in s.open) && (fd in s.open ==> s'.open[fd] == s.open[fd])
    && (Held(s') == Some(fd) <==> Held(s) == Some(fd))
    && (forall job :: Has(s', job, fd) <==> Has(s, job, fd))
  }

  lemma StatusStays(s: State, s': State, fd: int)
    requires JobsOk(s) && SameHands(s, s', fd)
    ensures StatusOf(s', fd) == StatusOf(s, fd)
  {
    hide JobOk;
    assert forall job :: Has(s, job, fd) <==> job in s.jobs && s.jobs[job].fd == fd;
    assert forall job :: Has(s', job, fd) <==> job in s'.jobs && s'.jobs[job].fd == fd;
  }

  lemma StatusAtWorker(s: State, fd: int, job: nat)
    requires JobsOk(s) && Has(s, job, fd)
    ensures StatusOf(s, fd) == AtWorker(s.jobs[job].serial, job)
  {
    assert JobOk(s, s.jobs[job]);
  }

  predicate ByWorker(step: Step) {
    step.Login? || step.ChangeDirectory? || step.Republish? || step.FinishTransfer? || step.WorkerDetach?
    || step.WorkerClose?
  }

  lemma LoopLeavesOthers(s: State, step: Step, fd: int)
    requires LoopOk(s) && Enabled(s, step) && !ByWorker(step)
    requires Passes(s, step).Some? ==> Passes(s, step).value.0 != fd
    ensures var s' := After(s, step);
      (fd in s'.open <==> fd in s.open) && (fd in s.open ==> s'.open[fd] == s.open[fd])
  {
    hide Current, DistinctClients, Sessions.Authorize, Sessions.Detach, Held;
  }

  lemma LoopHoldsNoOther(s: State, step: Step, fd: int)
    requires LoopOk(s) && Enabled(s, step) && !ByWorker(step)
    requires Passes(s, step).Some? ==> Passes(s, step).value.0 != fd
    ensures Held(After(s, step)) == Some(fd) <==> Held(s) == Some(fd)
  {
    hide Current, DistinctClients, Sessions.Authorize, Sessions.Detach;
  }

  lemma LoopLeavesJobs(s: State, step: Step, job: nat, fd: int)
    requires Enabled(s, step) && !ByWorker(step) && (step == Enqueue(true) ==> s.loop.fd != fd) && job < s.nextJob
    ensures Has(After(s, step), job, fd) <==> Has(s, job, fd)
  {
    hide Current, DistinctClients, Sessions.Authorize, Sessions.Detach;
  }

  lemma NoLaterJob(s: State, step: Step, job: nat, fd: int)
    requires JobsOk(s) && Enabled(s, step) && !ByWorker(step) && (step == Enqueue(true) ==> s.loop.fd != fd)
    requires job >= s.nextJob
    ensures !Has(After(s, step), job, fd) && !Has(s, job, fd)
  {
    hide Current, DistinctClients, Sessions.Authorize, Sessions.Detach, JobOk;
  }

  lemma WorkerLeavesOthers(s: State, step: Step, fd: int)
    requires Enabled(s, step) && ByWorker(step)
    requires Passes(s, step).Some? ==> Passes(s, step).value.0 != fd
    ensures SameHands(s, After(s, step), fd)
  {
    hide Sessions.Create, Sessions.UpdateCwd, Sessions.Detach;
  }

  lemma OthersStay(s: State, step: Step, fd: int)
    requires Inv(s) && Enabled(s, step)
    requires Passes(s, step).Some? ==> Passes(s, step).value.0 != fd
    ensures SameHands(s, After(s, step), fd)
  {
    hide Enabled, After, FdsOk, JobsOk, PendingOk, LoopOk, Sessions.Table.Ok;
    if ByWorker(step) {
      WorkerLeavesOthers(s, step, fd);
    } else {
      LoopLeavesOthers(s, step, fd);
      LoopHoldsNoOther(s, step, fd);
      forall job: nat ensures Has(After(s, step), job, fd) <==> Has(s, job, fd) {
        if job < s.nextJob {
          LoopLeavesJobs(s, step, job, fd);
        } else {
          NoLaterJob(s, step, job, fd);
        }
      }
    }
  }

  /** An fd in the event loop's hands after a step, or closed by it. */
  lemma LoopTakes(s: State, step: Step)
    requires Inv(s) && Enabled(s, step) && !step.Track? && !step.Enqueue? && !ByWorker(step) && Passes(s, step).Some?
    ensures StatusOf(After(s, step), Passes(s, step).value.0) == Passes(s, step).value.1
  {
    hide Sessions.Authorize, Sessions.Detach, Sessions.Table.Ok, JobsOk;
    if NextIsClient(s) {
      assert s.loop.todo.events[0] in Pending(s.loop);
    }
    assert step.Expire? ==> FdOk(s, step.fd);
  }

  lemma LoopHandsOver(s: State, step: Step)
    requires Inv(s) && Enabled(s, step) && (step.Track? || step.Enqueue?) && step.ok
    ensures StatusOf(After(s, step), Passes(s, step).value.0) == Passes(s, step).value.1
  {
    var s' := After(s, step);
    if step.Enqueue? {
      EnqueueKeepsInv(s, true);
      assert Has(s', s.nextJob, s.loop.fd);
      StatusAtWorker(s', s.loop.fd, s.nextJob);
    } else {
      forall job | job in s'.jobs ensures s'.jobs[job].fd != s.loop.fd {
        assert JobOk(s, s.jobs[job]);
      }
    }
  }

  lemma WorkerHandsOver(s: State, step: Step)
    requires Inv(s) && Enabled(s, step) && ByWorker(step) && Passes(s, step).Some?
    ensures StatusOf(After(s, step), Passes(s, step).value.0) == Passes(s, step).value.1
  {
    hide Sessions.Create, Sessions.UpdateCwd, Sessions.Detach, Sessions.Table.Ok;
    assert JobOk(s, s.jobs[step.job]);
  }

  lemma PassesOnlyIfOk(s: State, step: Step)
    requires Enabled(s, step) && (step.Track? || step.Enqueue?) && Passes(s, step).Some?
    ensures step.ok
  {
  }

  /** Every step of event loop or worker passes on the fd it is about as the small machine says,
      and leaves every other fd where it is. */
  lemma StepPasses(s: State, step: Step, fd: int)
    requires Inv(s) && Enabled(s, step)
    ensures StatusOf(After(s, step), fd) ==
      if Passes(s, step).Some? && Passes(s, step).value.0 == fd then Passes(s, step).value.1 else StatusOf(s, fd)
  {
    hide After, StatusOf, Passes, SameHands, Enabled;
    if Passes(s, step).Some? && Passes(s, step).value.0 == fd {
      if ByWorker(step) {
        WorkerHandsOver(s, step);
      } else if step.Track? || step.Enqueue? {
        PassesOnlyIfOk(s, step);
        LoopHandsOver(s, step);
      } else {
        LoopTakes(s, step);
      }
    } else {
      OthersStay(s, step, fd);
      StatusStays(s, After(s, step), fd);
    }
  }

  /** The same over every run. */
  lemma RunPasses(states: seq<State>, steps: seq<Step>, n: nat, fd: int)
    requires IsRun(states, steps) && n < |steps|
    ensures Enabled(states[n], steps[n])
    ensures StatusOf(states[n + 1], fd) ==
      if Passes(states[n], steps[n]).Some? && Passes(states[n], steps[n]).value.0 == fd
      then Passes(states[n], steps[n]).value.1 else StatusOf(states[n], fd)
  {
    hide Inv, Enabled, StatusOf, Passes, After;
    RunsKeepInv(states, steps, n);
    assert Enabled(states[n], steps[n]) && states[n + 1] == After(states[n], steps[n]);
    StepPasses(states[n], steps[n], fd);
  }

  /** What the event loop carries along with the fd of a request it has admitted. */
  datatype Request = Request(fd: int, serial: nat, kind: Kind, session: Option<Sessions.SessionId>, todo: Todo)

  predicate InDispatch(loop: Loop) {
    loop.Admitted? || loop.Untracked? || loop.Unwatched?
  }

  function RequestOf(loop: Loop): Request
    requires InDispatch(loop)
  {
    Request(loop.fd, loop.serial, loop.kind, loop.session, loop.todo)
  }

  /** The request of an admission. */
  function Admission(e: Event, step: Step, todo: Todo): Request
    requires e.Client?
  {
    if step.AdmitAuthorized? then Request(e.fd, e.serial, step.kind, Some(step.id), todo)
    else Request(e.fd, e.serial, Basic, None, todo)
  }

  predicate Admits(step: Step) {
    step.AdmitAnonymous? || step.AdmitAuthorized?
  }

  lemma AdmissionIs(s: State, step: Step)
    requires Enabled(s, step) && Admits(step)
    ensures var s' := After(s, step);
      InDispatch(s'.loop) && RequestOf(s'.loop) == Admission(s.loop.todo.events[0], step, Rest(s.loop.todo))
  {
  }

  lemma DispatchGoesOn(s: State, step: Step)
    requires Enabled(s, step) && InDispatch(s.loop) && InDispatch(After(s, step).loop)
    ensures RequestOf(After(s, step).loop) == RequestOf(s.loop)
  {
  }

  /** From its admission on, the event loop is with this request, whatever workers do. */
  lemma {:induction false} RequestStays(states: seq<State>, steps: seq<Step>, m: nat, n: nat)
    requires IsRun(states, steps) && m < n < |states| && Admits(steps[m])
    requires forall i :: m < i <= n ==> InDispatch(states[i].loop)
    ensures NextIsClient(states[m])
    ensures RequestOf(states[n].loop) ==
      Admission(states[m].loop.todo.events[0], steps[m], Rest(states[m].loop.todo))
    decreases n
  {
    hide After, Enabled, RequestOf, Admission;
    assert Enabled(states[n - 1], steps[n - 1])
      && states[n - 1 + 1] == After(states[n - 1], steps[n - 1]);
    assert Enabled(states[m], steps[m]);
    AdmittedIsNext(states[m], steps[m]);
    if m == n - 1 {
      AdmissionIs(states[m], steps[m]);
    } else {
      RequestStays(states, steps, m, n - 1);
      DispatchGoesOn(states[n - 1], steps[n - 1]);
    }
  }

  lemma AdmittedIsNext(s: State, step: Step)
    requires Enabled(s, step) && Admits(step)
    ensures NextIsClient(s)
  {
  }

  /** A request that is queued is queued as it was admitted: for the connection of its event, of
      the kind and in the session that were checked. The batch goes on with the next event. */
  lemma RequestReachesWorker(states: seq<State>, steps: seq<Step>, m: nat, n: nat)
    requires IsRun(states, steps) && m < n < |steps| && Admits(steps[m]) && steps[n] == Enqueue(true)
    requires forall i :: m < i <= n ==> InDispatch(states[i].loop)
    ensures NextIsClient(states[m])
    ensures var e, todo := states[m].loop.todo.events[0], states[m].loop.todo;
      var request, job := Admission(e, steps[m], Rest(todo)), states[n].nextJob;
      && job !in states[n].jobs
      && states[n + 1].jobs == states[n].jobs[job := Job(e.fd, e.serial, request.kind, request.session, Working)]
      && states[n + 1].loop == Batch(Rest(todo))
  {
    hide Inv;
    RequestStays(states, steps, m, n);
    RunsKeepInv(states, steps, n);
    EnqueueIs(states[n], states[n + 1]);
    assert Enabled(states[n], steps[n]) && states[n + 1] == After(states[n], steps[n]);
    NewJobIsNew(states[n]);
  }

  lemma EnqueueIs(s: State, s': State)
    requires Enabled(s, Enqueue(true)) && s' == After(s, Enqueue(true))
    ensures InDispatch(s.loop) && var r := RequestOf(s.loop);
      && s'.jobs == s.jobs[s.nextJob := Job(r.fd, r.serial, r.kind, r.session, Working)] && s'.loop == Batch(r.todo)
  {
  }

  lemma NewJobIsNew(s: State)
    requires Inv(s)
    ensures s.nextJob !in s.jobs
  {
  }

  /** A job stays what it is as long as it is there, and ids do not come back. */
  lemma {:induction false} JobLasts(states: seq<State>, steps: seq<Step>, m: nat, n: nat, job: nat)
    requires IsRun(states, steps) && m <= n < |states| && job < states[m].nextJob && job in states[n].jobs
    ensures job in states[m].jobs && states[m].nextJob <= states[n].nextJob
    ensures states[n].jobs[job] == states[m].jobs[job].(phase := states[n].jobs[job].phase)
    decreases n
  {
    hide After, Enabled;
    if m < n {
      assert Enabled(states[n - 1], steps[n - 1])
        && states[n - 1 + 1] == After(states[n - 1], steps[n - 1]);
      NextJobGrows(states, steps, m, n - 1);
      JobStays(states[n - 1], steps[n - 1], job);
      JobLasts(states, steps, m, n - 1, job);
    }
  }

  lemma JobStays(s: State, step: Step, job: nat)
    requires Enabled(s, step)
    ensures s.nextJob <= After(s, step).nextJob
    ensures job < s.nextJob && job in After(s, step).jobs ==>
      job in s.jobs && After(s, step).jobs[job] == s.jobs[job].(phase := After(s, step).jobs[job].phase)
  {
    hide After, Enabled;
    if ByWorker(step) {
      WorkerKeepsJob(s, step, job);
    } else {
      LoopKeepsJob(s, step, job);
    }
  }

  lemma WorkerKeepsJob(s: State, step: Step, job: nat)
    requires Enabled(s, step) && ByWorker(step)
    ensures s.nextJob == After(s, step).nextJob
    ensures job in After(s, step).jobs ==>
      job in s.jobs && After(s, step).jobs[job] == s.jobs[job].(phase := After(s, step).jobs[job].phase)
  {
    hide Sessions.Detach, Sessions.Create, Sessions.UpdateCwd;
  }

  lemma LoopKeepsJob(s: State, step: Step, job: nat)
    requires Enabled(s, step) && !ByWorker(step)
    ensures s.nextJob <= After(s, step).nextJob
    ensures job < s.nextJob && job in After(s, step).jobs ==> job in s.jobs && After(s, step).jobs[job] == s.jobs[job]
  {
    if !step.Enqueue? {
      hide After, Enabled;
      LoopTouchesNoJob(s, step);
    }
  }

  lemma LoopTouchesNoJob(s: State, step: Step)
    requires Enabled(s, step) && !ByWorker(step) && !step.Enqueue?
    ensures After(s, step).jobs == s.jobs && After(s, step).nextJob == s.nextJob
  {
    hide Sessions.Authorize, Sessions.Detach, Current, DistinctClients, Rest, Rebound;
  }

  lemma {:induction false} NextJobGrows(states: seq<State>, steps: seq<Step>, m: nat, n: nat)
    requires IsRun(states, steps) && m <= n < |states|
    ensures states[m].nextJob <= states[n].nextJob
    decreases n
  {
    hide After, Enabled;
    if m < n {
      assert Enabled(states[n - 1], steps[n - 1])
        && states[n - 1 + 1] == After(states[n - 1], steps[n - 1]);
      NextJobGrows(states, steps, m, n - 1);
      JobStays(states[n - 1], steps[n - 1], 0);
    }
  }

  /** A control connection comes back: once its request is done and republished, however much
      later, epoll watches it and the wheel tracks it again, it is the same connection, still
      in the session that was checked, and no worker has it. */
  lemma ConnectionComesBack(states: seq<State>, steps: seq<Step>, m: nat, n: nat, k: nat)
    requires IsRun(states, steps) && m < n < k < |steps| && Admits(steps[m]) && steps[n] == Enqueue(true)
    requires forall i :: m < i <= n ==> InDispatch(states[i].loop)
    requires steps[k] == Republish(states[n].nextJob, true)
    ensures NextIsClient(states[m])
    ensures var e, s := states[m].loop.todo.events[0], states[k + 1];
      && StatusOf(s, e.fd) == Idle(e.serial) && e.fd in s.epoll && e.fd in s.wheel && s.wheel[e.fd] == e.serial
      && e.fd in s.open && s.open[e.fd] == e.serial && states[n].nextJob !in s.jobs
      && (steps[m].AdmitAuthorized? ==> e.fd in s.table.bindings && s.table.bindings[e.fd] == steps[m].id)
  {
    hide Inv, StatusOf, Passes;
    RequestReachesWorker(states, steps, m, n);
    var job, e := states[n].nextJob, states[m].loop.todo.events[0];
    RepublishIs(states, steps, k, job);
    assert Enabled(states[n], steps[n]) && states[n + 1] == After(states[n], steps[n]);
    JobLasts(states, steps, n + 1, k, job);
  }

  lemma RepublishIs(states: seq<State>, steps: seq<Step>, k: nat, job: nat)
    requires IsRun(states, steps) && k < |steps| && steps[k] == Republish(job, true)
    ensures job in states[k].jobs
    ensures var j, s := states[k].jobs[job], states[k + 1];
      && StatusOf(s, j.fd) == Idle(j.serial) && j.fd in s.epoll && j.fd in s.wheel && s.wheel[j.fd] == j.serial
      && j.fd in s.open && s.open[j.fd] == j.serial && job !in s.jobs
      && s.table == states[k].table && SessionHeld(s, j.fd, j.session)
  {
    hide StatusOf;
    RunsKeepInv(states, steps, k);
    assert Enabled(states[k], steps[k]) && states[k + 1] == After(states[k], steps[k]);
    RunPasses(states, steps, k, states[k].jobs[job].fd);
    assert JobOk(states[k], states[k].jobs[job]);
  }

  /** How many steps the event loop has left for what it holds and for the rest of its batch. */
  function Work(loop: Loop): nat {
    match loop
    case Waiting => 0
    case Batch(todo) => 8 * |todo.events|
    case Accepted(_, _, todo) => 8 * |todo.events| + 6
    case Watched(_, _, todo) => 8 * |todo.events| + 5
    case Admitted(_, _, _, _, todo) => 8 * |todo.events| + 7
    case Untracked(_, _, _, _, todo) => 8 * |todo.events| + 6
    case Unwatched(_, _, _, _, todo) => 8 * |todo.events| + 5
    case Closing(_, _, phase, _, todo) => 8 * |todo.events| + if phase < 4 then 4 - phase else 0
    case Sweeping(_) => 0
    case Expired(_, _, phase, _) => if phase < 3 then 3 - phase else 0
  }

  predicate InBatch(loop: Loop) {
    !loop.Waiting? && !loop.Sweeping? && !loop.Expired?
  }

  /** Within a batch, `loop'` is a step further than `loop`: it uses up some of the work, keeps
      the note that the timer has fired, and has the same events left or all but the first. */
  predicate Further(loop: Loop, loop': Loop) {
    && InBatch(loop) && InBatch(loop') && Work(loop') < Work(loop) && loop'.todo.timer == loop.todo.timer
    && (loop'.todo.events == loop.todo.events
        || (loop.Batch? && loop.todo.events != [] && loop'.todo.events == loop.todo.events[1..]))
  }

  lemma WorkersLeaveLoop(s: State, step: Step)
    requires Enabled(s, step) && ByWorker(step)
    ensures After(s, step).loop == s.loop
  {
    hide Sessions.Detach, Sessions.Create, Sessions.UpdateCwd;
  }

  lemma EventIsTaken(s: State, step: Step)
    requires Enabled(s, step) && s.loop.Batch? && !ByWorker(step) && !step.EndBatch?
    ensures Further(s.loop, After(s, step).loop)
  {
    hide Current, DistinctClients, Sessions.Authorize;
  }

  lemma NewcomerGoesFurther(s: State, step: Step)
    requires Enabled(s, step) && (s.loop.Accepted? || s.loop.Watched?) && !ByWorker(step)
    ensures Further(s.loop, After(s, step).loop)
  {
    hide Current, DistinctClients, Sessions.Authorize, CloseSteps, ExpireSteps;
    assert step.Watch? || step.Track?;
  }

  lemma DispatchGoesFurther(s: State, step: Step)
    requires Enabled(s, step) && InDispatch(s.loop) && !ByWorker(step)
    ensures Further(s.loop, After(s, step).loop)
  {
    hide Current, DistinctClients, Sessions.Authorize, CloseSteps, ExpireSteps;
    assert step.Untrack? || step.NoMemoryForTransfer? || step.Unwatch? || step.Enqueue?;
  }

  lemma ClosingGoesFurther(s: State, step: Step)
    requires Enabled(s, step) && s.loop.Closing? && s.loop.phase < 4 && !ByWorker(step)
    ensures Further(s.loop, After(s, step).loop)
  {
    hide Sessions.Detach, Sessions.Authorize;
    assert step.CloseStep?;
  }

  /** Each step of the event loop within a batch goes further, up to the end of the batch. */
  lemma BatchStep(s: State, step: Step)
    requires LoopOk(s) && Enabled(s, step) && InBatch(s.loop)
    ensures var loop := After(s, step).loop;
      if ByWorker(step) then loop == s.loop
      else if step.EndBatch? then
        s.loop.todo.events == [] && loop == if s.loop.todo.timer then Sweeping(Todo([], false)) else Waiting
      else Further(s.loop, loop)
  {
    if step.EndBatch? {
    } else {
      hide After, Enabled;
      if ByWorker(step) {
        WorkersLeaveLoop(s, step);
      } else if s.loop.Batch? {
        EventIsTaken(s, step);
      } else if s.loop.Closing? {
        ClosingGoesFurther(s, step);
      } else if InDispatch(s.loop) {
        DispatchGoesFurther(s, step);
      } else {
        NewcomerGoesFurther(s, step);
      }
    }
  }

  /** And some step of it is possible, whatever the calls come to. */
  lemma BatchCanGoOn(s: State)
    requires LoopOk(s) && !s.loop.Waiting?
    ensures exists step :: !ByWorker(step) && Enabled(s, step)
  {
    var step := match s.loop
      case Batch(todo) =>
        if todo.events == [] then EndBatch else if todo.events[0].Listen? then AcceptFails else DropClient
      case Accepted(_, _, _) => Watch(false)
      case Watched(_, _, _) => Track(false)
      case Admitted(_, _, _, _, _) => Untrack
      case Untracked(_, _, _, _, _) => Unwatch
      case Unwatched(_, _, _, _, _) => Enqueue(false)
      case Closing(_, _, _, _, _) => CloseStep
      case Sweeping(_) => EndSweep
      case Expired(_, _, _, _) => ExpireStep
      case Waiting => EndBatch;
    assert Enabled(s, step);
  }

  /** The steps of the event loop among these. */
  function OwnSteps(steps: seq<Step>): nat {
    if steps == [] then 0
    else OwnSteps(steps[..|steps| - 1]) + if ByWorker(steps[|steps| - 1]) then 0 else 1
  }

  lemma OwnStepsNext(steps: seq<Step>, m: nat, n: nat)
    requires m < n <= |steps|
    ensures OwnSteps(steps[m..n]) == OwnSteps(steps[m..n - 1]) + if ByWorker(steps[n - 1]) then 0 else 1
  {
    assert steps[m..n][..n - m - 1] == steps[m..n - 1];
  }

  /** What is left of a batch. */
  ghost predicate IsRest(rest: seq<Event>, events: seq<Event>) {
    exists k :: 0 <= k <= |events| && rest == events[k..]
  }

  lemma RestOfRest(rest: seq<Event>, events: seq<Event>)
    requires IsRest(rest, events)
    ensures rest != [] ==> IsRest(rest[1..], events)
    ensures IsRest(events, events)
  {
    assert events[0..] == events;
    var k :| 0 <= k <= |events| && rest == events[k..];
    if rest != [] {
      assert rest[1..] == events[k + 1..];
    }
  }

  /** The loop is within a batch that was returned with these events and this timer. */
  ghost predicate WorksOff(loop: Loop, wake: Step)
    requires wake.Wake?
  {
    InBatch(loop) && loop.todo.timer == wake.timer && IsRest(loop.todo.events, wake.events)
  }

  lemma WorksOn(s: State, step: Step, wake: Step)
    requires LoopOk(s) && Enabled(s, step) && wake.Wake? && WorksOff(s.loop, wake) && !step.EndBatch?
    ensures var loop := After(s, step).loop;
      && WorksOff(loop, wake) && (if ByWorker(step) then loop == s.loop else Work(loop) < Work(s.loop))
  {
    hide After, Enabled, LoopOk, Work, IsRest;
    BatchStep(s, step);
    RestOfRest(s.loop.todo.events, wake.events);
  }

  /** A batch is worked off: from the wait that returned it, at most eight steps of the event
      loop for each event, whatever workers do meanwhile. What is left is always a rest of the
      batch, and the timer is not forgotten. */
  lemma {:induction false} BatchIsWorkedOff(states: seq<State>, steps: seq<Step>, m: nat, n: nat)
    requires IsRun(states, steps) && m < n < |states| && steps[m].Wake?
    requires forall i :: m < i < n ==> steps[i] != EndBatch
    ensures WorksOff(states[n].loop, steps[m])
    ensures OwnSteps(steps[m + 1..n]) + Work(states[n].loop) <= 8 * |steps[m].events|
    decreases n
  {
    hide After, Enabled, Work, WorksOff, OwnSteps;
    assert Enabled(states[n - 1], steps[n - 1]) && states[n - 1 + 1] == After(states[n - 1], steps[n - 1]);
    if m == n - 1 {
      WakeIs(states[m], steps[m]);
      assert steps[m + 1..n] == [];
      NoSteps();
    } else {
      BatchIsWorkedOff(states, steps, m, n - 1);
      RunIsLoopOk(states, steps, n - 1);
      WorksOn(states[n - 1], steps[n - 1], steps[m]);
      OwnStepsNext(steps, m + 1, n);
    }
  }

  lemma NoSteps()
    ensures OwnSteps([]) == 0
  {
  }

  lemma WakeIs(s: State, step: Step)
    requires Enabled(s, step) && step.Wake?
    ensures WorksOff(After(s, step).loop, step) && Work(After(s, step).loop) == 8 * |step.events|
  {
    assert step.events[0..] == step.events;
  }

  lemma RunIsLoopOk(states: seq<State>, steps: seq<Step>, n: nat)
    requires IsRun(states, steps) && n < |states|
    ensures LoopOk(states[n])
  {
    RunsKeepInv(states, steps, n);
  }

  /** When the batch ends, the wheel is swept exactly if the timer had fired in it. */
  lemma TimerLeadsToSweep(states: seq<State>, steps: seq<Step>, m: nat, n: nat)
    requires IsRun(states, steps) && m < n < |steps| && steps[m].Wake? && steps[n].EndBatch?
    requires forall i :: m < i < n ==> steps[i] != EndBatch
    ensures Pending(states[n].loop) == []
    ensures if steps[m].timer then states[n + 1].loop.Sweeping? else states[n + 1].loop.Waiting?
  {
    hide After, Enabled, Work;
    assert Enabled(states[n], steps[n]) && states[n + 1] == After(states[n], steps[n]);
    BatchIsWorkedOff(states, steps, m, n);
    RunIsLoopOk(states, steps, n);
    BatchStep(states[n], steps[n]);
  }

  /** The steps of the script can be taken one after the other, and lead to `s'`. */
  ghost predicate Leads(s: State, script: seq<Step>, s': State)
    decreases |script|
  {
    if script == [] then s' == s
    else Enabled(s, script[0]) && Leads(After(s, script[0]), script[1..], s')
  }

  lemma First(s: State, step: Step, rest: seq<Step>, s': State)
    requires Enabled(s, step) && Leads(After(s, step), rest, s')
    ensures Leads(s, [step] + rest, s')
  {
    assert ([step] + rest)[1..] == rest;
  }

  lemma Nothing(s: State)
    ensures Leads(s, [], s)
  {
  }

  /** A client that connects can be taken in: it is open, watched and tracked under a new serial,
      and nothing else is different. */
  lemma ClientsAreTakenIn(s: State, fd: nat)
    requires Inv(s) && NextIsListen(s) && fd !in s.open
    ensures Leads(s, [Accept(fd)] + ([Watch(true)] + ([Track(true)] + [])), s.(
      open := s.open[fd := s.nextSerial], epoll := s.epoll + {fd}, wheel := s.wheel[fd := s.nextSerial],
      nextSerial := s.nextSerial + 1, loop := Batch(Rest(s.loop.todo))))
  {
    hide Leads;
    assert FdOk(s, fd);
    var s1 := After(s, Accept(fd));
    var s2 := After(s1, Watch(true));
    var s3 := After(s2, Track(true));
    Nothing(s3);
    First(s2, Track(true), [], s3);
    First(s1, Watch(true), [Track(true)] + [], s3);
    First(s, Accept(fd), [Watch(true)] + ([Track(true)] + []), s3);
  }

  /** A client that hangs up, or whose packet cannot be received, can be let go: it is closed and
      out of epoll, the wheel and its session, and nothing else is different. */
  lemma ClientsAreLetGo(s: State)
    requires Inv(s) && NextIsClient(s)
    ensures var fd := s.loop.todo.events[0].fd;
      Leads(s, [DropClient] + ([CloseStep] + ([CloseStep] + ([CloseStep] + ([CloseStep] + [])))), s.(
        open := s.open - {fd}, epoll := s.epoll - {fd}, wheel := s.wheel - {fd}, table := Sessions.Detach(s.table, fd),
        boundBy := s.boundBy - {fd}, loop := Batch(Rest(s.loop.todo))))
  {
    hide Leads, Inv, Sessions.Detach;
    var s1 := After(s, DropClient);
    var s2 := After(s1, CloseStep);
    var s3 := After(s2, CloseStep);
    var s4 := After(s3, CloseStep);
    var s5 := After(s4, CloseStep);
    Nothing(s5);
    First(s4, CloseStep, [], s5);
    First(s3, CloseStep, [CloseStep] + [], s5);
    First(s2, CloseStep, [CloseStep] + ([CloseStep] + []), s5);
    First(s1, CloseStep, [CloseStep] + ([CloseStep] + ([CloseStep] + [])), s5);
    First(s, DropClient, [CloseStep] + ([CloseStep] + ([CloseStep] + ([CloseStep] + []))), s5);
  }

  /** So can any idle client while the wheel is swept. */
  lemma IdleClientsAreLetGo(s: State, fd: int)
    requires Inv(s) && s.loop.Sweeping? && fd in s.wheel
    ensures Leads(s, [Expire(fd)] + ([ExpireStep] + ([ExpireStep] + ([ExpireStep] + []))), s.(
      open := s.open - {fd}, epoll := s.epoll - {fd}, wheel := s.wheel - {fd}, table := Sessions.Detach(s.table, fd),
      boundBy := s.boundBy - {fd}))
  {
    hide Leads, Inv, Sessions.Detach;
    var s1 := After(s, Expire(fd));
    var s2 := After(s1, ExpireStep);
    var s3 := After(s2, ExpireStep);
    var s4 := After(s3, ExpireStep);
    Nothing(s4);
    First(s3, ExpireStep, [], s4);
    First(s2, ExpireStep, [ExpireStep] + [], s4);
    First(s1, ExpireStep, [ExpireStep] + ([ExpireStep] + []), s4);
    First(s, Expire(fd), [ExpireStep] + ([ExpireStep] + ([ExpireStep] + [])), s4);
  }

  /** An admitted request can be handed to a worker: it has the connection to itself. */
  lemma RequestsAreHandedOver(s: State)
    requires Inv(s) && s.loop.Admitted?
    ensures var r := RequestOf(s.loop);
      Leads(s, [Untrack] + ([Unwatch] + ([Enqueue(true)] + [])), s.(
        epoll := s.epoll - {r.fd}, wheel := s.wheel - {r.fd}, nextJob := s.nextJob + 1, loop := Batch(r.todo),
        jobs := s.jobs[s.nextJob := Job(r.fd, r.serial, r.kind, r.session, Working)]))
  {
    hide Leads, Inv;
    var s1 := After(s, Untrack);
    var s2 := After(s1, Unwatch);
    var s3 := After(s2, Enqueue(true));
    Nothing(s3);
    First(s2, Enqueue(true), [], s3);
    First(s1, Unwatch, [Enqueue(true)] + [], s3);
    First(s, Untrack, [Unwatch] + ([Enqueue(true)] + []), s3);
  }

  /** A request whose session is in the table, on an fd that is bound to it or to none, can be
      admitted; the fd is bound to the session then. */
  lemma AuthorizedAreAdmitted(s: State, kind: Kind, id: Sessions.SessionId, memory: bool)
    requires Inv(s) && NextIsClient(s)
    ensures var e := s.loop.todo.events[0];
      Enabled(s, AdmitAuthorized(kind, id, memory)) <==>
        id in s.table.sessions && if e.fd in s.table.bindings then s.table.bindings[e.fd] == id else memory
    ensures Enabled(s, AdmitAuthorized(kind, id, memory)) ==>
      var e, s' := s.loop.todo.events[0], After(s, AdmitAuthorized(kind, id, memory));
      && s'.table == Sessions.Table(s.table.sessions, s.table.bindings[e.fd := id])
      && s' == s.(table := s'.table, boundBy := s.boundBy[e.fd := e.serial],
                  loop := Admitted(e.fd, e.serial, kind, Some(id), Rest(s.loop.todo)))
  {
    hide LoopOk, JobsOk, Sessions.Authorize, Sessions.Table.Ok;
    var e := s.loop.todo.events[0];
    assert e in Pending(s.loop) && FdOk(s, e.fd);
    Sessions.AuthorizesIff(s.table, e.fd, id, memory);
    assert e.fd in s.boundBy ==> s.boundBy[e.fd := e.serial] == s.boundBy;
  }

  /** A worker that is done with a transfer can close its connection and take it out of its
      session; nothing else is different. */
  lemma TransfersAreClosed(s: State, job: nat)
    requires Inv(s) && Busy(s, job, Transfer)
    ensures var fd := s.jobs[job].fd;
      Leads(s, [FinishTransfer(job)] + ([WorkerDetach(job)] + ([WorkerClose(job)] + [])), s.(
        open := s.open - {fd}, table := Sessions.Detach(s.table, fd), boundBy := s.boundBy - {fd},
        jobs := s.jobs - {job}))
  {
    hide Leads, Inv, Sessions.Detach;
    var s1 := After(s, FinishTransfer(job));
    var s2 := After(s1, WorkerDetach(job));
    var s3 := After(s2, WorkerClose(job));
    assert s3.jobs == s.jobs - {job};
    Nothing(s3);
    First(s2, WorkerClose(job), [], s3);
    First(s1, WorkerDetach(job), [WorkerClose(job)] + [], s3);
    First(s, FinishTransfer(job), [WorkerDetach(job)] + ([WorkerClose(job)] + []), s3);
  }

  /** A worker that is done with a command can always hand the connection back. */
  lemma CommandsAreRepublished(s: State, job: nat)
    requires Inv(s) && Busy(s, job, Basic)
    ensures var j := s.jobs[job];
      Leads(s, [Republish(job, true)] + [], s.(
        epoll := s.epoll + {j.fd}, wheel := s.wheel[j.fd := j.serial], jobs := s.jobs - {job}))
  {
    assert JobOk(s, s.jobs[job]);
    Nothing(After(s, Republish(job, true)));
    First(s, Republish(job, true), [], After(s, Republish(job, true)));
  }

  /** A login opens a session for its user, bound to the connection, exactly if it has none yet,
      the name fits and an id can be found. */
  lemma LoginsBind(s: State, job: nat, userId: nat, username: string, rootId: nat, draws: seq<Sessions.Draw>)
    requires Inv(s) && Enabled(s, Login(job, userId, username, rootId, draws))
    ensures var j, s' := s.jobs[job], After(s, Login(job, userId, username, rootId, draws));
      if j.fd !in s.table.bindings && 0 < |username| < 64
         && (exists k :: Sessions.SettlesAt(s.table.sessions, draws, k))
      then exists id: Sessions.SessionId ::
        && id !in s.table.sessions && s'.table.bindings == s.table.bindings[j.fd := id]
        && s'.table.sessions == s.table.sessions[id := Sessions.Context(userId, rootId, username, "/")]
        && s'.boundBy == s.boundBy[j.fd := j.serial]
      else s' == s
  {
    hide LoopOk, PendingOk, Sessions.Create, Sessions.Table.Ok;
    var j := s.jobs[job];
    assert JobOk(s, j) && FdOk(s, j.fd);
    Sessions.CreatesIff(s.table, j.fd, userId, username, rootId, draws);
    var id := Sessions.Create(s.table, j.fd, userId, username, rootId, draws).1;
    assert id.Some? ==> id.value !in s.table.sessions;
  }
}

/** Who owns a client fd: the event loop, through epoll and the idle wheel, or one worker.

    The event loop and the workers are interleaved at the level of single calls: each step
    is one wheel, epoll, session-table, queue or close operation. The kernel may hand out
    the number of a closed fd again, so every accepted connection carries a serial number. */
module FdOwnership {
  import opened Basics
  import opened SessionSpec

  /** A readiness event, with the serial of the connection it was raised for. */
  datatype Event = Listen | Client(fd: int, serial: nat)

  datatype Kind = Basic | Transfer

  datatype JobPhase = Working | Leaving | Detached

  /** A task in the worker pool, from the moment it is queued until it is freed. */
  datatype Job = Job(fd: int, serial: nat, kind: Kind, session: Option<SessionId>, phase: JobPhase)

  /** What remains of the current batch of events, and whether the timer fired in it. */
  datatype Todo = Todo(events: seq<Event>, timer: bool)

  /** Where the event loop stands. A state that holds an fd also holds the serial of the
      connection it was taken up for. */
  datatype Loop =
    | Waiting                                               // in epoll_wait
    | Batch(todo: Todo)                                     // between two events
    | Accepted(fd: int, serial: nat, todo: Todo)            // accept() done
    | Watched(fd: int, serial: nat, todo: Todo)             // added to epoll
    | Admitted(fd: int, serial: nat, kind: Kind, session: Option<SessionId>, todo: Todo)   // request checked
    | Untracked(fd: int, serial: nat, kind: Kind, session: Option<SessionId>, todo: Todo)  // out of the wheel
    | Unwatched(fd: int, serial: nat, kind: Kind, session: Option<SessionId>, todo: Todo)  // out of epoll
    | Closing(fd: int, serial: nat, phase: nat, detach: bool, todo: Todo)  // inside close_client
    | Sweeping(todo: Todo)                                  // inside timer_wheel_advance
    | Expired(fd: int, serial: nat, phase: nat, todo: Todo)   // inside close_idle_client

  datatype State = State(
    open: map<int, nat>,        // open client fds, with the serial of their connection
    epoll: set<int>,
    wheel: map<int, nat>,       // tracked fds, with the serial of the connection they were tracked for
    table: Table,
    boundBy: map<int, nat>,     // the serial of the connection that made each binding
    jobs: map<nat, Job>,
    loop: Loop,
    nextSerial: nat,
    nextJob: nat)

  datatype Step =
    | Wake(events: seq<Event>, timer: bool)
    | EndBatch
    | AcceptFails
    | Accept(fd: int)
    | Watch(ok: bool)
    | Track(ok: bool)
    | DropClient                              // hangup, receive failure, or failed error reply
    | RefuseRequest                           // error reply sent, connection stays
    | AdmitAnonymous
    | AdmitAuthorized(kind: Kind, id: SessionId, memory: bool)
    | Untrack
    | NoMemoryForTransfer
    | Unwatch
    | Enqueue(ok: bool)
    | CloseStep
    | Expire(fd: int)
    | ExpireStep
    | EndSweep
    | Login(job: nat, userId: nat, username: string, rootId: nat, draws: seq<Draw>)
    | ChangeDirectory(job: nat, cwdId: nat, cwd: string)
    | Republish(job: nat, ok: bool)
    | FinishTransfer(job: nat)
    | WorkerDetach(job: nat)
    | WorkerClose(job: nat)

  predicate Init(s: State) {
    s == State(map[], {}, map[], NO_SESSIONS, map[], map[], Waiting, 0, 0)
  }

  ghost predicate DistinctClients(events: seq<Event>) {
    forall i, j :: 0 <= i < j < |events| && events[i].Client? && events[j].Client? ==> events[i].fd != events[j].fd
  }

  /** An event is about the connection that now has its fd, and epoll still watches it. */
  predicate Current(s: State, e: Event) {
    e.Client? ==> e.fd in s.epoll && e.fd in s.open && s.open[e.fd] == e.serial
  }

  predicate NextIsClient(s: State) {
    s.loop.Batch? && s.loop.todo.events != [] && s.loop.todo.events[0].Client?
  }

  predicate NextIsListen(s: State) {
    s.loop.Batch? && s.loop.todo.events != [] && s.loop.todo.events[0].Listen?
  }

  function Rest(todo: Todo): Todo {
    if todo.events == [] then todo else todo.(events := todo.events[1..])
  }

  /** Records who made the binding of an fd, when there is one. */
  function Rebound(boundBy: map<int, nat>, table: Table, fd: int, serial: nat): map<int, nat> {
    if fd in table.bindings && fd !in boundBy then boundBy[fd := serial] else boundBy
  }

  /** `accept` hands out a number that is not in use. */
  function Accepting(s: State, fd: int): State
    requires s.loop.Batch?
  {
    s.(open := s.open[fd := s.nextSerial], nextSerial := s.nextSerial + 1,
       loop := Accepted(fd, s.nextSerial, Rest(s.loop.todo)))
  }

  function Watching(s: State, ok: bool): State
    requires s.loop.Accepted?
  {
    if ok then s.(epoll := s.epoll + {s.loop.fd}, loop := Watched(s.loop.fd, s.loop.serial, s.loop.todo))
    else s.(loop := Closing(s.loop.fd, s.loop.serial, 0, false, s.loop.todo))
  }

  function Tracking(s: State, ok: bool): State
    requires s.loop.Watched?
  {
    if ok then s.(wheel := s.wheel[s.loop.fd := s.loop.serial], loop := Batch(s.loop.todo))
    else s.(loop := Closing(s.loop.fd, s.loop.serial, 0, false, s.loop.todo))
  }

  function Dropping(s: State): State
    requires NextIsClient(s)
  {
    var e := s.loop.todo.events[0];
    s.(loop := Closing(e.fd, e.serial, 0, true, Rest(s.loop.todo)))
  }

  function Admitting(s: State): State
    requires NextIsClient(s)
  {
    var e := s.loop.todo.events[0];
    s.(loop := Admitted(e.fd, e.serial, Basic, None, Rest(s.loop.todo)))
  }

  function Authorizing(s: State, kind: Kind, id: SessionId, memory: bool): State
    requires NextIsClient(s)
  {
    var e := s.loop.todo.events[0];
    var table := SessionSpec.Authorize(s.table, e.fd, id, memory).0;
    s.(table := table, boundBy := Rebound(s.boundBy, table, e.fd, e.serial),
       loop := Admitted(e.fd, e.serial, kind, Some(id), Rest(s.loop.todo)))
  }

  function Untracking(s: State): State
    requires s.loop.Admitted?
  {
    s.(wheel := s.wheel - {s.loop.fd},
       loop := Untracked(s.loop.fd, s.loop.serial, s.loop.kind, s.loop.session, s.loop.todo))
  }

  function Unwatching(s: State): State
    requires s.loop.Untracked?
  {
    s.(epoll := s.epoll - {s.loop.fd},
       loop := Unwatched(s.loop.fd, s.loop.serial, s.loop.kind, s.loop.session, s.loop.todo))
  }

  function Enqueuing(s: State, ok: bool): State
    requires s.loop.Unwatched?
  {
    if ok then
      s.(jobs := s.jobs[s.nextJob := Job(s.loop.fd, s.loop.serial, s.loop.kind, s.loop.session, Working)],
         nextJob := s.nextJob + 1, loop := Batch(s.loop.todo))
    else s.(loop := Closing(s.loop.fd, s.loop.serial, 0, true, s.loop.todo))
  }

  /** `close_client`: out of the wheel, out of epoll, out of its session, closed. */
  ghost function CloseSteps(s: State): State
    requires s.loop.Closing?
  {
    var fd := s.loop.fd;
    var next := Closing(fd, s.loop.serial, s.loop.phase + 1, s.loop.detach, s.loop.todo);
    if s.loop.phase == 0 then s.(wheel := s.wheel - {fd}, loop := next)
    else if s.loop.phase == 1 then s.(epoll := s.epoll - {fd}, loop := next)
    else if s.loop.phase == 2 then if s.loop.detach then Unbinding(s, fd).(loop := next) else s.(loop := next)
    else s.(open := s.open - {fd}, loop := Batch(s.loop.todo))
  }

  /** `close_idle_client`, after the wheel has let go of the fd. */
  ghost function ExpireSteps(s: State): State
    requires s.loop.Expired?
  {
    var fd, next := s.loop.fd, Expired(s.loop.fd, s.loop.serial, s.loop.phase + 1, s.loop.todo);
    if s.loop.phase == 0 then s.(epoll := s.epoll - {fd}, loop := next)
    else if s.loop.phase == 1 then Unbinding(s, fd).(loop := next)
    else s.(open := s.open - {fd}, loop := Sweeping(s.loop.todo))
  }

  function Expiring(s: State, fd: int): State
    requires s.loop.Sweeping? && fd in s.wheel
  {
    s.(wheel := s.wheel - {fd}, loop := Expired(fd, s.wheel[fd], 0, s.loop.todo))
  }

  ghost function Unbinding(s: State, fd: int): State {
    s.(table := Detach(s.table, fd), boundBy := s.boundBy - {fd})
  }

  function LoggingIn(s: State, job: Job, userId: nat, username: string, rootId: nat, draws: seq<Draw>): State {
    var table := SessionSpec.Create(s.table, job.fd, userId, username, rootId, draws).0;
    s.(table := table, boundBy := Rebound(s.boundBy, table, job.fd, job.serial))
  }

  function Republishing(s: State, job: nat, ok: bool): State
    requires job in s.jobs
  {
    var fd, serial := s.jobs[job].fd, s.jobs[job].serial;
    if ok then s.(wheel := s.wheel[fd := serial], epoll := s.epoll + {fd}, jobs := s.jobs - {job})
    else WorkerMoves(s, job, Leaving)
  }

  function WorkerMoves(s: State, job: nat, phase: JobPhase): State
    requires job in s.jobs
  {
    s.(jobs := s.jobs[job := s.jobs[job].(phase := phase)])
  }

  function WorkerCloses(s: State, job: nat): State
    requires job in s.jobs
  {
    s.(open := s.open - {s.jobs[job].fd}, jobs := s.jobs - {job})
  }

  predicate Busy(s: State, job: nat, kind: Kind) {
    job in s.jobs && s.jobs[job].kind == kind && s.jobs[job].phase.Working?
  }

  ghost predicate Enabled(s: State, step: Step) {
    match step
    case Wake(events, timer) =>
      s.loop.Waiting? && DistinctClients(events) && forall e :: e in events ==> Current(s, e)
    case EndBatch => s.loop.Batch? && s.loop.todo.events == []
    case AcceptFails => NextIsListen(s)
    case Accept(fd) => NextIsListen(s) && fd >= 0 && fd !in s.open
    case Watch(ok) => s.loop.Accepted? && (ok ==> s.loop.fd !in s.epoll)
    case Track(ok) => s.loop.Watched? && (ok ==> s.loop.fd !in s.wheel)
    case DropClient => NextIsClient(s)
    case RefuseRequest => NextIsClient(s)
    case AdmitAnonymous => NextIsClient(s)
    case AdmitAuthorized(kind, id, memory) =>
      NextIsClient(s) && SessionSpec.Authorize(s.table, s.loop.todo.events[0].fd, id, memory).1.Some?
    case Untrack => s.loop.Admitted?
    case NoMemoryForTransfer => s.loop.Untracked? && s.loop.kind.Transfer?
    case Unwatch => s.loop.Untracked?
    case Enqueue(ok) => s.loop.Unwatched?
    case CloseStep => s.loop.Closing?
    case Expire(fd) => s.loop.Sweeping? && fd in s.wheel
    case ExpireStep => s.loop.Expired?
    case EndSweep => s.loop.Sweeping?
    case Login(job, userId, username, rootId, draws) => Busy(s, job, Basic) && s.jobs[job].session.None?
    case ChangeDirectory(job, cwdId, cwd) => Busy(s, job, Basic) && s.jobs[job].session.Some?
    case Republish(job, ok) =>
      Busy(s, job, Basic) && (ok ==> s.jobs[job].fd !in s.wheel && s.jobs[job].fd !in s.epoll)
    case FinishTransfer(job) => Busy(s, job, Transfer)
    case WorkerDetach(job) => job in s.jobs && s.jobs[job].phase.Leaving?
    case WorkerClose(job) => job in s.jobs && s.jobs[job].phase.Detached?
  }

  ghost function After(s: State, step: Step): State
    requires Enabled(s, step)
  {
    match step
    case Wake(events, timer) => s.(loop := Batch(Todo(events, timer)))
    case EndBatch => s.(loop := if s.loop.todo.timer then Sweeping(Todo([], false)) else Waiting)
    case AcceptFails => s.(loop := Batch(Rest(s.loop.todo)))
    case Accept(fd) => Accepting(s, fd)
    case Watch(ok) => Watching(s, ok)
    case Track(ok) => Tracking(s, ok)
    case DropClient => Dropping(s)
    case RefuseRequest => s.(loop := Batch(Rest(s.loop.todo)))
    case AdmitAnonymous => Admitting(s)
    case AdmitAuthorized(kind, id, memory) => Authorizing(s, kind, id, memory)
    case Untrack => Untracking(s)
    case NoMemoryForTransfer => s.(loop := Closing(s.loop.fd, s.loop.serial, 0, true, s.loop.todo))
    case Unwatch => Unwatching(s)
    case Enqueue(ok) => Enqueuing(s, ok)
    case CloseStep => CloseSteps(s)
    case Expire(fd) => Expiring(s, fd)
    case ExpireStep => ExpireSteps(s)
    case EndSweep => s.(loop := if s.loop.todo.events == [] then Waiting else Batch(s.loop.todo))
    case Login(job, userId, username, rootId, draws) => LoggingIn(s, s.jobs[job], userId, username, rootId, draws)
    case ChangeDirectory(job, cwdId, cwd) =>
      s.(table := SessionSpec.UpdateCwd(s.table, s.jobs[job].fd, s.jobs[job].session.value, cwdId, cwd).0)
    case Republish(job, ok) => Republishing(s, job, ok)
    case FinishTransfer(job) => WorkerMoves(s, job, Leaving)
    case WorkerDetach(job) => WorkerMoves(Unbinding(s, s.jobs[job].fd), job, Detached)
    case WorkerClose(job) => WorkerCloses(s, job)
  }

  /** The fd the event loop is working on, if any. */
  function Held(s: State): Option<int> {
    if s.loop.Waiting? || s.loop.Batch? || s.loop.Sweeping? then None else Some(s.loop.fd)
  }

  function Pending(loop: Loop): seq<Event> {
    if loop.Waiting? then [] else loop.todo.events
  }

  ghost predicate OwnedByJob(s: State, fd: int) {
    exists job :: job in s.jobs && s.jobs[job].fd == fd
  }

  /** Outside the event loop's hands, an fd is watched and tracked, or a worker's, or closed;
      what the wheel and the session table know of it is about the connection it has now. */
  ghost predicate FdOk(s: State, fd: int) {
    && (fd in s.open ==> fd >= 0 && s.open[fd] < s.nextSerial)
    && (fd in s.open && Held(s) != Some(fd) ==> fd in s.epoll || OwnedByJob(s, fd))
    && (fd in s.epoll ==> fd in s.open)
    && (fd in s.wheel ==> fd in s.open && s.wheel[fd] == s.open[fd])
    && (Held(s) != Some(fd) ==> (fd in s.epoll <==> fd in s.wheel))
    && (fd in s.table.bindings <==> fd in s.boundBy)
    && (fd in s.boundBy ==> fd in s.open && s.boundBy[fd] == s.open[fd])
  }

  /** A worker has its connection to itself. */
  ghost predicate JobOk(s: State, job: Job) {
    && job.fd in s.open && s.open[job.fd] == job.serial
    && job.fd !in s.epoll && job.fd !in s.wheel && Held(s) != Some(job.fd)
    && (job.phase.Detached? ==> job.fd !in s.table.bindings)
    && (!job.phase.Detached? ==> SessionHeld(s, job.fd, job.session))
  }

  ghost predicate SessionHeld(s: State, fd: int, session: Option<SessionId>) {
    session.Some? ==> fd in s.table.bindings && s.table.bindings[fd] == session.value
  }

  ghost predicate JobsOk(s: State) {
    && (forall job :: job in s.jobs ==> job < s.nextJob && JobOk(s, s.jobs[job]))
    && (forall j, k :: j in s.jobs && k in s.jobs && s.jobs[j].fd == s.jobs[k].fd ==> j == k)
  }

  /** What the fd in the event loop's hands still takes part in. */
  ghost predicate LoopOk(s: State) {
    && (Held(s).Some? ==> s.loop.fd in s.open && s.open[s.loop.fd] == s.loop.serial)
    && match s.loop
       case Waiting => true
       case Batch(_) => true
       case Accepted(fd, _, _) => fd !in s.epoll && fd !in s.wheel && fd !in s.table.bindings
       case Watched(fd, _, _) => fd in s.epoll && fd !in s.wheel && fd !in s.table.bindings
       case Admitted(fd, _, _, session, _) => SessionHeld(s, fd, session)
       case Untracked(fd, _, _, session, _) => fd !in s.wheel && SessionHeld(s, fd, session)
       case Unwatched(fd, _, _, session, _) => fd !in s.wheel && fd !in s.epoll && SessionHeld(s, fd, session)
       case Closing(fd, _, phase, detach, _) =>
         && (phase >= 1 ==> fd !in s.wheel) && (phase >= 2 ==> fd !in s.epoll)
         && (phase >= 3 || !detach ==> fd !in s.table.bindings) && phase < 4
       case Sweeping(todo) => todo.events == []
       case Expired(fd, _, phase, todo) =>
         && todo.events == [] && fd !in s.wheel && (phase >= 1 ==> fd !in s.epoll)
         && (phase >= 2 ==> fd !in s.table.bindings) && phase < 3
  }

  /** Events still to be handled are about current connections that nobody else holds. */
  ghost predicate PendingOk(s: State) {
    && DistinctClients(Pending(s.loop))
    && forall e :: e in Pending(s.loop) ==> Current(s, e) && (e.Client? ==> Held(s) != Some(e.fd))
  }

  ghost predicate FdsOk(s: State) {
    forall fd :: FdOk(s, fd)
  }

  ghost predicate Inv(s: State) {
    s.table.Ok() && FdsOk(s) && JobsOk(s) && LoopOk(s) && PendingOk(s)
  }

  lemma InitOk(s: State)
    requires Init(s)
    ensures Inv(s)
  {
  }

  /** Nothing about `fd` is different in the two states. */
  ghost predicate SameAt(s: State, s': State, fd: int) {
    && (fd in s'.open <==> fd in s.open) && (fd in s.open ==> s'.open[fd] == s.open[fd])
    && (fd in s'.epoll <==> fd in s.epoll)
    && (fd in s'.wheel <==> fd in s.wheel) && (fd in s.wheel ==> s'.wheel[fd] == s.wheel[fd])
    && (fd in s'.table.bindings <==> fd in s.table.bindings)
    && (fd in s.table.bindings ==> s'.table.bindings[fd] == s.table.bindings[fd])
    && (fd in s'.boundBy <==> fd in s.boundBy) && (fd in s.boundBy ==> s'.boundBy[fd] == s.boundBy[fd])
    && (Held(s') == Some(fd) <==> Held(s) == Some(fd))
  }

  /** The step from `s` to `s'` is about `fd` alone. */
  ghost predicate Concerns(s: State, s': State, fd: int) {
    && (forall other :: other != fd ==> SameAt(s, s', other))
    && (forall job :: job in s.jobs && s.jobs[job].fd != fd ==> job in s'.jobs && s'.jobs[job] == s.jobs[job])
    && (forall job :: job in s'.jobs && s'.jobs[job].fd != fd ==> job in s.jobs && s.jobs[job] == s'.jobs[job])
    && s.nextSerial <= s'.nextSerial && s.nextJob <= s'.nextJob
  }

  /** The jobs that have `fd`. */
  ghost predicate JobsOkAt(s: State, fd: int) {
    && (forall job :: job in s.jobs && s.jobs[job].fd == fd ==> job < s.nextJob && JobOk(s, s.jobs[job]))
    && (forall j, k :: j in s.jobs && k in s.jobs && s.jobs[j].fd == fd && s.jobs[k].fd == fd ==> j == k)
  }

  lemma OtherFdsStayOk(s: State, s': State, fd: int)
    requires FdsOk(s) && Concerns(s, s', fd) && FdOk(s', fd)
    ensures FdsOk(s')
  {
    forall other ensures FdOk(s', other) {
      if other != fd {
        assert FdOk(s, other) && SameAt(s, s', other);
        if OwnedByJob(s, other) {
          var job :| job in s.jobs && s.jobs[job].fd == other;
          assert s'.jobs[job].fd == other;
        }
      }
    }
  }

  lemma OtherJobsStayOk(s: State, s': State, fd: int)
    requires JobsOk(s) && Concerns(s, s', fd) && JobsOkAt(s', fd)
    ensures JobsOk(s')
  {
    forall job | job in s'.jobs ensures job < s'.nextJob && JobOk(s', s'.jobs[job]) {
      if s'.jobs[job].fd != fd {
        assert JobOk(s, s.jobs[job]) && SameAt(s, s', s.jobs[job].fd);
      }
    }
  }

  /** Events about other fds stay current. */
  lemma OtherEventsStayOk(s: State, s': State, fd: int)
    requires PendingOk(s) && Concerns(s, s', fd) && DistinctClients(Pending(s'.loop))
    requires forall e :: e in Pending(s'.loop) ==> e in Pending(s.loop) && (e.Client? ==> e.fd != fd)
    ensures PendingOk(s')
  {
    forall e | e in Pending(s'.loop) ensures Current(s', e) && (e.Client? ==> Held(s') != Some(e.fd)) {
      assert Current(s, e);
      assert e.Client? ==> SameAt(s, s', e.fd);
    }
  }

  /** A step that is about one fd keeps the invariant if it does so for that fd. */
  lemma OthersStayOk(s: State, s': State, fd: int)
    requires Inv(s) && Concerns(s, s', fd) && s'.table.Ok() && FdOk(s', fd) && JobsOkAt(s', fd) && LoopOk(s')
    requires DistinctClients(Pending(s'.loop))
    requires forall e :: e in Pending(s'.loop) ==> e in Pending(s.loop) && (e.Client? ==> e.fd != fd)
    ensures Inv(s')
  {
    hide Concerns, FdsOk, FdOk, JobsOk, JobsOkAt, LoopOk, PendingOk, DistinctClients;
    OtherFdsStayOk(s, s', fd);
    OtherJobsStayOk(s, s', fd);
    OtherEventsStayOk(s, s', fd);
  }

  /** A call on the session table leaves the bindings of other fds alone. */
  ghost predicate OthersKept(t: Table, t': Table, fd: int) {
    && t'.Ok()
    && (forall other :: other != fd ==> (other in t'.bindings <==> other in t.bindings))
    && (forall other :: other != fd && other in t.bindings ==> t'.bindings[other] == t.bindings[other])
  }

  lemma DetachStep(t: Table, fd: int)
    requires t.Ok()
    ensures OthersKept(t, Detach(t, fd), fd) && fd !in Detach(t, fd).bindings
  {
    DetachingKeepsOk(t, fd);
  }

  lemma CreateStep(t: Table, fd: int, userId: nat, username: string, rootId: nat, draws: seq<Draw>)
    requires t.Ok()
    ensures var t' := SessionSpec.Create(t, fd, userId, username, rootId, draws).0;
      OthersKept(t, t', fd) && (fd in t.bindings ==> t'.bindings == t.bindings)
  {
    ApplyKeepsOk(t, CreateCall(fd, userId, username, rootId, draws));
  }

  lemma AuthorizeStep(t: Table, fd: int, id: SessionId, memory: bool)
    requires t.Ok() && SessionSpec.Authorize(t, fd, id, memory).1.Some?
    ensures var t' := SessionSpec.Authorize(t, fd, id, memory).0;
      && OthersKept(t, t', fd) && fd in t'.bindings && t'.bindings[fd] == id
      && (fd in t.bindings ==> t'.bindings == t.bindings)
  {
    ApplyKeepsOk(t, AuthorizeCall(fd, id, memory));
  }

  lemma UpdateCwdStep(t: Table, fd: int, id: SessionId, cwdId: nat, cwd: string)
    requires t.Ok()
    ensures var t' := SessionSpec.UpdateCwd(t, fd, id, cwdId, cwd).0; t'.Ok() && t'.bindings == t.bindings
  {
    ApplyKeepsOk(t, UpdateCwdCall(fd, id, cwdId, cwd));
  }

  /** The event loop goes on without touching an fd. */
  lemma TurnKeepsInv(s: State, loop: Loop)
    requires Inv(s) && Held(s).None? && Held(s.(loop := loop)).None?
    requires LoopOk(s.(loop := loop)) && PendingOk(s.(loop := loop))
    ensures Inv(s.(loop := loop))
  {
    var s' := s.(loop := loop);
    forall fd ensures FdOk(s', fd) {
      assert FdOk(s, fd);
      assert OwnedByJob(s, fd) ==> OwnedByJob(s', fd);
    }
    forall job | job in s'.jobs ensures JobOk(s', s'.jobs[job]) {
      assert JobOk(s, s.jobs[job]);
    }
  }

  lemma WakeKeepsInv(s: State, events: seq<Event>, timer: bool)
    requires Inv(s) && s.loop.Waiting? && DistinctClients(events) && forall e :: e in events ==> Current(s, e)
    ensures Inv(s.(loop := Batch(Todo(events, timer))))
  {
    TurnKeepsInv(s, Batch(Todo(events, timer)));
  }

  lemma EndTurnKeepsInv(s: State, loop: Loop)
    requires Inv(s) && Held(s).None? && (loop.Waiting? || loop == Sweeping(Todo([], false)))
    ensures Inv(s.(loop := loop))
  {
    TurnKeepsInv(s, loop);
  }

  lemma SkipKeepsInv(s: State)
    requires Inv(s) && s.loop.Batch? && s.loop.todo.events != []
    ensures Inv(s.(loop := Batch(Rest(s.loop.todo))))
  {
    TurnKeepsInv(s, Batch(Rest(s.loop.todo)));
  }

  lemma AcceptKeepsInv(s: State, fd: int)
    requires Inv(s) && NextIsListen(s) && fd >= 0 && fd !in s.open
    ensures Inv(Accepting(s, fd))
  {
    assert FdOk(s, fd);
    OthersStayOk(s, Accepting(s, fd), fd);
  }

  lemma WatchKeepsInv(s: State, ok: bool)
    requires Inv(s) && s.loop.Accepted?
    ensures Inv(Watching(s, ok))
  {
    assert FdOk(s, s.loop.fd);
    OthersStayOk(s, Watching(s, ok), s.loop.fd);
  }

  lemma TrackKeepsInv(s: State, ok: bool)
    requires Inv(s) && s.loop.Watched?
    ensures Inv(Tracking(s, ok))
  {
    assert FdOk(s, s.loop.fd);
    OthersStayOk(s, Tracking(s, ok), s.loop.fd);
  }

  lemma DropKeepsInv(s: State)
    requires Inv(s) && NextIsClient(s)
    ensures Inv(Dropping(s))
  {
    assert s.loop.todo.events[0] in Pending(s.loop) && FdOk(s, s.loop.todo.events[0].fd);
    OthersStayOk(s, Dropping(s), s.loop.todo.events[0].fd);
  }

  lemma AdmitKeepsInv(s: State)
    requires Inv(s) && NextIsClient(s)
    ensures Inv(Admitting(s))
  {
    assert s.loop.todo.events[0] in Pending(s.loop) && FdOk(s, s.loop.todo.events[0].fd);
    OthersStayOk(s, Admitting(s), s.loop.todo.events[0].fd);
  }

  lemma AuthorizeKeepsInv(s: State, kind: Kind, id: SessionId, memory: bool)
    requires Inv(s) && NextIsClient(s)
      && SessionSpec.Authorize(s.table, s.loop.todo.events[0].fd, id, memory).1.Some?
    ensures Inv(Authorizing(s, kind, id, memory))
  {
    hide SessionSpec.Authorize, SessionSpec.Table.Ok;
    AuthorizeStep(s.table, s.loop.todo.events[0].fd, id, memory);
    assert s.loop.todo.events[0] in Pending(s.loop) && FdOk(s, s.loop.todo.events[0].fd);
    OthersStayOk(s, Authorizing(s, kind, id, memory), s.loop.todo.events[0].fd);
  }

  lemma UntrackKeepsInv(s: State)
    requires Inv(s) && s.loop.Admitted?
    ensures Inv(Untracking(s))
  {
    assert FdOk(s, s.loop.fd);
    OthersStayOk(s, Untracking(s), s.loop.fd);
  }

  lemma GiveUpKeepsInv(s: State)
    requires Inv(s) && s.loop.Untracked?
    ensures Inv(s.(loop := Closing(s.loop.fd, s.loop.serial, 0, true, s.loop.todo)))
  {
    assert FdOk(s, s.loop.fd);
    OthersStayOk(s, s.(loop := Closing(s.loop.fd, s.loop.serial, 0, true, s.loop.todo)), s.loop.fd);
  }

  lemma UnwatchKeepsInv(s: State)
    requires Inv(s) && s.loop.Untracked?
    ensures Inv(Unwatching(s))
  {
    assert FdOk(s, s.loop.fd);
    OthersStayOk(s, Unwatching(s), s.loop.fd);
  }

  lemma EnqueueKeepsInv(s: State, ok: bool)
    requires Inv(s) && s.loop.Unwatched?
    ensures Inv(Enqueuing(s, ok))
  {
    var s' := Enqueuing(s, ok);
    assert FdOk(s, s.loop.fd);
    assert ok ==> s'.jobs[s.nextJob].fd == s.loop.fd;
    OthersStayOk(s, s', s.loop.fd);
  }

  /** The event loop takes the fd it is closing out of its session. */
  lemma UnbindKeepsInv(s: State, loop: Loop)
    requires Inv(s) && (s.loop.Closing? || s.loop.Expired?) && Pending(loop) == Pending(s.loop)
    requires Held(s.(loop := loop)) == Held(s) && LoopOk(Unbinding(s, s.loop.fd).(loop := loop))
    ensures Inv(Unbinding(s, s.loop.fd).(loop := loop))
  {
    hide SessionSpec.Detach, SessionSpec.Table.Ok, LoopOk;
    DetachStep(s.table, s.loop.fd);
    assert FdOk(s, s.loop.fd);
    OthersStayOk(s, Unbinding(s, s.loop.fd).(loop := loop), s.loop.fd);
  }

  /** The event loop closes the fd that takes part in nothing any more. */
  lemma LastStepKeepsInv(s: State, loop: Loop)
    requires Inv(s) && (s.loop.Closing? || s.loop.Expired?) && Pending(loop) == Pending(s.loop)
    requires s.loop.fd !in s.epoll && s.loop.fd !in s.wheel && s.loop.fd !in s.table.bindings
    requires Held(s.(loop := loop)).None? && LoopOk(s.(open := s.open - {s.loop.fd}, loop := loop))
    ensures Inv(s.(open := s.open - {s.loop.fd}, loop := loop))
  {
    hide LoopOk;
    assert FdOk(s, s.loop.fd);
    OthersStayOk(s, s.(open := s.open - {s.loop.fd}, loop := loop), s.loop.fd);
  }

  lemma CloseKeepsInv(s: State)
    requires Inv(s) && s.loop.Closing?
    ensures Inv(CloseSteps(s))
  {
    if s.loop.phase == 2 && s.loop.detach {
      DetachStep(s.table, s.loop.fd);
      UnbindKeepsInv(s, Closing(s.loop.fd, s.loop.serial, 3, true, s.loop.todo));
    } else if s.loop.phase == 3 {
      LastStepKeepsInv(s, Batch(s.loop.todo));
    } else {
      CloseOtherSteps(s);
    }
  }

  lemma CloseOtherSteps(s: State)
    requires Inv(s) && s.loop.Closing? && s.loop.phase != 3 && !(s.loop.phase == 2 && s.loop.detach)
    ensures Inv(CloseSteps(s))
  {
    assert FdOk(s, s.loop.fd);
    assert LoopOk(CloseSteps(s));
    OthersStayOk(s, CloseSteps(s), s.loop.fd);
  }

  lemma ExpiryKeepsInv(s: State, fd: int)
    requires Inv(s) && s.loop.Sweeping? && fd in s.wheel
    ensures Inv(Expiring(s, fd))
  {
    assert FdOk(s, fd);
    OthersStayOk(s, Expiring(s, fd), fd);
  }

  lemma ExpireKeepsInv(s: State)
    requires Inv(s) && s.loop.Expired?
    ensures Inv(ExpireSteps(s))
  {
    if s.loop.phase == 0 {
      assert FdOk(s, s.loop.fd);
      OthersStayOk(s, ExpireSteps(s), s.loop.fd);
    } else if s.loop.phase == 1 {
      DetachStep(s.table, s.loop.fd);
      UnbindKeepsInv(s, Expired(s.loop.fd, s.loop.serial, 2, s.loop.todo));
    } else {
      LastStepKeepsInv(s, Sweeping(s.loop.todo));
    }
  }

  lemma LoginKeepsInv(s: State, job: nat, userId: nat, username: string, rootId: nat, draws: seq<Draw>)
    requires Inv(s) && Busy(s, job, Basic)
    ensures Inv(LoggingIn(s, s.jobs[job], userId, username, rootId, draws))
  {
    hide SessionSpec.Create, SessionSpec.Table.Ok;
    CreateStep(s.table, s.jobs[job].fd, userId, username, rootId, draws);
    assert FdOk(s, s.jobs[job].fd) && JobOk(s, s.jobs[job]);
    OthersStayOk(s, LoggingIn(s, s.jobs[job], userId, username, rootId, draws), s.jobs[job].fd);
  }

  lemma ChangeDirectoryKeepsInv(s: State, job: nat, id: SessionId, cwdId: nat, cwd: string)
    requires Inv(s) && Busy(s, job, Basic)
    ensures Inv(s.(table := SessionSpec.UpdateCwd(s.table, s.jobs[job].fd, id, cwdId, cwd).0))
  {
    hide SessionSpec.UpdateCwd, SessionSpec.Table.Ok;
    UpdateCwdStep(s.table, s.jobs[job].fd, id, cwdId, cwd);
    assert FdOk(s, s.jobs[job].fd) && JobOk(s, s.jobs[job]);
    OthersStayOk(s, s.(table := SessionSpec.UpdateCwd(s.table, s.jobs[job].fd, id, cwdId, cwd).0), s.jobs[job].fd);
  }

  lemma LeaveKeepsInv(s: State, job: nat)
    requires Inv(s) && job in s.jobs && s.jobs[job].phase.Working?
    ensures Inv(WorkerMoves(s, job, Leaving))
  {
    var s' := WorkerMoves(s, job, Leaving);
    assert FdOk(s, s.jobs[job].fd) && JobOk(s, s.jobs[job]) && s'.jobs[job].fd == s.jobs[job].fd;
    OthersStayOk(s, s', s.jobs[job].fd);
  }

  lemma RepublishKeepsInv(s: State, job: nat)
    requires Inv(s) && Busy(s, job, Basic)
    ensures Inv(Republishing(s, job, true))
  {
    assert FdOk(s, s.jobs[job].fd) && JobOk(s, s.jobs[job]);
    OthersStayOk(s, Republishing(s, job, true), s.jobs[job].fd);
  }

  lemma WorkerDetachKeepsInv(s: State, job: nat)
    requires Inv(s) && job in s.jobs && s.jobs[job].phase.Leaving?
    ensures Inv(WorkerMoves(Unbinding(s, s.jobs[job].fd), job, Detached))
  {
    hide SessionSpec.Detach, SessionSpec.Table.Ok;
    DetachStep(s.table, s.jobs[job].fd);
    var s' := WorkerMoves(Unbinding(s, s.jobs[job].fd), job, Detached);
    assert FdOk(s, s.jobs[job].fd) && JobOk(s, s.jobs[job]) && s'.jobs[job].fd == s.jobs[job].fd;
    OthersStayOk(s, s', s.jobs[job].fd);
  }

  lemma WorkerCloseKeepsInv(s: State, job: nat)
    requires Inv(s) && job in s.jobs && s.jobs[job].phase.Detached?
    ensures Inv(WorkerCloses(s, job))
  {
    assert FdOk(s, s.jobs[job].fd) && JobOk(s, s.jobs[job]);
    OthersStayOk(s, WorkerCloses(s, job), s.jobs[job].fd);
  }

  /** Every step of the event loop or of a worker keeps the invariant. */
  lemma StepKeepsInv(s: State, step: Step)
    requires Inv(s) && Enabled(s, step)
    ensures Inv(After(s, step))
  {
    hide Inv;
    match step
    case Wake(events, timer) => WakeKeepsInv(s, events, timer);
    case EndBatch => EndTurnKeepsInv(s, if s.loop.todo.timer then Sweeping(Todo([], false)) else Waiting);
    case AcceptFails => SkipKeepsInv(s);
    case Accept(fd) => AcceptKeepsInv(s, fd);
    case Watch(ok) => WatchKeepsInv(s, ok);
    case Track(ok) => TrackKeepsInv(s, ok);
    case DropClient => DropKeepsInv(s);
    case RefuseRequest => SkipKeepsInv(s);
    case AdmitAnonymous => AdmitKeepsInv(s);
    case AdmitAuthorized(kind, id, memory) => AuthorizeKeepsInv(s, kind, id, memory);
    case Untrack => UntrackKeepsInv(s);
    case NoMemoryForTransfer => GiveUpKeepsInv(s);
    case Unwatch => UnwatchKeepsInv(s);
    case Enqueue(ok) => EnqueueKeepsInv(s, ok);
    case CloseStep => CloseKeepsInv(s);
    case Expire(fd) => ExpiryKeepsInv(s, fd);
    case ExpireStep => ExpireKeepsInv(s);
    case EndSweep => EndSweepKeepsInv(s);
    case Login(job, userId, username, rootId, draws) => LoginKeepsInv(s, job, userId, username, rootId, draws);
    case ChangeDirectory(job, cwdId, cwd) =>
      ChangeDirectoryKeepsInv(s, job, s.jobs[job].session.value, cwdId, cwd);
    case Republish(job, ok) => if ok { RepublishKeepsInv(s, job); } else { LeaveKeepsInv(s, job); }
    case FinishTransfer(job) => LeaveKeepsInv(s, job);
    case WorkerDetach(job) => WorkerDetachKeepsInv(s, job);
    case WorkerClose(job) => WorkerCloseKeepsInv(s, job);
  }

  lemma EndSweepKeepsInv(s: State)
    requires Inv(s) && s.loop.Sweeping?
    ensures s.loop.todo.events == [] && Inv(s.(loop := Waiting))
  {
    EndTurnKeepsInv(s, Waiting);
  }

  /** A run: the states it goes through and the steps between them. */
  ghost predicate IsRun(states: seq<State>, steps: seq<Step>) {
    && |states| == |steps| + 1 && Init(states[0])
    && forall i :: 0 <= i < |steps| ==> Enabled(states[i], steps[i]) && states[i + 1] == After(states[i], steps[i])
  }

  lemma {:induction false} RunsKeepInv(states: seq<State>, steps: seq<Step>, n: nat)
    requires IsRun(states, steps) && n < |states|
    ensures Inv(states[n])
  {
    if n == 0 {
      InitOk(states[0]);
    } else {
      RunsKeepInv(states, steps, n - 1);
      assert Enabled(states[n - 1], steps[n - 1]) && states[n - 1 + 1] == After(states[n - 1], steps[n - 1]);
      StepKeepsInv(states[n - 1], steps[n - 1]);
    }
  }

  ghost function JobFds(s: State): set<int> {
    set job | job in s.jobs :: s.jobs[job].fd
  }

  /** Whenever the event loop is between two events, epoll and the wheel hold the same fds,
      the workers hold the others, and together they are the open ones. */
  lemma FdsArePartitioned(states: seq<State>, steps: seq<Step>, n: nat)
    requires IsRun(states, steps) && n < |states| && Held(states[n]).None?
    ensures var s := states[n];
      && s.epoll == s.wheel.Keys && s.epoll !! JobFds(s) && s.epoll + JobFds(s) == s.open.Keys
      && forall j, k :: j in s.jobs && k in s.jobs && s.jobs[j].fd == s.jobs[k].fd ==> j == k
  {
    RunsKeepInv(states, steps, n);
    var s := states[n];
    forall job | job in s.jobs ensures s.jobs[job].fd in s.open && s.jobs[job].fd !in s.epoll {
      assert JobOk(s, s.jobs[job]);
    }
    forall fd ensures fd in s.epoll + JobFds(s) <==> fd in s.open.Keys {
      assert FdOk(s, fd);
    }
    forall fd ensures fd in s.epoll <==> fd in s.wheel.Keys {
      assert FdOk(s, fd);
    }
  }

  /** Closing, by idle expiry, by the event loop or by a worker, always closes the very
      connection the closer was responsible for, and never one a worker is using. */
  lemma ClosesItsOwnConnection(states: seq<State>, steps: seq<Step>, n: nat)
    requires IsRun(states, steps) && n < |steps|
    ensures var s, step := states[n], steps[n];
      && (step.Expire? ==>
            step.fd in s.open && s.open[step.fd] == s.wheel[step.fd] && !OwnedByJob(s, step.fd))
      && (step.ExpireStep? || step.CloseStep? ==>
            s.loop.fd in s.open && s.open[s.loop.fd] == s.loop.serial && !OwnedByJob(s, s.loop.fd))
      && (step.WorkerClose? ==>
            s.jobs[step.job].fd in s.open && s.open[s.jobs[step.job].fd] == s.jobs[step.job].serial
            && s.jobs[step.job].fd !in s.epoll && s.jobs[step.job].fd !in s.wheel)
  {
    RunsKeepInv(states, steps, n);
    var s, step := states[n], steps[n];
    assert step.Expire? ==> FdOk(s, step.fd);
    if step.WorkerClose? {
      assert JobOk(s, s.jobs[step.job]);
    }
    forall job | job in s.jobs ensures s.jobs[job].fd !in s.wheel && Held(s) != Some(s.jobs[job].fd) {
      assert JobOk(s, s.jobs[job]);
    }
  }

  /** A number that is handed out again has nothing left of its last use: no session, no
      wheel entry, no epoll entry, no worker. */
  lemma ReusedFdIsClean(states: seq<State>, steps: seq<Step>, n: nat)
    requires IsRun(states, steps) && n < |steps| && steps[n].Accept?
    ensures var s, fd := states[n], steps[n].fd;
      fd !in s.table.bindings && fd !in s.wheel && fd !in s.epoll && !OwnedByJob(s, fd)
  {
    RunsKeepInv(states, steps, n);
    var s := states[n];
    assert FdOk(s, steps[n].fd);
    forall job | job in s.jobs ensures s.jobs[job].fd in s.open {
      assert JobOk(s, s.jobs[job]);
    }
  }

  /** A binding always belongs to the connection that has the fd now. */
  lemma BindingsAreCurrent(states: seq<State>, steps: seq<Step>, n: nat, fd: int)
    requires IsRun(states, steps) && n < |states| && fd in states[n].table.bindings
    ensures fd in states[n].open && fd in states[n].boundBy && states[n].boundBy[fd] == states[n].open[fd]
    ensures states[n].table.bindings[fd] in states[n].table.sessions
  {
    RunsKeepInv(states, steps, n);
    assert FdOk(states[n], fd);
  }

  /** The event that is handled next is about the connection it was raised for. */
  lemma EventsAreCurrent(states: seq<State>, steps: seq<Step>, n: nat)
    requires IsRun(states, steps) && n < |states| && NextIsClient(states[n])
    ensures var e := states[n].loop.todo.events[0];
      e.fd in states[n].open && states[n].open[e.fd] == e.serial && !OwnedByJob(states[n], e.fd)
  {
    RunsKeepInv(states, steps, n);
    var s, e := states[n], states[n].loop.todo.events[0];
    assert e in Pending(s.loop);
    forall job | job in s.jobs ensures s.jobs[job].fd !in s.epoll {
      assert JobOk(s, s.jobs[job]);
    }
  }

  /** The session of a running transfer, or of any request, is in the table until the
      worker detaches, whatever happens to the session's other connections. */
  lemma SessionOutlivesJob(states: seq<State>, steps: seq<Step>, n: nat, job: nat)
    requires IsRun(states, steps) && n < |states| && job in states[n].jobs
    requires states[n].jobs[job].session.Some? && !states[n].jobs[job].phase.Detached?
    ensures states[n].jobs[job].session.value in states[n].table.sessions
  {
    RunsKeepInv(states, steps, n);
    assert JobOk(states[n], states[n].jobs[job]);
  }

  /** The machine with one more move, `None`: sweeping the wheel in the middle of a batch. */
  ghost predicate MayMove(s: State, move: Option<Step>) {
    match move
    case None => s.loop.Batch? && s.loop.todo.timer
    case Some(step) => Enabled(s, step)
  }

  ghost function Moved(s: State, move: Option<Step>): State
    requires MayMove(s, move)
  {
    match move
    case None => s.(loop := Sweeping(Todo(s.loop.todo.events, false)))
    case Some(step) => After(s, step)
  }

  ghost predicate IsEagerRun(states: seq<State>, moves: seq<Option<Step>>) {
    && |states| == |moves| + 1 && Init(states[0])
    && forall i :: 0 <= i < |moves| ==> MayMove(states[i], moves[i]) && states[i + 1] == Moved(states[i], moves[i])
  }

  lemma Goes(states: seq<State>, moves: seq<Option<Step>>, move: Option<Step>)
    returns (states': seq<State>, moves': seq<Option<Step>>)
    requires IsEagerRun(states, moves) && MayMove(states[|moves|], move)
    ensures IsEagerRun(states', moves') && states'[|moves'|] == Moved(states[|moves|], move)
  {
    states', moves' := states + [Moved(states[|moves|], move)], moves + [move];
    forall i | 0 <= i < |moves'|
      ensures MayMove(states'[i], moves'[i]) && states'[i + 1] == Moved(states'[i], moves'[i])
    {
      if i < |moves| {
        assert states'[i] == states[i] && states'[i + 1] == states[i + 1] && moves'[i] == moves[i];
      }
    }
  }

  /** One client, alone in the server. */
  function OneClient(fd: int, serial: nat, loop: Loop): State {
    State(map[fd := serial], {fd}, map[fd := serial], NO_SESSIONS, map[], map[], loop, serial + 1, 0)
  }

  function Empty(serial: nat, loop: Loop): State {
    State(map[], {}, map[], NO_SESSIONS, map[], map[], loop, serial, 0)
  }

  /** A client connects to an empty server, whatever fd it gets. */
  lemma Connects(states: seq<State>, moves: seq<Option<Step>>, fd: nat, serial: nat, todo: Todo)
    returns (states': seq<State>, moves': seq<Option<Step>>)
    requires IsEagerRun(states, moves) && states[|moves|] == Empty(serial, Batch(todo))
    requires todo.events != [] && todo.events[0].Listen?
    ensures IsEagerRun(states', moves') && states'[|moves'|] == OneClient(fd, serial, Batch(Rest(todo)))
  {
    hide IsEagerRun;
    states', moves' := Goes(states, moves, Some(Accept(fd)));
    states', moves' := Goes(states', moves', Some(Watch(true)));
    states', moves' := Goes(states', moves', Some(Track(true)));
  }

  /** The only client expires while `todo` waits. */
  lemma Expires(states: seq<State>, moves: seq<Option<Step>>, fd: nat, todo: Todo)
    returns (states': seq<State>, moves': seq<Option<Step>>)
    requires IsEagerRun(states, moves) && states[|moves|] == OneClient(fd, 0, Sweeping(todo)) && todo.events != []
    ensures IsEagerRun(states', moves') && states'[|moves'|] == Empty(1, Batch(todo))
  {
    hide IsEagerRun;
    states', moves' := Goes(states, moves, Some(Expire(fd)));
    states', moves' := Goes(states', moves', Some(ExpireStep));
    states', moves' := Goes(states', moves', Some(ExpireStep));
    states', moves' := Goes(states', moves', Some(ExpireStep));
    states', moves' := Goes(states', moves', Some(EndSweep));
  }

  lemma Starts() returns (states: seq<State>, moves: seq<Option<Step>>)
    ensures IsEagerRun(states, moves) && states[|moves|] == Empty(0, Batch(Todo([Listen], false)))
  {
    states, moves := [Empty(0, Waiting)], [];
    states, moves := Goes(states, moves, Some(Wake([Listen], false)));
  }

  /** Sweeping the wheel in the middle of a batch would not do: in this run an idle client
      expires while an event for it is still to be handled, the next client gets its fd, and
      the event that is handled next is taken for one of the new connection. */
  lemma SweepWaitsForBatchEnd(fd: nat) returns (states: seq<State>, moves: seq<Option<Step>>)
    ensures IsEagerRun(states, moves)
    ensures var s := states[|moves|];
      && NextIsClient(s) && s.loop.todo.events[0].fd in s.open
      && s.open[s.loop.todo.events[0].fd] != s.loop.todo.events[0].serial
  {
    hide IsEagerRun;
    states, moves := Starts();
    states, moves := Connects(states, moves, fd, 0, Todo([Listen], false));
    states, moves := Goes(states, moves, Some(EndBatch));
    states, moves := Goes(states, moves, Some(Wake([Listen, Client(fd, 0)], true)));
    states, moves := Goes(states, moves, None);
    states, moves := Expires(states, moves, fd, Todo([Listen, Client(fd, 0)], false));
    states, moves := Connects(states, moves, fd, 1, Todo([Listen, Client(fd, 0)], false));
  }
}

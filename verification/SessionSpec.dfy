/** The session table as a relation: which sessions exist, and which fd is bound to which. */
module SessionSpec {
  import opened Basics

  const SESSION_ID_SIZE := 16
  const USERNAME_SIZE := 64

  /** `session_id_t`, an opaque run of bytes; all zero bytes stand for "no session". */
  type SessionId = bytes: seq<Byte> | |bytes| == SESSION_ID_SIZE 
    witness [0, 0, 0, 0, 0, 0, 0, 0, 0, 0, 0, 0, 0, 0, 0, 0]

  const EMPTY_ID: SessionId := [0, 0, 0, 0, 0, 0, 0, 0, 0, 0, 0, 0, 0, 0, 0, 0]

  /** `session_context_t` */
  datatype Context = Context(userId: nat, cwdId: nat, username: string, cwd: string)

  datatype Table = Table(sessions: map<SessionId, Context>, bindings: map<int, SessionId>) {

    /** No session has the empty id, every binding leads to a session, and every session
        has a binding. */
    ghost predicate Ok() {
      && EMPTY_ID !in sessions
      && (forall fd :: fd in bindings ==> fd >= 0 && bindings[fd] in sessions)
      && (forall id :: id in sessions ==> AnyBound(bindings, id))
    }
  }

  const NO_SESSIONS := Table(map[], map[])

  predicate ValidUsername(username: string) {
    0 < |username| < USERNAME_SIZE
  }

  predicate ValidCwd(cwd: string) {
    0 < |cwd| < PATH_MAX && cwd[0] == '/'
  }

  /** The outcome of one attempt at an id: no random bytes or clock, or the bytes. */
  type Draw = Option<SessionId>

  /** The id that the attempts of `session_create` settle on: the first one that is not in
      use, unless an attempt before it fails or draws the empty id. */
  function Chosen(sessions: map<SessionId, Context>, draws: seq<Draw>): Option<SessionId> {
    if draws == [] || draws[0].None? || draws[0].value == EMPTY_ID then None
    else if draws[0].value in sessions then Chosen(sessions, draws[1..])
    else draws[0]
  }

  /** `session_create` */
  function Create(t: Table, fd: int, userId: nat, username: string, rootId: nat, draws: seq<Draw>)
    : (result: (Table, Option<SessionId>))
  {
    if fd < 0 || !ValidUsername(username) || fd in t.bindings then (t, None)
    else match Chosen(t.sessions, draws)
      case None => (t, None)
      case Some(id) =>
        (Table(t.sessions[id := Context(userId, rootId, username, "/")], t.bindings[fd := id]), Some(id))
  }

  /** `session_authorize`; `memory` says whether a binding can be allocated. */
  function Authorize(t: Table, fd: int, id: SessionId, memory: bool): (result: (Table, Option<Context>)) {
    if fd < 0 || id == EMPTY_ID || id !in t.sessions then (t, None)
    else if fd in t.bindings then
      if t.bindings[fd] == id then (t, Some(t.sessions[id])) else (t, None)
    else if !memory then (t, None)
    else (t.(bindings := t.bindings[fd := id]), Some(t.sessions[id]))
  }

  /** `session_update_cwd` */
  function UpdateCwd(t: Table, fd: int, id: SessionId, cwdId: nat, cwd: string): (result: (Table, bool)) {
    if fd < 0 || id == EMPTY_ID || !ValidCwd(cwd) || id !in t.sessions
       || fd !in t.bindings || t.bindings[fd] != id then (t, false)
    else (t.(sessions := t.sessions[id := t.sessions[id].(cwdId := cwdId, cwd := cwd)]), true)
  }

  ghost predicate AnyBound(bindings: map<int, SessionId>, id: SessionId) {
    exists fd :: fd in bindings && bindings[fd] == id
  }

  /** `session_detach_fd`: the session goes with its last connection. */
  ghost function Detach(t: Table, fd: int): (result: Table) {
    if fd !in t.bindings then t
    else
      var id := t.bindings[fd];
      var bindings := t.bindings - {fd};
      if AnyBound(bindings, id) then t.(bindings := bindings)
      else Table(t.sessions - {id}, bindings)
  }

  datatype Call =
    | CreateCall(fd: int, userId: nat, username: string, rootId: nat, draws: seq<Draw>)
    | AuthorizeCall(fd: int, id: SessionId, memory: bool)
    | UpdateCwdCall(fd: int, id: SessionId, cwdId: nat, cwd: string)
    | DetachCall(fd: int)

  ghost function Apply(t: Table, call: Call): Table {
    match call
    case CreateCall(fd, userId, username, rootId, draws) => Create(t, fd, userId, username, rootId, draws).0
    case AuthorizeCall(fd, id, memory) => Authorize(t, fd, id, memory).0
    case UpdateCwdCall(fd, id, cwdId, cwd) => UpdateCwd(t, fd, id, cwdId, cwd).0
    case DetachCall(fd) => Detach(t, fd)
  }

  ghost function After(calls: seq<Call>): Table {
    if calls == [] then NO_SESSIONS else Apply(After(calls[..|calls| - 1]), calls[|calls| - 1])
  }

  /** Attempt k is the first to draw an id that is not in use, and none before it failed. */
  ghost predicate SettlesAt(sessions: map<SessionId, Context>, draws: seq<Draw>, k: int) {
    && 0 <= k < |draws| && draws[k].Some? && draws[k].value != EMPTY_ID && draws[k].value !in sessions
    && forall j :: 0 <= j < k ==> draws[j].Some? && draws[j].value != EMPTY_ID && draws[j].value in sessions
  }

  /** `session_create` settles on an id exactly when some attempt finds an unused one
      before any attempt fails, and it takes that one. */
  lemma {:induction false} ChosenIsFresh(sessions: map<SessionId, Context>, draws: seq<Draw>)
    ensures forall k :: SettlesAt(sessions, draws, k) ==> Chosen(sessions, draws) == draws[k]
    ensures Chosen(sessions, draws).Some? ==> exists k :: SettlesAt(sessions, draws, k)
  {
    if draws != [] && draws[0].Some? && draws[0].value != EMPTY_ID {
      if draws[0].value in sessions {
        var rest := draws[1..];
        ChosenIsFresh(sessions, rest);
        forall k | SettlesAt(sessions, draws, k) ensures Chosen(sessions, draws) == draws[k] {
          assert SettlesAt(sessions, rest, k - 1);
        }
        if Chosen(sessions, rest).Some? {
          var k :| SettlesAt(sessions, rest, k);
          assert forall j :: 0 < j < k + 1 ==> draws[j] == rest[j - 1];
          assert SettlesAt(sessions, draws, k + 1);
        }
      } else {
        assert SettlesAt(sessions, draws, 0);
      }
    }
  }

  lemma OpeningKeepsOk(t: Table, fd: int, id: SessionId, context: Context)
    requires t.Ok() && fd >= 0 && fd !in t.bindings && id !in t.sessions && id != EMPTY_ID
    ensures Table(t.sessions[id := context], t.bindings[fd := id]).Ok()
  {
    var t' := Table(t.sessions[id := context], t.bindings[fd := id]);
    assert t'.bindings[fd] == id;
    forall id' | id' in t.sessions ensures AnyBound(t'.bindings, id') {
      var fd' :| fd' in t.bindings && t.bindings[fd'] == id';
      assert t'.bindings[fd'] == id';
    }
  }

  lemma AuthorizingKeepsOk(t: Table, fd: int, id: SessionId)
    requires t.Ok() && fd >= 0 && fd !in t.bindings && id in t.sessions
    ensures t.(bindings := t.bindings[fd := id]).Ok()
  {
    var t' := t.(bindings := t.bindings[fd := id]);
    forall id' | id' in t.sessions ensures AnyBound(t'.bindings, id') {
      var fd' :| fd' in t.bindings && t.bindings[fd'] == id';
      assert t'.bindings[fd'] == id';
    }
  }

  lemma UpdatingKeepsOk(t: Table, id: SessionId, context: Context)
    requires t.Ok() && id in t.sessions
    ensures t.(sessions := t.sessions[id := context]).Ok()
  {
  }

  /** Every call keeps the relation sound. */
  lemma ApplyKeepsOk(t: Table, call: Call)
    requires t.Ok()
    ensures Apply(t, call).Ok()
  {
    var t' := Apply(t, call);
    if call.CreateCall? {
      ChosenIsFresh(t.sessions, call.draws);
    }
    forall id | id in t'.sessions ensures AnyBound(t'.bindings, id) {
      if id in t.sessions {
        var fd :| fd in t.bindings && t.bindings[fd] == id;
        assert call != DetachCall(fd) ==> fd in t'.bindings && t'.bindings[fd] == id;
      } else {
        assert t'.bindings[call.fd] == id;
      }
    }
  }

  lemma DetachingKeepsOk(t: Table, fd: int)
    requires t.Ok()
    ensures Detach(t, fd).Ok()
    ensures fd < 0 ==> Detach(t, fd) == t
  {
    ApplyKeepsOk(t, DetachCall(fd));
  }

  /** Only a detach of that fd takes a binding away or changes it, and a session lives
      on as long as one of its bindings does. */
  lemma BindingsAreStable(t: Table, call: Call, fd: int)
    requires t.Ok() && fd in t.bindings && call != DetachCall(fd)
    ensures fd in Apply(t, call).bindings && Apply(t, call).bindings[fd] == t.bindings[fd]
    ensures t.bindings[fd] in Apply(t, call).sessions
  {
    ApplyKeepsOk(t, call);
  }

  lemma {:induction false} RunsAreOk(calls: seq<Call>)
    ensures After(calls).Ok()
  {
    if calls != [] {
      RunsAreOk(calls[..|calls| - 1]);
      ApplyKeepsOk(After(calls[..|calls| - 1]), calls[|calls| - 1]);
    }
  }

  /** The directory that the calls so far have last given to a session. */
  ghost function LatestCwd(calls: seq<Call>, id: SessionId): Option<(nat, string)> {
    if calls == [] then None
    else
      var before, last := After(calls[..|calls| - 1]), calls[|calls| - 1];
      match last
      case CreateCall(fd, userId, username, rootId, draws) =>
        if Create(before, fd, userId, username, rootId, draws).1 == Some(id) then Some((rootId, "/"))
        else LatestCwd(calls[..|calls| - 1], id)
      case UpdateCwdCall(fd, id', cwdId, cwd) =>
        if id' == id && UpdateCwd(before, fd, id', cwdId, cwd).1 then Some((cwdId, cwd))
        else LatestCwd(calls[..|calls| - 1], id)
      case _ => LatestCwd(calls[..|calls| - 1], id)
  }

  /** Whichever connection asks, it sees the directory that any of them set last. */
  lemma {:induction false} AuthorizeSeesLatestCwd(calls: seq<Call>, fd: int, id: SessionId, memory: bool)
    ensures id in After(calls).sessions ==>
      LatestCwd(calls, id) == Some((After(calls).sessions[id].cwdId, After(calls).sessions[id].cwd))
    ensures var context := Authorize(After(calls), fd, id, memory).1;
      context.Some? ==> LatestCwd(calls, id) == Some((context.value.cwdId, context.value.cwd))
  {
    if calls != [] {
      AuthorizeSeesLatestCwd(calls[..|calls| - 1], fd, id, memory);
      var before, last := After(calls[..|calls| - 1]), calls[|calls| - 1];
      if last.CreateCall? {
        ChosenIsFresh(before.sessions, last.draws);
      }
    }
  }

  /** The user for whom a session was opened, by the call that opened it. */
  ghost function Owner(calls: seq<Call>, id: SessionId): Option<(nat, string)> {
    if calls == [] then None
    else
      var before, last := After(calls[..|calls| - 1]), calls[|calls| - 1];
      if last.CreateCall? && Create(before, last.fd, last.userId, last.username, last.rootId, last.draws).1 == Some(id)
      then Some((last.userId, last.username))
      else Owner(calls[..|calls| - 1], id)
  }

  /** Whoever is authorized acts for the user that opened the session, whatever happened since. */
  lemma {:induction false} AuthorizeSeesOwner(calls: seq<Call>, fd: int, id: SessionId, memory: bool)
    ensures id in After(calls).sessions ==>
      Owner(calls, id) == Some((After(calls).sessions[id].userId, After(calls).sessions[id].username))
    ensures var context := Authorize(After(calls), fd, id, memory).1;
      context.Some? ==> Owner(calls, id) == Some((context.value.userId, context.value.username))
  {
    if calls != [] {
      AuthorizeSeesOwner(calls[..|calls| - 1], fd, id, memory);
      var before, last := After(calls[..|calls| - 1]), calls[|calls| - 1];
      if last.CreateCall? {
        ChosenIsFresh(before.sessions, last.draws);
      }
    }
  }

  /** A call that fails leaves everything as it was. */
  lemma FailuresChangeNothing(t: Table, call: Call)
    requires t.Ok()
    ensures call.CreateCall? && Create(t, call.fd, call.userId, call.username, call.rootId, call.draws).1.None? ==>
      Apply(t, call) == t
    ensures call.AuthorizeCall? && Authorize(t, call.fd, call.id, call.memory).1.None? ==> Apply(t, call) == t
    ensures call.UpdateCwdCall? && !UpdateCwd(t, call.fd, call.id, call.cwdId, call.cwd).1 ==> Apply(t, call) == t
  {
  }

  /** An id is authorized on an fd exactly if its session is there and the fd is bound to it
      already or is bound to none and a binding can be allocated. It is bound to it then. */
  lemma AuthorizesIff(t: Table, fd: int, id: SessionId, memory: bool)
    requires t.Ok()
    ensures var (t', context) := Authorize(t, fd, id, memory);
      && (context.Some? <==> fd >= 0 && id in t.sessions && if fd in t.bindings then t.bindings[fd] == id else memory)
      && (context.Some? ==> context.value == t.sessions[id] && t' == Table(t.sessions, t.bindings[fd := id]))
      && (context.None? ==> t' == t)
  {
    assert fd in t.bindings && t.bindings[fd] == id ==> t.bindings[fd := id] == t.bindings;
  }

  /** A session is opened exactly if the fd is new, the name fits and some attempt settles on an
      id; it has this one binding and starts in the root. */
  lemma CreatesIff(t: Table, fd: int, userId: nat, username: string, rootId: nat, draws: seq<Draw>)
    requires t.Ok()
    ensures var (t', id) := Create(t, fd, userId, username, rootId, draws);
      && (id.Some? <==>
            fd >= 0 && fd !in t.bindings && 0 < |username| < 64 && exists k :: SettlesAt(t.sessions, draws, k))
      && (id.Some? ==>
            && id.value !in t.sessions && id.value != EMPTY_ID && t'.bindings == t.bindings[fd := id.value]
            && t'.sessions == t.sessions[id.value := Context(userId, rootId, username, "/")])
      && (id.None? ==> t' == t)
  {
    ChosenIsFresh(t.sessions, draws);
  }

  /** A directory is set exactly if the fd is bound to the session and the path is absolute and
      fits; it is all that changes. */
  lemma UpdatesIff(t: Table, fd: int, id: SessionId, cwdId: nat, cwd: string)
    requires t.Ok()
    ensures var (t', ok) := UpdateCwd(t, fd, id, cwdId, cwd);
      && (ok <==> fd in t.bindings && t.bindings[fd] == id && 0 < |cwd| < PATH_MAX && cwd[0] == '/')
      && (ok ==>
            && t'.bindings == t.bindings && t'.sessions.Keys == t.sessions.Keys
            && (forall other :: other in t.sessions && other != id ==> t'.sessions[other] == t.sessions[other])
            && t'.sessions[id] == Context(t.sessions[id].userId, cwdId, t.sessions[id].username, cwd))
      && (!ok ==> t' == t)
  {
  }

  /** Detaching takes this one binding away, and exactly those sessions that had no other. */
  lemma DetachesExactly(t: Table, fd: int)
    requires t.Ok()
    ensures var t' := Detach(t, fd);
      && t'.bindings == t.bindings - {fd}
      && (forall id :: id in t'.sessions <==>
            id in t.sessions && exists other :: other != fd && other in t.bindings && t.bindings[other] == id)
      && (forall id :: id in t'.sessions ==> t'.sessions[id] == t.sessions[id])
  {
    var t' := Detach(t, fd);
    DetachingKeepsOk(t, fd);
    if fd !in t.bindings {
      assert t.bindings - {fd} == t.bindings;
    }
    forall id ensures id in t'.sessions <==>
      id in t.sessions && exists other :: other != fd && other in t.bindings && t.bindings[other] == id
    {
      forall other | other != fd && other in t.bindings && t.bindings[other] == id ensures id in t'.sessions {
        assert other in t'.bindings && t'.bindings[other] == id;
      }
      if id in t'.sessions {
        assert AnyBound(t'.bindings, id);
        var other :| other in t'.bindings && t'.bindings[other] == id;
        assert other != fd && other in t.bindings && t.bindings[other] == id;
      }
    }
  }

  /** What is bound stays authorized, for whatever calls follow, until it detaches. */
  lemma {:induction false} BoundIsAuthorized(calls: seq<Call>, m: nat, fd: int, id: SessionId, memory: bool)
    requires m <= |calls| && fd in After(calls[..m]).bindings && After(calls[..m]).bindings[fd] == id
    requires DetachCall(fd) !in calls[m..]
    ensures fd in After(calls).bindings && After(calls).bindings[fd] == id
    ensures Authorize(After(calls), fd, id, memory).1.Some?
    decreases |calls|
  {
    RunsAreOk(calls);
    if m == |calls| {
      assert calls[..m] == calls;
    } else {
      var front, last := calls[..|calls| - 1], calls[|calls| - 1];
      assert front[..m] == calls[..m] && last in calls[m..];
      assert forall call :: call in front[m..] ==> call in calls[m..];
      BoundIsAuthorized(front, m, fd, id, memory);
      RunsAreOk(front);
      BindingsAreStable(After(front), last, fd);
    }
    AuthorizesIff(After(calls), fd, id, memory);
  }

  lemma AfterNext(calls: seq<Call>, m: nat)
    requires m < |calls|
    ensures After(calls[..m + 1]) == Apply(After(calls[..m]), calls[m])
  {
    assert calls[..m + 1][..m] == calls[..m] && calls[..m + 1][m] == calls[m];
  }

  /** After a login its connection is authorized for the session it got, as the user who logged
      in, until it detaches. */
  lemma LoginIsAuthorized(calls: seq<Call>, m: nat, id: SessionId, memory: bool)
    requires m < |calls| && calls[m].CreateCall? && DetachCall(calls[m].fd) !in calls[m + 1..]
    requires var login := calls[m];
      Create(After(calls[..m]), login.fd, login.userId, login.username, login.rootId, login.draws).1 == Some(id)
    ensures var login, context := calls[m], Authorize(After(calls), calls[m].fd, id, memory).1;
      context.Some? && context.value.userId == login.userId && context.value.username == login.username
  {
    hide After, Create, Authorize;
    var login := calls[m];
    AfterNext(calls, m);
    RunsAreOk(calls[..m]);
    RunsAreOk(calls);
    AuthorizesIff(After(calls), login.fd, id, memory);
    CreatesIff(After(calls[..m]), login.fd, login.userId, login.username, login.rootId, login.draws);
    BoundIsAuthorized(calls, m + 1, login.fd, id, memory);
    OwnerStays(calls, m + 1, login.fd, id);
  }

  /** A connection that has been authorized once stays so, as the same user, until it detaches,
      memory or not. */
  lemma JoinIsAuthorized(calls: seq<Call>, m: nat, memory: bool)
    requires m < |calls| && calls[m].AuthorizeCall? && DetachCall(calls[m].fd) !in calls[m + 1..]
    requires Authorize(After(calls[..m]), calls[m].fd, calls[m].id, calls[m].memory).1.Some?
    ensures var join := calls[m];
      var was := Authorize(After(calls[..m]), join.fd, join.id, join.memory).1.value;
      var now := Authorize(After(calls), join.fd, join.id, memory).1;
      now.Some? && now.value.userId == was.userId && now.value.username == was.username
  {
    hide After, Authorize;
    var join := calls[m];
    AfterNext(calls, m);
    RunsAreOk(calls[..m]);
    RunsAreOk(calls);
    AuthorizesIff(After(calls), join.fd, join.id, memory);
    AuthorizesIff(After(calls[..m]), join.fd, join.id, join.memory);
    BoundIsAuthorized(calls, m + 1, join.fd, join.id, memory);
    OwnerStays(calls, m + 1, join.fd, join.id);
  }

  /** Once a connection has detached it is bound to nothing, and its session is gone exactly if no
      other connection has it; the other connections keep theirs. */
  lemma DetachedIsFree(calls: seq<Call>, m: nat)
    requires m < |calls| && calls[m].DetachCall?
    ensures var t, t', fd := After(calls[..m]), After(calls[..m + 1]), calls[m].fd;
      && t'.bindings == t.bindings - {fd}
      && (fd in t.bindings ==>
            (t.bindings[fd] !in t'.sessions <==>
               forall other :: other in t.bindings && other != fd ==> t.bindings[other] != t.bindings[fd]))
  {
    AfterNext(calls, m);
    RunsAreOk(calls[..m]);
    DetachesExactly(After(calls[..m]), calls[m].fd);
  }

  lemma {:induction false} OwnerStays(calls: seq<Call>, m: nat, fd: int, id: SessionId)
    requires m <= |calls| && fd in After(calls[..m]).bindings && After(calls[..m]).bindings[fd] == id
    requires DetachCall(fd) !in calls[m..]
    ensures id in After(calls[..m]).sessions && id in After(calls).sessions
    ensures var was, now := After(calls[..m]).sessions[id], After(calls).sessions[id];
      now.userId == was.userId && now.username == was.username
    decreases |calls|
  {
    RunsAreOk(calls[..m]);
    if m == |calls| {
      assert calls[..m] == calls;
    } else {
      var front, last := calls[..|calls| - 1], calls[|calls| - 1];
      assert front[..m] == calls[..m] && last in calls[m..];
      assert forall call :: call in front[m..] ==> call in calls[m..];
      OwnerStays(front, m, fd, id);
      BoundIsAuthorized(front, m, fd, id, true);
      RunsAreOk(front);
      BindingsAreStable(After(front), last, fd);
      if last.CreateCall? {
        ChosenIsFresh(After(front).sessions, last.draws);
      }
    }
  }
}

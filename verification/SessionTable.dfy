/** The server's session table: sessions in a hash table by id, bindings in a hash table by
    fd, and the bindings of each session in a list of its own. */
module SessionTable {
  import opened Basics
  import opened ListContents
  import opened SessionSpec

  const BUCKET_COUNT: nat := 1024
  const GENERATION_ATTEMPTS := 8

  function HashFd(fd: int): (bucket: nat)
    ensures bucket < BUCKET_COUNT
  {
    fd % BUCKET_COUNT
  }

  function Fnv(bytes: seq<Byte>, hash: bv64): bv64 {
    if bytes == [] then hash else Fnv(bytes[1..], (hash ^ (bytes[0] as bv64)) * 1099511628211)
  }

  function HashSessionId(id: SessionId): (bucket: nat)
    ensures bucket < BUCKET_COUNT
  {
    (Fnv(id, 1469598103934665603) as int) % BUCKET_COUNT
  }

  class Session {
    const id: SessionId
    var userId: nat
    var cwdId: nat
    var username: string
    var cwd: string
    var connectionCount: nat
    var connections: Binding?
    var hashNext: Session?

    constructor (id: SessionId, userId: nat, username: string, rootId: nat)
      ensures this.id == id && connectionCount == 0 && connections == null && hashNext == null
      ensures ToContext() == Context(userId, rootId, username, "/")
    {
      this.id, this.userId, this.username, cwdId, cwd := id, userId, username, rootId, "/";
      connectionCount, connections, hashNext := 0, null, null;
    }

    /** `copy_context` */
    function ToContext(): Context
      reads `userId, `cwdId, `username, `cwd
    {
      Context(userId, cwdId, username, cwd)
    }
  }

  class Binding {
    const clientFd: int
    const session: Session
    var fdNext: Binding?
    var sessionNext: Binding?

    constructor (clientFd: int, session: Session)
      ensures this.clientFd == clientFd && this.session == session && fdNext == null && sessionNext == null
    {
      this.clientFd, this.session, fdNext, sessionNext := clientFd, session, null, null;
    }
  }

  ghost function BindingAt(list: seq<Binding>, i: nat): Binding? {
    if i < |list| then list[i] else null
  }

  ghost function SessionAt(list: seq<Session>, i: nat): Session? {
    if i < |list| then list[i] else null
  }

  ghost predicate FdLink(list: seq<Binding>, i: nat)
    requires i < |list|
    reads list`fdNext
  {
    list[i].fdNext == BindingAt(list, i + 1)
  }

  ghost predicate FdChain(list: seq<Binding>, head: Binding?)
    reads list`fdNext
  {
    && head == BindingAt(list, 0) && NoRepeats(list)
    && forall i :: 0 <= i < |list| ==> FdLink(list, i)
  }

  ghost predicate ConnectionLink(list: seq<Binding>, i: nat)
    requires i < |list|
    reads list`sessionNext
  {
    list[i].sessionNext == BindingAt(list, i + 1)
  }

  ghost predicate ConnectionList(list: seq<Binding>, head: Binding?)
    reads list`sessionNext
  {
    && head == BindingAt(list, 0) && NoRepeats(list)
    && forall i :: 0 <= i < |list| ==> ConnectionLink(list, i)
  }

  ghost predicate SessionLink(list: seq<Session>, i: nat)
    requires i < |list|
    reads list`hashNext
  {
    list[i].hashNext == SessionAt(list, i + 1)
  }

  ghost predicate SessionChain(list: seq<Session>, head: Session?)
    reads list`hashNext
  {
    && head == SessionAt(list, 0) && NoRepeats(list)
    && forall i :: 0 <= i < |list| ==> SessionLink(list, i)
  }

  class SessionTable {
    const sessionBuckets: array<Session?>
    const fdBuckets: array<Binding?>

    /** The relation the table stands for. */
    ghost var table: Table
    ghost var sessions: set<Session>
    ghost var bindings: set<Binding>
    ghost var sessionOf: map<SessionId, Session>
    ghost var bindingOf: map<int, Binding>
    ghost var idLinked: set<Session>
    ghost var fdLinked: set<Binding>
    ghost var listed: set<Binding>
    ghost var sessionChains: seq<seq<Session>>
    ghost var fdChains: seq<seq<Binding>>
    ghost var connections: map<Session, seq<Binding>>

    /** Sessions and bindings are found by id and by fd, and `table` says what they hold. */
    ghost predicate IndexValid()
      reads `table, `sessions, `bindings, `sessionOf, `bindingOf
      reads sessions`userId, sessions`cwdId, sessions`username, sessions`cwd
    {
      && (forall s :: s in sessions ==> s.id in sessionOf && sessionOf[s.id] == s)
      && (forall id :: id in sessionOf ==> sessionOf[id] in sessions && sessionOf[id].id == id)
      && (forall b :: b in bindings ==> b.clientFd in bindingOf && bindingOf[b.clientFd] == b && b.session in sessions)
      && (forall fd :: fd in bindingOf ==> bindingOf[fd] in bindings && bindingOf[fd].clientFd == fd)
      && (forall id :: id in table.sessions <==> id in sessionOf)
      && (forall id :: id in sessionOf ==> table.sessions[id] == sessionOf[id].ToContext())
      && (forall fd :: fd in table.bindings <==> fd in bindingOf)
      && (forall fd :: fd in bindingOf ==> table.bindings[fd] == bindingOf[fd].session.id)
    }

    ghost predicate FdBucketOk(n: nat)
      requires n < |fdChains| && n < fdBuckets.Length
      reads `fdChains, `fdLinked, fdBuckets, fdChains[n]`fdNext
    {
      && FdChain(fdChains[n], fdBuckets[n])
      && forall b :: b in fdChains[n] ==> b in fdLinked && HashFd(b.clientFd) == n
    }

    /** The fd chains hold exactly the bindings in `fdLinked`, each in its fd's bucket. */
    ghost predicate FdValid()
      reads `fdChains, `fdLinked, fdBuckets, fdLinked`fdNext
    {
      && fdBuckets.Length == BUCKET_COUNT == |fdChains|
      && (forall n :: 0 <= n < BUCKET_COUNT ==> forall b :: b in fdChains[n] ==> b in fdLinked)
      && (forall b :: b in fdLinked ==> b in fdChains[HashFd(b.clientFd)])
      && forall n :: 0 <= n < BUCKET_COUNT ==> FdBucketOk(n)
    }

    ghost predicate SessionBucketOk(n: nat)
      requires n < |sessionChains| && n < sessionBuckets.Length
      reads `sessionChains, `idLinked, sessionBuckets, sessionChains[n]`hashNext
    {
      && SessionChain(sessionChains[n], sessionBuckets[n])
      && forall s :: s in sessionChains[n] ==> s in idLinked && HashSessionId(s.id) == n
    }

    /** The session chains hold exactly the sessions in `idLinked`, each in its id's bucket. */
    ghost predicate HashValid()
      reads `sessionChains, `idLinked, sessionBuckets, idLinked`hashNext
    {
      && sessionBuckets.Length == BUCKET_COUNT == |sessionChains|
      && (forall n :: 0 <= n < BUCKET_COUNT ==> forall s :: s in sessionChains[n] ==> s in idLinked)
      && (forall s :: s in idLinked ==> s in sessionChains[HashSessionId(s.id)])
      && forall n :: 0 <= n < BUCKET_COUNT ==> SessionBucketOk(n)
    }

    ghost predicate ConnectionsOk(s: Session)
      requires s in connections
      reads `connections, `listed, s`connections, connections[s]`sessionNext
    {
      && ConnectionList(connections[s], s.connections)
      && forall b :: b in connections[s] ==> b in listed && b.session == s
    }

    /** The connection lists hold exactly the bindings in `listed`, each in its session's list. */
    ghost predicate ConnectionsValid()
      reads `connections, `listed, connections.Keys`connections, listed`sessionNext
    {
      && (forall s :: s in connections ==> forall b :: b in connections[s] ==> b in listed)
      && (forall b :: b in listed ==> b.session in connections && b in connections[b.session])
      && forall s :: s in connections ==> ConnectionsOk(s)
    }

    /** Every count is the length of its list, and only `bare` may have no connection. */
    ghost predicate CountValid(bare: Session?)
      reads `connections, connections.Keys`connectionCount
    {
      forall s :: s in connections ==>
        s.connectionCount == |connections[s]| && (s != bare ==> s.connectionCount > 0)
    }

    ghost predicate Valid()
      reads this, sessionBuckets, fdBuckets, sessions, bindings, idLinked, fdLinked, listed, connections.Keys
    {
      && IndexValid() && FdValid() && HashValid() && ConnectionsValid() && CountValid(null)
      && fdLinked == bindings && listed == bindings && idLinked == sessions && connections.Keys == sessions
      && table.Ok()
    }

    constructor ()
      ensures Valid() && table == NO_SESSIONS
      ensures fresh(sessionBuckets) && fresh(fdBuckets) && sessions == {} && bindings == {}
    {
      sessionBuckets := new Session?[BUCKET_COUNT](_ => null);
      fdBuckets := new Binding?[BUCKET_COUNT](_ => null);
      table, sessions, bindings, sessionOf, bindingOf := NO_SESSIONS, {}, {}, map[], map[];
      sessionChains, fdChains := seq(BUCKET_COUNT, _ => []), seq(BUCKET_COUNT, _ => []);
      connections, idLinked, fdLinked, listed := map[], {}, {}, {};
      new;
      forall n | 0 <= n < BUCKET_COUNT ensures FdBucketOk(n) && SessionBucketOk(n) {
      }
    }

    method FindSession(id: SessionId) returns (session: Session?)
      requires IndexValid() && HashValid() && idLinked == sessions
      ensures session == if id in sessionOf then sessionOf[id] else null
      ensures session == null <==> id !in table.sessions
      ensures session != null ==> session in sessions && session.id == id && session.ToContext() == table.sessions[id]
    {
      hide HashSessionId;
      assert SessionBucketOk(HashSessionId(id));
      session := sessionBuckets[HashSessionId(id)];
      ghost var chain, k := sessionChains[HashSessionId(id)], 0;
      while session != null
        invariant 0 <= k <= |chain| && session == SessionAt(chain, k)
        invariant forall i :: 0 <= i < k ==> chain[i].id != id
        decreases |chain| - k
      {
        assert SessionLink(chain, k);
        if session.id == id {
          return;
        }
        session, k := session.hashNext, k + 1;
      }
    }

    method FindBinding(fd: int) returns (binding: Binding?)
      requires IndexValid() && FdValid() && fdLinked == bindings
      ensures binding == if fd in bindingOf then bindingOf[fd] else null
      ensures binding == null <==> fd !in table.bindings
      ensures binding != null ==> binding.session in sessions && binding.session.id == table.bindings[fd]
      ensures binding != null ==> binding.session.id in sessionOf && sessionOf[binding.session.id] == binding.session
    {
      assert FdBucketOk(HashFd(fd));
      binding := fdBuckets[HashFd(fd)];
      ghost var chain, k := fdChains[HashFd(fd)], 0;
      while binding != null
        invariant 0 <= k <= |chain| && binding == BindingAt(chain, k)
        invariant forall i :: 0 <= i < k ==> chain[i].clientFd != fd
        decreases |chain| - k
      {
        assert FdLink(chain, k);
        if binding.clientFd == fd {
          return;
        }
        binding, k := binding.fdNext, k + 1;
      }
    }

    method LinkFd(binding: Binding)
      requires FdValid() && binding !in fdLinked
      modifies `fdChains, `fdLinked, fdBuckets, binding`fdNext
      ensures FdValid() && fdLinked == old(fdLinked) + {binding}
    {
      var bucket := HashFd(binding.clientFd);
      assert FdBucketOk(bucket);
      ghost var list := fdChains[bucket];
      binding.fdNext := fdBuckets[bucket];
      fdBuckets[bucket] := binding;
      fdChains, fdLinked := fdChains[bucket := [binding] + list], fdLinked + {binding};
      forall n | 0 <= n < BUCKET_COUNT ensures FdBucketOk(n) {
        assert old(FdBucketOk(n));
        forall i | 0 <= i < |fdChains[n]| ensures FdLink(fdChains[n], i) {
          assert n != bucket ==> old(FdLink(fdChains[n], i));
          assert n == bucket && i > 0 ==> old(FdLink(list, i - 1));
          assert fdChains[n][i] in fdChains[n];
        }
      }
    }

    method LinkConnection(binding: Binding)
      requires ConnectionsValid() && binding !in listed && binding.session in connections
      modifies `connections, `listed, binding.session`connections, binding`sessionNext
      ensures ConnectionsValid() && listed == old(listed) + {binding}
      ensures connections == old(connections)[binding.session := [binding] + old(connections)[binding.session]]
    {
      var session := binding.session;
      assert ConnectionsOk(session);
      ghost var list := connections[session];
      binding.sessionNext := session.connections;
      session.connections := binding;
      connections, listed := connections[session := [binding] + list], listed + {binding};
      forall s | s in connections ensures ConnectionsOk(s) {
        assert old(ConnectionsOk(s));
        forall i | 0 <= i < |connections[s]| ensures ConnectionLink(connections[s], i) {
          assert s != session ==> old(ConnectionLink(connections[s], i));
          assert s == session && i > 0 ==> old(ConnectionLink(list, i - 1));
          assert connections[s][i] in connections[s];
        }
      }
    }

    method LinkSession(session: Session)
      requires HashValid() && session !in idLinked
      modifies `sessionChains, `idLinked, sessionBuckets, session`hashNext
      ensures HashValid() && idLinked == old(idLinked) + {session}
    {
      hide HashSessionId;
      var bucket := HashSessionId(session.id);
      assert SessionBucketOk(bucket);
      ghost var list := sessionChains[bucket];
      session.hashNext := sessionBuckets[bucket];
      sessionBuckets[bucket] := session;
      sessionChains, idLinked := sessionChains[bucket := [session] + list], idLinked + {session};
      forall n | 0 <= n < BUCKET_COUNT ensures SessionBucketOk(n) {
        assert old(SessionBucketOk(n));
        forall i | 0 <= i < |sessionChains[n]| ensures SessionLink(sessionChains[n], i) {
          assert n != bucket ==> old(SessionLink(sessionChains[n], i));
          assert n == bucket && i > 0 ==> old(SessionLink(list, i - 1));
          assert sessionChains[n][i] in sessionChains[n];
        }
      }
    }

    /** The first loop of `session_detach_fd`: takes the binding of an fd out of its chain. */
    method CutFd(fd: int, ghost list: seq<Binding>, ghost k: nat) returns (binding: Binding?)
      requires fdBuckets.Length == BUCKET_COUNT && FdChain(list, fdBuckets[HashFd(fd)])
      requires k <= |list| && (forall i :: 0 <= i < k ==> list[i].clientFd != fd)
      requires k < |list| ==> list[k].clientFd == fd
      modifies fdBuckets, list`fdNext
      ensures binding == BindingAt(list, k)
      ensures FdChain(if k < |list| then Without(list, k) else list, fdBuckets[HashFd(fd)])
      ensures forall n :: 0 <= n < BUCKET_COUNT && n != HashFd(fd) ==> fdBuckets[n] == old(fdBuckets[n])
    {
      var bucket := HashFd(fd);
      var previous: Binding?, link := null, fdBuckets[bucket];
      ghost var i := 0;
      while link != null && link.clientFd != fd
        invariant 0 <= i <= k && link == BindingAt(list, i)
        invariant previous == if i == 0 then null else list[i - 1]
        decreases k - i
      {
        assert FdLink(list, i);
        previous, link, i := link, link.fdNext, i + 1;
      }
      binding := link;
      if link == null {
        return;
      }
      assert FdLink(list, k);
      if previous == null {
        fdBuckets[bucket] := link.fdNext;
      } else {
        previous.fdNext := link.fdNext;
      }
      WithoutMembers(list, k);
      ghost var rest := Without(list, k);
      forall j | 0 <= j < |rest| ensures FdLink(rest, j) {
        assert old(FdLink(list, if j < k then j else j + 1));
      }
    }

    /** Where the chain of an fd holds its binding. */
    lemma PositionOf(fd: int) returns (k: nat)
      requires IndexValid() && FdValid() && fdLinked == bindings
      ensures var list := fdChains[HashFd(fd)];
        && k <= |list| && (forall i :: 0 <= i < k ==> list[i].clientFd != fd)
        && (k < |list| <==> fd in table.bindings)
        && (k < |list| ==> list[k].clientFd == fd && list[k] in fdLinked)
        && (k < |list| ==> list[k].session in sessions && list[k].session.id == table.bindings[fd])
    {
      hide HashFd;
      var list := fdChains[HashFd(fd)];
      assert FdBucketOk(HashFd(fd));
      assert forall i :: 0 <= i < |list| ==> list[i] in list;
      k := if fd in bindingOf then IndexOf(list, bindingOf[fd]) else |list|;
    }

    method UnlinkFd(fd: int) returns (binding: Binding?)
      requires IndexValid() && FdValid() && fdLinked == bindings
      modifies `fdChains, `fdLinked, fdBuckets, fdLinked`fdNext
      ensures binding == null <==> fd !in table.bindings
      ensures binding != null ==> binding in bindings && binding.clientFd == fd
      ensures binding != null ==> binding.session in sessions && binding.session.id == table.bindings[fd]
      ensures FdValid() && fdLinked == if binding == null then old(fdLinked) else old(fdLinked) - {binding}
    {
      hide HashFd, IndexValid;
      ghost var k := PositionOf(fd);
      var bucket := HashFd(fd);
      assert FdBucketOk(bucket);
      ghost var list := fdChains[bucket];
      binding := CutFd(fd, list, k);
      if k < |list| {
        WithoutMembers(list, k);
        fdChains, fdLinked := fdChains[bucket := Without(list, k)], fdLinked - {binding};
      }
      assert FdChain(fdChains[bucket], fdBuckets[bucket]);
      assert FdBucketOk(bucket) && forall b :: b in fdChains[bucket] ==> b in fdLinked;
      forall n | 0 <= n < BUCKET_COUNT && n != bucket
        ensures FdBucketOk(n) && forall b :: b in fdChains[n] ==> b in fdLinked
      {
        assert old(FdBucketOk(n)) && fdChains[n] == old(fdChains[n]);
        assert forall other :: other in fdChains[n] ==> other !in list;
        forall i | 0 <= i < |fdChains[n]| ensures FdLink(fdChains[n], i) {
          assert old(FdLink(fdChains[n], i));
          assert fdChains[n][i] in fdChains[n];
        }
      }
    }

    /** The second loop: takes a binding out of its session's list. */
    method CutConnection(session: Session, binding: Binding, ghost list: seq<Binding>, ghost k: nat)
      requires ConnectionList(list, session.connections) && k < |list| && list[k] == binding
      modifies session`connections, list`sessionNext
      ensures ConnectionList(Without(list, k), session.connections)
    {
      var previous: Binding?, link := null, session.connections;
      ghost var i := 0;
      while link != null && link != binding
        invariant 0 <= i <= k && link == list[i]
        invariant previous == if i == 0 then null else list[i - 1]
        decreases k - i
      {
        assert ConnectionLink(list, i);
        previous, link, i := link, link.sessionNext, i + 1;
      }
      assert ConnectionLink(list, k);
      if link == binding {
        if previous == null {
          session.connections := binding.sessionNext;
        } else {
          previous.sessionNext := binding.sessionNext;
        }
      }
      WithoutMembers(list, k);
      ghost var rest := Without(list, k);
      forall j | 0 <= j < |rest| ensures ConnectionLink(rest, j) {
        assert old(ConnectionLink(list, if j < k then j else j + 1));
      }
    }

    method UnlinkConnection(binding: Binding)
      requires ConnectionsValid() && binding in listed
      modifies `connections, `listed, binding.session`connections, listed`sessionNext
      ensures ConnectionsValid() && listed == old(listed) - {binding}
      ensures binding.session in old(connections) && binding in old(connections)[binding.session]
      ensures connections == old(connections)[binding.session := Minus(old(connections)[binding.session], binding)]
    {
      var session := binding.session;
      assert ConnectionsOk(session);
      ghost var list := connections[session];
      ghost var k := IndexOf(list, binding);
      CutConnection(session, binding, list, k);
      WithoutMembers(list, k);
      connections, listed := connections[session := Without(list, k)], listed - {binding};
      forall s | s in connections ensures ConnectionsOk(s) {
        assert old(ConnectionsOk(s));
        if s != session {
          assert forall other :: other in connections[s] ==> other !in list;
          forall i | 0 <= i < |connections[s]| ensures ConnectionLink(connections[s], i) {
            assert old(ConnectionLink(connections[s], i));
            assert connections[s][i] in connections[s];
          }
        }
      }
    }

    /** The last loop: takes a session out of its chain. */
    method CutSession(session: Session, ghost list: seq<Session>, ghost k: nat)
      requires sessionBuckets.Length == BUCKET_COUNT && SessionChain(list, sessionBuckets[HashSessionId(session.id)])
      requires k < |list| && list[k] == session
      modifies sessionBuckets, list`hashNext
      ensures SessionChain(Without(list, k), sessionBuckets[HashSessionId(session.id)])
      ensures forall n :: 0 <= n < BUCKET_COUNT && n != HashSessionId(session.id) ==>
        sessionBuckets[n] == old(sessionBuckets[n])
    {
      hide HashSessionId;
      var bucket := HashSessionId(session.id);
      var previous: Session?, link := null, sessionBuckets[bucket];
      ghost var i := 0;
      while link != null && link != session
        invariant 0 <= i <= k && link == list[i]
        invariant previous == if i == 0 then null else list[i - 1]
        decreases k - i
      {
        assert SessionLink(list, i);
        previous, link, i := link, link.hashNext, i + 1;
      }
      assert SessionLink(list, k);
      if link == session {
        if previous == null {
          sessionBuckets[bucket] := session.hashNext;
        } else {
          previous.hashNext := session.hashNext;
        }
      }
      WithoutMembers(list, k);
      ghost var rest := Without(list, k);
      forall j | 0 <= j < |rest| ensures SessionLink(rest, j) {
        assert old(SessionLink(list, if j < k then j else j + 1));
      }
    }

    method UnlinkSession(session: Session)
      requires HashValid() && session in idLinked
      modifies `sessionChains, `idLinked, sessionBuckets, idLinked`hashNext
      ensures HashValid() && idLinked == old(idLinked) - {session}
    {
      hide HashSessionId;
      var bucket := HashSessionId(session.id);
      assert SessionBucketOk(bucket);
      ghost var list := sessionChains[bucket];
      ghost var k := IndexOf(list, session);
      CutSession(session, list, k);
      WithoutMembers(list, k);
      sessionChains, idLinked := sessionChains[bucket := Without(list, k)], idLinked - {session};
      forall n | 0 <= n < BUCKET_COUNT
        ensures SessionBucketOk(n) && forall s :: s in sessionChains[n] ==> s in idLinked
      {
        assert old(SessionBucketOk(n));
        if n != bucket {
          assert forall other :: other in sessionChains[n] ==> other !in list;
          forall i | 0 <= i < |sessionChains[n]| ensures SessionLink(sessionChains[n], i) {
            assert old(SessionLink(sessionChains[n], i));
            assert sessionChains[n][i] in sessionChains[n];
          }
        }
      }
    }


    ghost method AdmitBinding(binding: Binding)
      requires IndexValid() && binding !in bindings
      requires binding.clientFd !in table.bindings && binding.session in sessions
      modifies `table, `bindings, `bindingOf
      ensures IndexValid() && bindings == old(bindings) + {binding}
      ensures table == old(table).(bindings := old(table).bindings[binding.clientFd := binding.session.id])
    {
      table := table.(bindings := table.bindings[binding.clientFd := binding.session.id]);
      bindings, bindingOf := bindings + {binding}, bindingOf[binding.clientFd := binding];
    }

    ghost method AdmitSession(session: Session)
      requires IndexValid() && session !in sessions && session.id !in table.sessions
      modifies `table, `sessions, `sessionOf
      ensures IndexValid() && sessions == old(sessions) + {session}
      ensures table == old(table).(sessions := old(table).sessions[session.id := session.ToContext()])
    {
      table := table.(sessions := table.sessions[session.id := session.ToContext()]);
      sessions, sessionOf := sessions + {session}, sessionOf[session.id := session];
    }

    ghost method FreeBinding(binding: Binding)
      requires IndexValid() && binding in bindings
      modifies `table, `bindings, `bindingOf
      ensures IndexValid() && bindings == old(bindings) - {binding}
      ensures table == old(table).(bindings := old(table).bindings - {binding.clientFd})
    {
      table := table.(bindings := table.bindings - {binding.clientFd});
      bindings, bindingOf := bindings - {binding}, bindingOf - {binding.clientFd};
    }

    ghost method FreeSession(session: Session)
      requires IndexValid() && session in sessions && forall b :: b in bindings ==> b.session != session
      modifies `table, `sessions, `sessionOf
      ensures IndexValid() && sessions == old(sessions) - {session}
      ensures table == old(table).(sessions := old(table).sessions - {session.id})
    {
      table := table.(sessions := table.sessions - {session.id});
      sessions, sessionOf := sessions - {session}, sessionOf - {session.id};
    }

    /** Gives a new session its empty list. */
    ghost method OpenList(session: Session)
      requires ConnectionsValid() && CountValid(null) && session !in connections
      requires session.connections == null && session.connectionCount == 0
      modifies `connections
      ensures ConnectionsValid() && CountValid(session) && connections == old(connections)[session := []]
    {
      connections := connections[session := []];
      forall s | s in connections ensures ConnectionsOk(s) {
        assert s != session ==> old(ConnectionsOk(s));
      }
    }

    /** Takes the empty list of a session away. */
    ghost method CloseList(session: Session)
      requires ConnectionsValid() && CountValid(session) && session in connections && session.connectionCount == 0
      modifies `connections
      ensures ConnectionsValid() && CountValid(null) && connections == old(connections) - {session}
      ensures forall b :: b in listed ==> b.session != session
    {
      connections := connections - {session};
      forall s | s in connections ensures ConnectionsOk(s) {
        assert old(ConnectionsOk(s));
      }
    }

    /** Puts a binding into its session's list and counts it. */
    method AddConnection(binding: Binding, ghost bare: Session?)
      requires ConnectionsValid() && CountValid(bare) && (bare == null || bare == binding.session)
      requires binding !in listed && binding.session in connections
      modifies `connections, `listed, binding`sessionNext
      modifies binding.session`connections, binding.session`connectionCount
      ensures ConnectionsValid() && CountValid(null)
      ensures listed == old(listed) + {binding} && connections.Keys == old(connections.Keys)
    {
      hide ConnectionsValid;
      LinkConnection(binding);
      binding.session.connectionCount := binding.session.connectionCount + 1;
    }

    /** Puts a binding into its fd chain. */
    method Register(binding: Binding)
      requires IndexValid() && FdValid() && fdLinked == bindings
      requires binding !in bindings && binding.clientFd !in table.bindings && binding.session in sessions
      modifies `table, `bindings, `bindingOf, `fdChains, `fdLinked, fdBuckets, binding`fdNext
      ensures IndexValid() && FdValid() && fdLinked == bindings == old(bindings) + {binding}
      ensures table == old(table).(bindings := old(table).bindings[binding.clientFd := binding.session.id])
    {
      hide IndexValid, FdValid;
      AdmitBinding(binding);
      LinkFd(binding);
    }

    /** Puts a binding into both of its lists. */
    method Bind(binding: Binding, ghost bare: Session?)
      requires IndexValid() && FdValid() && ConnectionsValid() && CountValid(bare)
      requires fdLinked == bindings && listed == bindings && connections.Keys == sessions
      requires bare == null || bare == binding.session
      requires binding !in bindings && binding.clientFd !in table.bindings && binding.session in sessions
      modifies `table, `bindings, `bindingOf, `fdChains, `fdLinked, `connections, `listed, fdBuckets
      modifies binding`fdNext, binding`sessionNext, binding.session`connections, binding.session`connectionCount
      ensures IndexValid() && FdValid() && ConnectionsValid() && CountValid(null)
      ensures fdLinked == bindings && listed == bindings && connections.Keys == sessions
      ensures bindings == old(bindings) + {binding}
      ensures table == old(table).(bindings := old(table).bindings[binding.clientFd := binding.session.id])
    {
      hide IndexValid, FdValid, ConnectionsValid, CountValid;
      Register(binding);
      AddConnection(binding, bare);
    }

    /** Puts a new session, without connections yet, into the indexes. */
    method Enter(session: Session)
      requires IndexValid() && HashValid() && ConnectionsValid() && CountValid(null)
      requires idLinked == sessions && connections.Keys == sessions
      requires session !in sessions && session.id !in table.sessions
      requires session.connections == null && session.connectionCount == 0
      modifies `table, `sessions, `sessionOf, `sessionChains, `idLinked, `connections
      modifies sessionBuckets, session`hashNext
      ensures IndexValid() && HashValid() && ConnectionsValid() && CountValid(session)
      ensures idLinked == sessions && connections.Keys == sessions
      ensures sessions == old(sessions) + {session}
      ensures table == old(table).(sessions := old(table).sessions[session.id := session.ToContext()])
    {
      hide IndexValid, HashValid, ConnectionsValid, CountValid;
      AdmitSession(session);
      OpenList(session);
      LinkSession(session);
    }

    /** Puts a new session and its first binding into the lists. */
    method Install(session: Session, binding: Binding)
      requires Valid() && session !in sessions && binding !in bindings && binding.session == session
      requires session.id !in table.sessions && session.id != EMPTY_ID
      requires binding.clientFd >= 0 && binding.clientFd !in table.bindings
      requires session.connections == null && session.connectionCount == 0
      modifies this, fdBuckets, sessionBuckets
      modifies session`hashNext, session`connections, session`connectionCount, binding`fdNext, binding`sessionNext
      ensures Valid() && sessions == old(sessions) + {session} && bindings == old(bindings) + {binding}
      ensures table == Table(old(table).sessions[session.id := session.ToContext()],
                             old(table).bindings[binding.clientFd := session.id])
    {
      hide IndexValid, HashValid, FdValid, ConnectionsValid, CountValid, Table.Ok;
      OpeningKeepsOk(table, binding.clientFd, session.id, session.ToContext());
      Enter(session);
      Bind(binding, session);
    }

    /** The part of `session_create` that runs once an unused id is found. */
    method Open(fd: int, userId: nat, username: string, rootId: nat, id: SessionId)
      requires Valid() && fd >= 0 && fd !in table.bindings && id !in table.sessions && id != EMPTY_ID
      modifies this, fdBuckets, sessionBuckets
      ensures Valid() && fresh(sessions - old(sessions)) && fresh(bindings - old(bindings))
      ensures table == Table(old(table).sessions[id := Context(userId, rootId, username, "/")],
        old(table).bindings[fd := id])
    {
      hide IndexValid, HashValid, FdValid, ConnectionsValid, CountValid, Table.Ok;
      var session := new Session(id, userId, username, rootId);
      var binding := new Binding(fd, session);
      Install(session, binding);
    }

    /** `session_create`; `draws` are the outcomes of its attempts at an id. */
    method Create(fd: int, userId: nat, username: string, rootId: nat, draws: seq<Draw>)
      returns (id: Option<SessionId>)
      requires Valid() && |draws| == GENERATION_ATTEMPTS
      modifies this, fdBuckets, sessionBuckets
      ensures Valid() && fresh(sessions - old(sessions)) && fresh(bindings - old(bindings))
      ensures (table, id) == SessionSpec.Create(old(table), fd, userId, username, rootId, draws)
    {
      hide IndexValid, HashValid, FdValid, ConnectionsValid, CountValid, Table.Ok;
      if fd < 0 || username == "" || |username| >= USERNAME_SIZE {
        return None;
      }
      var attempt := 0;
      assert draws[0..] == draws;
      while attempt < GENERATION_ATTEMPTS
        invariant 0 <= attempt <= GENERATION_ATTEMPTS
        invariant Valid() && table == old(table) && sessions == old(sessions) && bindings == old(bindings)
        invariant Chosen(table.sessions, draws) == Chosen(table.sessions, draws[attempt..])
        invariant attempt > 0 ==> fd !in table.bindings
      {
        if draws[attempt].None? || draws[attempt].value == EMPTY_ID {
          return None;
        }
        var binding := FindBinding(fd);
        if binding != null {
          return None;
        }
        var session := FindSession(draws[attempt].value);
        if session == null {
          Open(fd, userId, username, rootId, draws[attempt].value);
          return draws[attempt];
        }
        assert draws[attempt..][1..] == draws[attempt + 1..];
        attempt := attempt + 1;
      }
      return None;
    }

    /** Binds a further fd to a session. */
    method Attach(fd: int, session: Session)
      requires Valid() && fd >= 0 && fd !in table.bindings && session in sessions && session.id in table.sessions
      modifies `table, `bindings, `bindingOf, `fdChains, `fdLinked, `connections, `listed, fdBuckets
      modifies session`connections, session`connectionCount
      ensures Valid() && fresh(bindings - old(bindings))
      ensures table == old(table).(bindings := old(table).bindings[fd := session.id])
    {
      hide IndexValid, HashValid, FdValid, ConnectionsValid, CountValid, Table.Ok;
      AuthorizingKeepsOk(table, fd, session.id);
      var binding := new Binding(fd, session);
      Bind(binding, null);
    }

    /** `session_authorize`; `memory` says whether a binding can be allocated. */
    method Authorize(fd: int, id: SessionId, memory: bool) returns (context: Option<Context>)
      requires Valid()
      modifies `table, `bindings, `bindingOf, `fdChains, `fdLinked, `connections, `listed, fdBuckets
      modifies sessions`connections, sessions`connectionCount
      ensures Valid() && sessions == old(sessions) && fresh(bindings - old(bindings))
      ensures (table, context) == SessionSpec.Authorize(old(table), fd, id, memory)
    {
      hide IndexValid, HashValid, FdValid, ConnectionsValid, CountValid, Table.Ok;
      if fd < 0 || id == EMPTY_ID {
        return None;
      }
      var session := FindSession(id);
      if session == null {
        return None;
      }
      var binding := FindBinding(fd);
      if binding != null && binding.session != session {
        return None;
      }
      if binding == null {
        if !memory {
          return None;
        }
        Attach(fd, session);
      }
      context := Some(session.ToContext());
    }

    /** Changes the directory of a session. */
    method SetCwd(session: Session, cwdId: nat, cwd: string)
      requires IndexValid() && session in sessions
      modifies `table, session`cwdId, session`cwd
      ensures IndexValid() && session.id in old(table).sessions
      ensures table == old(table).(sessions :=
        old(table).sessions[session.id := old(table).sessions[session.id].(cwdId := cwdId, cwd := cwd)])
    {
      session.cwdId, session.cwd := cwdId, cwd;
      table := table.(sessions := table.sessions[session.id := session.ToContext()]);
    }

    /** `session_update_cwd` */
    method UpdateCwd(fd: int, id: SessionId, cwdId: nat, cwd: string) returns (ok: bool)
      requires Valid()
      modifies `table, sessions`cwdId, sessions`cwd
      ensures Valid()
      ensures (table, ok) == SessionSpec.UpdateCwd(old(table), fd, id, cwdId, cwd)
    {
      hide IndexValid, HashValid, FdValid, ConnectionsValid, CountValid, Table.Ok;
      if fd < 0 || id == EMPTY_ID || cwd == "" || cwd[0] != '/' || |cwd| >= PATH_MAX {
        return false;
      }
      var session := FindSession(id);
      var binding := FindBinding(fd);
      if session == null || binding == null || binding.session != session {
        return false;
      }
      UpdatingKeepsOk(table, id, table.sessions[id].(cwdId := cwdId, cwd := cwd));
      SetCwd(session, cwdId, cwd);
      ok := true;
    }

    /** Takes a binding out of its session's list and counts it off. */
    method RemoveConnection(binding: Binding)
      requires ConnectionsValid() && CountValid(null) && binding in listed
      modifies `connections, `listed, listed`sessionNext
      modifies binding.session`connections, binding.session`connectionCount
      ensures ConnectionsValid() && CountValid(binding.session)
      ensures listed == old(listed) - {binding} && connections.Keys == old(connections.Keys)
      ensures binding.session in connections && binding.session.connectionCount == |connections[binding.session]|
    {
      hide ConnectionsValid;
      UnlinkConnection(binding);
      binding.session.connectionCount := binding.session.connectionCount - 1;
    }

    /** The list of a session is empty exactly when no fd is bound to it. */
    lemma EmptyMeansUnbound(session: Session)
      requires IndexValid() && ConnectionsValid() && listed == bindings
      requires session in sessions && session in connections
      ensures connections[session] == [] <==> !AnyBound(table.bindings, session.id)
    {
      assert ConnectionsOk(session);
      if connections[session] != [] {
        var b := connections[session][0];
        assert b in connections[session] && table.bindings[b.clientFd] == session.id;
      }
      if AnyBound(table.bindings, session.id) {
        var fd :| fd in table.bindings && table.bindings[fd] == session.id;
        assert bindingOf[fd] in connections[session];
      }
    }

    /** Drops a session that has no connection left. */
    method Discard(session: Session)
      requires IndexValid() && HashValid() && ConnectionsValid() && CountValid(session)
      requires idLinked == sessions && connections.Keys == sessions && listed == bindings
      requires session in sessions && session.connectionCount == 0
      modifies `table, `sessions, `sessionOf, `sessionChains, `idLinked, `connections, sessionBuckets, idLinked`hashNext
      ensures IndexValid() && HashValid() && ConnectionsValid() && CountValid(null)
      ensures idLinked == sessions && connections.Keys == sessions && sessions == old(sessions) - {session}
      ensures table == old(table).(sessions := old(table).sessions - {session.id})
    {
      hide IndexValid, HashValid, ConnectionsValid, CountValid;
      UnlinkSession(session);
      CloseList(session);
      FreeSession(session);
    }

    /** Takes a binding that is out of its fd chain out of the table. */
    method Release(binding: Binding)
      requires IndexValid() && ConnectionsValid() && CountValid(null)
      requires listed == bindings && connections.Keys == sessions && binding in bindings
      modifies `table, `bindings, `bindingOf, `connections, `listed, listed`sessionNext
      modifies binding.session`connections, binding.session`connectionCount
      ensures IndexValid() && ConnectionsValid() && CountValid(binding.session)
      ensures listed == bindings == old(bindings) - {binding} && connections.Keys == sessions
      ensures binding.session in sessions &&
        (binding.session.connectionCount == 0 <==> !AnyBound(table.bindings, binding.session.id))
      ensures table == old(table).(bindings := old(table).bindings - {binding.clientFd})
    {
      hide IndexValid, ConnectionsValid, CountValid;
      RemoveConnection(binding);
      FreeBinding(binding);
      EmptyMeansUnbound(binding.session);
    }

    /** `session_detach_fd` */
    method DetachFd(fd: int)
      requires Valid()
      modifies this, fdBuckets, sessionBuckets, sessions, bindings
      ensures Valid() && sessions <= old(sessions) && bindings <= old(bindings)
      ensures table == SessionSpec.Detach(old(table), fd)
    {
      hide IndexValid, HashValid, FdValid, ConnectionsValid, CountValid, Table.Ok;
      DetachingKeepsOk(table, fd);
      if fd < 0 {
        return;
      }
      var binding := UnlinkFd(fd);
      if binding == null {
        return;
      }
      Release(binding);
      if binding.session.connectionCount == 0 {
        Discard(binding.session);
      } else {
        NotBare(binding.session);
      }
    }

    lemma NotBare(session: Session)
      requires CountValid(session) && session.connectionCount > 0
      ensures CountValid(null)
    {
    }

    /** The count of a session is the number of fds bound to it. */
    lemma CountIsBound(session: Session)
      requires Valid() && session in sessions
      ensures session.connectionCount == |set fd | fd in table.bindings && table.bindings[fd] == session.id|
    {
      var list := connections[session];
      assert ConnectionsOk(session);
      var bound := set fd | fd in table.bindings && table.bindings[fd] == session.id;
      forall fd | fd in bound ensures exists b :: b in list && b.clientFd == fd {
        assert bindingOf[fd] in list;
      }
      forall b | b in list ensures b.clientFd in bound {
      }
      SameSize(list, bound);
    }
  }

  lemma {:induction false} SameSize(list: seq<Binding>, fds: set<int>)
    requires NoRepeats(list) && forall b, b' :: b in list && b' in list && b.clientFd == b'.clientFd ==> b == b'
    requires forall b :: b in list ==> b.clientFd in fds
    requires forall fd :: fd in fds ==> exists b :: b in list && b.clientFd == fd
    ensures |list| == |fds|
  {
    if list == [] {
      assert fds == {};
    } else {
      var last, front := list[|list| - 1], list[..|list| - 1];
      assert list == front + [last];
      forall fd | fd in fds - {last.clientFd} ensures exists b :: b in front && b.clientFd == fd {
        var b :| b in list && b.clientFd == fd;
        assert b in front;
      }
      SameSize(front, fds - {last.clientFd});
    }
  }
}

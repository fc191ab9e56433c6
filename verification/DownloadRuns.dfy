/** The download's two ends together, over two channels of bounded length, with a failure
    possible at any point and any number of attempts. */
module DownloadRuns {
  import opened Basics
  import opened FileStream
  import opened Downloads

  /** What the server has: the object, and its size and digest in the database. `exact` marks
      the settings in which these agree and the client's part is a beginning of the object. */
  datatype Setting = Setting(hash: Hash, stored: Bytes, size: nat, sha: string, capacity: Positive, exact: bool)

  ghost predicate Describes(u: Setting) {
    u.size == |u.stored| && u.sha == u.hash(u.stored)
  }

  ghost predicate Agrees(u: Setting) {
    Describes(u) && IsSha(u.sha)
  }

  datatype Server =
    | AwaitRequest
    | AwaitPos
    | Streaming(pos: nat)
    | AwaitAck
    | Closed

  datatype World = World(
    local: Local, client: Client, server: Server,
    up: seq<Body>, upSent: nat, down: seq<Body>, downSent: nat,
    faulty: bool)

  datatype Step =
    | ClientAsks
    | ClientHears(io: Io)
    | ClientFinishes(io: Io)
    | ClientReturns
    | ClientSends
    | ClientSeesClose
    | ClientFails(report: bool)
    | ServerHears(found: bool)              // the metadata, or the object, is found
    | ServerReads
    | ServerSends
    | ServerSeesClose
    | ServerFails
    | Retry

  predicate ClientIdle(w: World) {
    w.upSent == |w.up|
  }

  predicate ServerIdle(w: World) {
    w.downSent == |w.down|
  }

  predicate ClientGone(w: World) {
    w.client.Ended? && ClientIdle(w)
  }

  predicate ServerGone(w: World) {
    w.server.Closed? && ServerIdle(w)
  }

  predicate Over(w: World) {
    ClientGone(w) && ServerGone(w)
  }

  predicate ClientWaits(w: World) {
    (w.client.AwaitInfo? || w.client.Fetching? || w.client.AwaitEnd?) && ClientIdle(w)
  }

  predicate ServerWaits(w: World) {
    (w.server.AwaitRequest? || w.server.AwaitPos? || w.server.AwaitAck?) && ServerIdle(w)
  }

  ghost predicate Init(u: Setting, w: World) {
    && w.client == Starting && w.server == AwaitRequest
    && w.up == w.down == [] && w.upSent == w.downSent == 0 && !w.faulty
    && (u.exact ==> Agrees(u) && PartOf(w.local) <= u.stored)
  }

  ghost predicate Enabled(u: Setting, w: World, step: Step) {
    match step
    case ClientAsks => w.client.Starting?
    case ClientHears(_) => ClientWaits(w) && w.downSent > 0 && |w.down| > 0
    case ClientFinishes(_) => w.client.Verifying? && ClientIdle(w)
    case ClientReturns => w.client.Acking? && ClientIdle(w)
    case ClientSends => w.upSent < |w.up| && w.upSent < u.capacity
    case ClientSeesClose => ServerGone(w) && ((ClientWaits(w) && w.downSent == 0) || !ClientIdle(w))
    case ClientFails(_) => !w.client.Ended?
    case ServerHears(_) => ServerWaits(w) && w.upSent > 0 && |w.up| > 0
    case ServerReads => w.server.Streaming? && ServerIdle(w) && w.server.pos <= |u.stored|
    case ServerSends => w.downSent < |w.down| && w.downSent < u.capacity
    case ServerSeesClose => ClientGone(w) && ((ServerWaits(w) && w.upSent == 0) || !ServerIdle(w))
    case ServerFails => !ServerGone(w)
    case Retry => Over(w)
  }

  /** What the server makes of a packet, and what it replies. */
  function OnRequest(u: Setting, server: Server, body: Body, found: bool): (r: (Server, seq<Body>)) {
    match server
    case AwaitRequest =>
      if body.GetsRequest? && found then (AwaitPos, [GetsInfo(u.size, u.sha)]) else (Closed, [Failure])
    case AwaitPos =>
      if !body.ResumePos? then (Closed, [Failure])
      else if !found || body.offset > |u.stored| then (Closed, [])
      else (Streaming(body.offset), [])
    case _ => (Closed, [])
  }

  /** The next piece of the object, or the end marker. */
  function Next(stored: Bytes, pos: nat): Body
    requires pos <= |stored|
  {
    if pos == |stored| then FileEnd
    else if |stored| - pos > CHUNK then FileData(stored[pos..pos + CHUNK])
    else FileData(stored[pos..])
  }

  ghost function Heard(u: Setting, w: World, io: Io): Outcome
    requires ClientWaits(w) && |w.down| > 0
  {
    if !w.client.AwaitInfo? then OnPacket(w.client, w.local, Packet(true, w.down[0]), io)
    else if w.down[0].GetsInfo? then OnInfo(u.hash, w.local, w.down[0].size, w.down[0].sha, io)
    else Outcome(Ended(false), w.local, [])
  }

  ghost function After(u: Setting, w: World, step: Step): World
    requires Enabled(u, w, step)
  {
    match step
    case ClientAsks => w.(client := AwaitInfo, up := w.up + [GetsRequest])
    case ClientHears(io) =>
      var next := Heard(u, w, io);
      w.(client := next.client, local := next.local, up := w.up + next.answers,
         down := w.down[1..], downSent := w.downSent - 1, faulty := w.faulty || io != SMOOTH)
    case ClientFinishes(io) =>
      var next := Finish(u.hash, w.client, w.local, io);
      w.(client := next.client, local := next.local, up := w.up + next.answers, faulty := w.faulty || io != SMOOTH)
    case ClientReturns => w.(client := Ended(true))
    case ClientSends => w.(upSent := w.upSent + 1)
    case ClientSeesClose => w.(client := if w.client.Ended? then w.client else Ended(false), up := Sent(w.up, w.upSent))
    case ClientFails(report) =>
      w.(client := Ended(false), up := Sent(w.up, w.upSent) + if report then [Failure] else [], faulty := true)
    case ServerHears(found) =>
      var (server, replies) := OnRequest(u, w.server, w.up[0], found);
      w.(server := server, down := w.down + replies, up := w.up[1..],
         upSent := w.upSent - 1, faulty := w.faulty || !found)
    case ServerReads =>
      var next := Next(u.stored, w.server.pos);
      w.(server := if next.FileData? then Streaming(w.server.pos + |next.bytes|) else AwaitAck, down := w.down + [next])
    case ServerSends => w.(downSent := w.downSent + 1)
    case ServerSeesClose => w.(server := Closed, down := Sent(w.down, w.downSent))
    case ServerFails => w.(server := Closed, down := Sent(w.down, w.downSent), faulty := true)
    case Retry => World(w.local, Starting, AwaitRequest, [], 0, [], 0, false)
  }

  /** Where in the file the client is. */
  function Position(client: Client): nat {
    match client
    case Fetching(_, _, _, offset, received) => offset + received
    case AwaitEnd(size, _, _) => size
    case _ => 0
  }

  predicate Reading(client: Client) {
    client.Fetching? || client.AwaitEnd?
  }

  ghost predicate Content(u: Setting, w: World) {
    && w.upSent <= |w.up| && w.downSent <= |w.down|
    && (w.client.Starting? || w.client.AwaitInfo? || Fetches(u.hash, w.client, u.size, u.sha, w.local))
    && (u.exact ==> Agrees(u) && PartOf(w.local) <= u.stored)
    && (w.server.Streaming? ==> w.server.pos <= |u.stored|)
  }

  ghost predicate Requesting(u: Setting, w: World) {
    && w.down == []
    && match w.client
      case Starting => w.up == []
      case AwaitInfo => w.up == [GetsRequest]
      case Ended(ok) => !ok && (Leftover(w.up) || w.up == [GetsRequest] || w.up == [GetsRequest, Failure])
      case _ => false
  }

  ghost predicate Describing(u: Setting, w: World) {
    if w.client.AwaitInfo? then w.up == [] && w.down == [GetsInfo(u.size, u.sha)]
    else if Reading(w.client) then
      w.down == [] && w.up == [ResumePos(Position(w.client))] && (w.client.Fetching? ==> w.client.received == 0)
    else
      && w.client == Ended(false) && |w.down| <= 1
      && (Leftover(w.up) || (w.down == [] && w.up[0].ResumePos? && Leftover(w.up[1..])))
  }

  ghost predicate Serving(u: Setting, w: World)
    requires w.server.Streaming?
  {
    if Reading(w.client) then
      && w.up == [] && Stream(w.down, false) && Follows(w.down, u.stored, Position(w.client))
      && Reach(w.down, Position(w.client)) == w.server.pos
    else w.client == Ended(false) && Leftover(w.up)
  }

  ghost predicate Closing(u: Setting, w: World) {
    if Reading(w.client) then
      w.up == [] && Stream(w.down, true) && Follows(w.down, u.stored, Position(w.client))
    else match w.client
      case Verifying(_, _, _) => w.up == [] && w.down == []
      case Acking => w.up == [Ack] && w.down == []
      case Ended(ok) => if ok then w.up == [Ack] && w.down == [] else |w.up| <= 1 || w.down == []
      case _ => false
  }

  ghost predicate EndsLast(packets: seq<Body>) {
    forall i :: 0 <= i < |packets| - 1 ==> !packets[i].FileEnd?
  }

  ghost predicate Leaving(u: Setting, w: World) {
    if Reading(w.client) then
      && Follows(w.down, u.stored, Position(w.client)) && EndsLast(w.down)
      && (|w.down| >= 2 || FileEnd in w.down ==> w.up == [])
    else match w.client
      case Starting => w.up == w.down == []
      case AwaitInfo =>
        && (Leftover(w.down) || (w.down[0] == GetsInfo(u.size, u.sha) && Leftover(w.down[1..])))
        && (|w.down| == 2 ==> w.up == [])
      case Verifying(_, _, _) => w.up == w.down == []
      case Acking => w.down == [] && |w.up| <= 1
      case _ => |w.down| >= 2 ==> |w.up| <= 1
  }

  ghost predicate Flow(u: Setting, w: World) {
    match w.server
    case AwaitRequest => Requesting(u, w)
    case AwaitPos => Describing(u, w)
    case Streaming(_) => Serving(u, w)
    case AwaitAck => Closing(u, w)
    case Closed => Leaving(u, w)
  }

  /** While nothing has failed and all agrees, the transfer goes as it should. */
  ghost predicate OnCourse(u: Setting, w: World) {
    u.exact && !w.faulty ==>
      && (w.server.Closed? ==> w.up == [] && (w.client == Ended(true) || w.client.Acking?))
      && (w.client.Ended? ==> w.client.ok)
  }

  ghost predicate Inv(u: Setting, w: World) {
    Content(u, w) && Flow(u, w) && OnCourse(u, w)
  }

  lemma InitOk(u: Setting, w: World)
    requires Init(u, w)
    ensures Inv(u, w)
  {
  }

  lemma AsksKeepsInv(u: Setting, w: World)
    requires Inv(u, w) && Enabled(u, w, ClientAsks)
    ensures Inv(u, After(u, w, ClientAsks))
  {
  }

  lemma OnInfoReplies(u: Setting, local: Local, io: Io)
    ensures var next := OnInfo(u.hash, local, u.size, u.sha, io);
      && (u.exact && Agrees(u) && PartOf(local) <= u.stored ==>
            PartOf(next.local) <= u.stored && (io == SMOOTH ==> !next.client.Ended?))
      && (next.client.Ended? ==> next.client == Ended(false) && next.answers == [Failure])
      && (!next.client.Ended? ==> Reading(next.client) && next.answers == [ResumePos(Position(next.client))])
      && (next.client.Fetching? ==> next.client.received == 0)
  {
  }

  lemma InfoKeepsInv(u: Setting, w: World, io: Io)
    requires Inv(u, w) && Enabled(u, w, ClientHears(io)) && w.client.AwaitInfo?
    ensures Inv(u, After(u, w, ClientHears(io)))
  {
    hide OnInfo;
    OnInfoFetches(u.hash, w.local, u.size, u.sha, io);
    OnInfoReplies(u, w.local, io);
  }

  /** A chunk that comes in continues the file, and the part if that is a beginning of it. */
  lemma ChunkFits(u: Setting, w: World, io: Io)
    requires Content(u, w) && w.client.Fetching? && u.exact && |w.down| > 0 && w.down[0].FileData?
    requires Follows(w.down, u.stored, Position(w.client))
    ensures Acceptable(w.down[0].bytes, w.client.size - w.client.offset - w.client.received)
    ensures Written(PartOf(w.local), w.down[0].bytes, io.written) <= u.stored
  {
    var from, bytes := Position(w.client), w.down[0].bytes;
    assert PartOf(w.local) == u.stored[..from];
    assert u.stored[..from] + bytes == u.stored[..from + |bytes|];
    if io.written.Some? && io.written.value < |bytes| {
      assert u.stored[..from] + bytes[..io.written.value] == u.stored[..from + io.written.value];
    }
  }

  lemma Coming(u: Setting, w: World)
    requires Flow(u, w) && w.client.Fetching? && |w.down| > 0
    ensures Follows(w.down, u.stored, Position(w.client)) &&
      (w.server.Streaming? || w.server.AwaitAck? || w.server.Closed?)
    ensures !w.server.Closed? ==> Stream(w.down, w.server.AwaitAck?)
  {
  }

  /** What taking in a chunk comes to. */
  lemma AfterData(u: Setting, w: World, io: Io)
    requires Content(u, w) && Flow(u, w) && Enabled(u, w, ClientHears(io)) && w.client.Fetching? && w.down[0].FileData?
    ensures var w' := After(u, w, ClientHears(io));
      && w' == w.(client := w'.client, local := w'.local, up := w.up + (if w'.client.Ended? then [Failure] else []),
                  down := w.down[1..], downSent := w.downSent - 1, faulty := w.faulty || io != SMOOTH)
      && (if w'.client.Ended? then w'.client == Ended(false)
          else Reading(w'.client) && Position(w'.client) == Position(w.client) + |w.down[0].bytes|)
      && Fetches(u.hash, w'.client, u.size, u.sha, w'.local)
      && (u.exact ==> PartOf(w'.local) <= u.stored && (io == SMOOTH ==> !w'.client.Ended?))
  {
    hide Follows, Stream, Reach;
    Coming(u, w);
    OnPacketFetches(u.hash, w.client, u.size, u.sha, w.local, Packet(true, w.down[0]), io);
    if u.exact {
      ChunkFits(u, w, io);
    }
  }

  lemma DataKeepsInv(u: Setting, w: World, io: Io)
    requires Inv(u, w) && Enabled(u, w, ClientHears(io)) && w.client.Fetching? && w.down[0].FileData?
    ensures Inv(u, After(u, w, ClientHears(io)))
  {
    hide Follows, Stream, Reach, After, Fetches;
    Coming(u, w);
    AfterData(u, w, io);
    RestFollows(w.down, u.stored, Position(w.client));
    if !w.server.Closed? {
      DataRemains(w.down, u.stored, Position(w.client), w.server.AwaitAck?);
    }
  }

  lemma OnPacketKeepsInv(u: Setting, w: World, io: Io)
    requires Inv(u, w) && Enabled(u, w, ClientHears(io)) && !w.client.AwaitInfo?
    requires !(w.client.Fetching? && w.down[0].FileData?)
    ensures Inv(u, After(u, w, ClientHears(io)))
  {
  }

  lemma FinishesKeepsInv(u: Setting, w: World, io: Io)
    requires Inv(u, w) && Enabled(u, w, ClientFinishes(io))
    ensures Inv(u, After(u, w, ClientFinishes(io)))
  {
    if u.exact && !w.client.useFinal {
      assert PartOf(w.local) == u.stored;
    }
  }

  lemma SendsKeepsInv(u: Setting, w: World, step: Step)
    requires Inv(u, w) && Enabled(u, w, step) && (step.ClientSends? || step.ServerSends? || step.ClientReturns?)
    ensures Inv(u, After(u, w, step))
  {
  }

  lemma ClientLeavesKeepsInv(u: Setting, w: World, step: Step)
    requires Inv(u, w) && Enabled(u, w, step) && (step.ClientSeesClose? || step.ClientFails?)
    ensures Inv(u, After(u, w, step))
  {
  }

  lemma ServerHearsKeepsInv(u: Setting, w: World, found: bool)
    requires Inv(u, w) && Enabled(u, w, ServerHears(found))
    ensures Inv(u, After(u, w, ServerHears(found)))
  {
  }

  lemma ServerReadsKeepsInv(u: Setting, w: World)
    requires Inv(u, w) && Enabled(u, w, ServerReads)
    ensures Inv(u, After(u, w, ServerReads))
  {
    hide Follows, Stream, Reach;
    if Reading(w.client) {
      var next := Next(u.stored, w.server.pos);
      assert u.stored[w.server.pos..] == u.stored[w.server.pos..|u.stored|];
      NextFollows(u.stored, w.server.pos, if next.FileData? then |next.bytes| else 0);
      StreamsOn(w.down, u.stored, Position(w.client), next);
    }
  }

  lemma ServerLeavesKeepsInv(u: Setting, w: World, step: Step)
    requires Inv(u, w) && Enabled(u, w, step) && (step.ServerSeesClose? || step.ServerFails?)
    ensures Inv(u, After(u, w, step))
  {
    if Reading(w.client) {
      FollowsSome(w.down, u.stored, Position(w.client), w.downSent, []);
      assert w.down[..w.downSent] + [] == w.down[..w.downSent];
    }
  }

  lemma RetryKeepsInv(u: Setting, w: World)
    requires Inv(u, w) && Enabled(u, w, Retry)
    ensures Inv(u, After(u, w, Retry))
  {
  }

  /** Every step keeps the invariant. */
  lemma StepKeepsInv(u: Setting, w: World, step: Step)
    requires Inv(u, w) && Enabled(u, w, step)
    ensures Inv(u, After(u, w, step))
  {
    hide Inv, After;
    match step
    case ClientAsks => AsksKeepsInv(u, w);
    case ClientHears(io) =>
      if w.client.AwaitInfo? {
        InfoKeepsInv(u, w, io);
      } else if w.client.Fetching? && w.down[0].FileData? {
        DataKeepsInv(u, w, io);
      } else {
        OnPacketKeepsInv(u, w, io);
      }
    case ClientFinishes(io) => FinishesKeepsInv(u, w, io);
    case ClientReturns => SendsKeepsInv(u, w, step);
    case ClientSends => SendsKeepsInv(u, w, step);
    case ClientSeesClose => ClientLeavesKeepsInv(u, w, step);
    case ClientFails(_) => ClientLeavesKeepsInv(u, w, step);
    case ServerHears(found) => ServerHearsKeepsInv(u, w, found);
    case ServerReads => ServerReadsKeepsInv(u, w);
    case ServerSends => SendsKeepsInv(u, w, step);
    case ServerSeesClose => ServerLeavesKeepsInv(u, w, step);
    case ServerFails => ServerLeavesKeepsInv(u, w, step);
    case Retry => RetryKeepsInv(u, w);
  }

  ghost predicate IsRun(u: Setting, worlds: seq<World>, steps: seq<Step>) {
    && |worlds| == |steps| + 1 && Init(u, worlds[0])
    && forall i :: 0 <= i < |steps| ==>
         Enabled(u, worlds[i], steps[i]) && worlds[i + 1] == After(u, worlds[i], steps[i])
  }

  ghost predicate IsVerified(u: Setting, target: Option<Bytes>) {
    target.Some? && Matches(u.hash, target.value, u.size, u.sha)
  }

  lemma StepTarget(u: Setting, w: World, step: Step)
    requires Content(u, w) && Enabled(u, w, step)
    ensures After(u, w, step).local.target == w.local.target || IsVerified(u, After(u, w, step).local.target)
  {
  }

  lemma {:induction false} RunsKeepInv(u: Setting, worlds: seq<World>, steps: seq<Step>, n: nat)
    requires IsRun(u, worlds, steps) && n < |worlds|
    ensures Inv(u, worlds[n])
    ensures worlds[n].local.target == worlds[0].local.target || IsVerified(u, worlds[n].local.target)
  {
    hide After, Content, Flow, OnCourse;
    if n == 0 {
      InitOk(u, worlds[0]);
    } else {
      RunsKeepInv(u, worlds, steps, n - 1);
      assert Enabled(u, worlds[n - 1], steps[n - 1]) && worlds[n - 1 + 1] == After(u, worlds[n - 1], steps[n - 1]);
      StepTarget(u, worlds[n - 1], steps[n - 1]);
      StepKeepsInv(u, worlds[n - 1], steps[n - 1]);
    }
  }

  /** At every point of every run, the target holds what it held before or content of the
      declared size and digest; a download succeeds only with the latter. If the database
      describes the object, the target then is the object. If also the part is a beginning
      of the object, it stays one, and an attempt during which nothing fails ends in
      success. */
  lemma DownloadIsExact(u: Setting, worlds: seq<World>, steps: seq<Step>, n: nat)
    requires IsRun(u, worlds, steps) && n < |worlds|
    ensures worlds[n].local.target == worlds[0].local.target || IsVerified(u, worlds[n].local.target)
    ensures worlds[n].client == Ended(true) ==> IsVerified(u, worlds[n].local.target)
    ensures IsDigest(u.hash) && Describes(u) && worlds[n].client == Ended(true) ==>
      worlds[n].local.target == Some(u.stored)
    ensures u.exact ==> PartOf(worlds[n].local) <= u.stored
    ensures u.exact && Over(worlds[n]) && !worlds[n].faulty ==> worlds[n].client == Ended(true)
  {
    RunsKeepInv(u, worlds, steps, n);
  }

  /** The two ends never wait for each other. */
  lemma NeverBothWait(u: Setting, worlds: seq<World>, steps: seq<Step>, n: nat)
    requires IsRun(u, worlds, steps) && n < |worlds|
    ensures !(ClientWaits(worlds[n]) && worlds[n].down == [] && ServerWaits(worlds[n]) && worlds[n].up == [])
  {
    RunsKeepInv(u, worlds, steps, n);
  }

  predicate IsFault(step: Step) {
    match step
    case ClientHears(io) => io != SMOOTH
    case ClientFinishes(io) => io != SMOOTH
    case ServerHears(found) => !found
    case _ => step.ClientFails? || step.ServerFails?
  }

  ghost function ClientStep(u: Setting, w: World): (step: Step)
    requires Inv(u, w) && ClientIdle(w) && !w.client.Ended?
    requires ClientWaits(w) ==> w.downSent > 0
    ensures Enabled(u, w, step) && !step.Retry? && !IsFault(step)
  {
    match w.client
    case Starting => ClientAsks
    case Verifying(_, _, _) => ClientFinishes(SMOOTH)
    case Acking => ClientReturns
    case _ => ClientHears(SMOOTH)
  }

  ghost function ServerStep(u: Setting, w: World): (step: Step)
    requires Inv(u, w) && ServerIdle(w) && !w.server.Closed?
    requires ServerWaits(w) ==> w.upSent > 0
    ensures Enabled(u, w, step) && !step.Retry? && !IsFault(step)
  {
    if w.server.Streaming? then ServerReads else ServerHears(true)
  }

  /** Until an attempt is over, one end or the other can go on, and nothing needs to fail
      for it. This holds even if the connection takes one packet at a time. */
  ghost function NextStep(u: Setting, w: World): (step: Step)
    requires Inv(u, w) && !Over(w)
    ensures Enabled(u, w, step) && !step.Retry? && !IsFault(step)
  {
    if !ClientIdle(w) && w.upSent < u.capacity then ClientSends
    else if !ServerIdle(w) && w.downSent < u.capacity then ServerSends
    else if ClientGone(w) then
      if !ServerIdle(w) || (ServerWaits(w) && w.upSent == 0) then ServerSeesClose else ServerStep(u, w)
    else if ServerGone(w) then
      if !ClientIdle(w) || (ClientWaits(w) && w.downSent == 0) then ClientSeesClose else ClientStep(u, w)
    else if ClientIdle(w) && (ClientWaits(w) ==> w.downSent > 0) then ClientStep(u, w)
    else ServerStep(u, w)
  }

  function ClientWork(client: Client): nat {
    match client
    case Starting => 11
    case AwaitInfo => 8
    case Acking => 3
    case Ended(_) => 0
    case _ => 6
  }

  function ServerWork(u: Setting, server: Server): nat {
    match server
    case AwaitRequest => 3 * |u.stored| + 6
    case AwaitPos => 3 * |u.stored| + 4
    case Streaming(pos) => (if pos <= |u.stored| then 3 * (|u.stored| - pos) else 0) + 4
    case AwaitAck => 1
    case Closed => 0
  }

  /** What is left to do: two for a packet still to be sent, one for a packet on its way. */
  function Work(u: Setting, w: World): int {
    ClientWork(w.client) + ServerWork(u, w.server) + 2 * |w.up| - w.upSent + 2 * |w.down| - w.downSent
  }

  lemma ClientStepsEnd(u: Setting, w: World, step: Step)
    requires Content(u, w) && Enabled(u, w, step)
    requires step.ClientAsks? || step.ClientHears? || step.ClientFinishes? || step.ClientReturns?
      || step.ClientSends? || step.ClientSeesClose? || step.ClientFails?
    ensures 0 <= Work(u, After(u, w, step)) < Work(u, w)
  {
  }

  lemma ServerStepsEnd(u: Setting, w: World, step: Step)
    requires Content(u, w) && Enabled(u, w, step)
    requires step.ServerHears? || step.ServerReads? || step.ServerSends? || step.ServerSeesClose? || step.ServerFails?
    ensures 0 <= Work(u, After(u, w, step)) < Work(u, w)
  {
  }

  lemma StepEnds(u: Setting, w: World, step: Step)
    requires Content(u, w) && Enabled(u, w, step) && !step.Retry?
    ensures 0 <= Work(u, After(u, w, step)) < Work(u, w)
  {
    hide Content, After, Work;
    match step
    case ServerHears(_) => ServerStepsEnd(u, w, step);
    case ServerReads => ServerStepsEnd(u, w, step);
    case ServerSends => ServerStepsEnd(u, w, step);
    case ServerSeesClose => ServerStepsEnd(u, w, step);
    case ServerFails => ServerStepsEnd(u, w, step);
    case _ => ClientStepsEnd(u, w, step);
  }

  /** Every attempt ends: from any state on, until the next attempt, the two ends take no
      more steps than there is work left, in proportion to the size of the object at most. */
  lemma {:induction false} AttemptsEnd(u: Setting, worlds: seq<World>, steps: seq<Step>, k: nat, n: nat)
    requires IsRun(u, worlds, steps) && k <= n < |worlds| && Retry !in steps[k..n]
    ensures n - k <= Work(u, worlds[k]) - Work(u, worlds[n]) && Work(u, worlds[n]) >= 0
    decreases n
  {
    hide Enabled, After, Work, Flow, OnCourse;
    RunsKeepInv(u, worlds, steps, n);
    if k == n {
      WorkIsLeft(u, worlds[n]);
    } else {
      assert steps[k..n][..n - k - 1] == steps[k..n - 1];
      AttemptsEnd(u, worlds, steps, k, n - 1);
      RunsKeepInv(u, worlds, steps, n - 1);
      assert Enabled(u, worlds[n - 1], steps[n - 1]) && worlds[n - 1 + 1] == After(u, worlds[n - 1], steps[n - 1]);
      assert steps[k..n][n - 1 - k] == steps[n - 1];
      StepEnds(u, worlds[n - 1], steps[n - 1]);
    }
  }

  lemma AttemptsBeginFresh(u: Setting, worlds: seq<World>, steps: seq<Step>, k: nat)
    requires IsRun(u, worlds, steps) && k < |worlds| && (k == 0 || steps[k - 1] == Retry)
    ensures worlds[k].client == Starting && Work(u, worlds[k]) == 3 * |u.stored| + 17
  {
    if k > 0 {
      assert Enabled(u, worlds[k - 1], steps[k - 1]) && worlds[k - 1 + 1] == After(u, worlds[k - 1], steps[k - 1]);
    }
  }

  /** An attempt, from its beginning to any state of it, takes no more steps than three for
      each byte of the object and seventeen more. */
  lemma AttemptIsBounded(u: Setting, worlds: seq<World>, steps: seq<Step>, k: nat, n: nat)
    requires IsRun(u, worlds, steps) && k <= n < |worlds| && Retry !in steps[k..n]
    requires k == 0 || steps[k - 1] == Retry
    ensures n - k + Work(u, worlds[n]) <= 3 * |u.stored| + 17
    ensures 0 <= Work(u, worlds[n]) <= 3 * |u.stored| + 17
  {
    hide IsRun, Work;
    AttemptsBeginFresh(u, worlds, steps, k);
    AttemptsEnd(u, worlds, steps, k, n);
  }

  lemma WorkIsLeft(u: Setting, w: World)
    requires Content(u, w)
    ensures 0 <= Work(u, w)
  {
  }

  lemma StepFaults(u: Setting, w: World, step: Step)
    requires Enabled(u, w, step) && !step.Retry?
    ensures After(u, w, step).faulty <==> w.faulty || IsFault(step)
  {
  }

  /** An attempt counts as faulty exactly if one of its steps was a fault. */
  lemma {:induction false} FaultyIff(u: Setting, worlds: seq<World>, steps: seq<Step>, k: nat, n: nat)
    requires IsRun(u, worlds, steps) && k <= n < |worlds| && Retry !in steps[k..n]
    requires k == 0 || steps[k - 1] == Retry
    ensures worlds[n].faulty <==> exists i :: k <= i < n && IsFault(steps[i])
    decreases n
  {
    hide After, Enabled;
    if k == n {
      BeginsFaultless(u, worlds, steps, k);
    } else {
      assert Enabled(u, worlds[n - 1], steps[n - 1]) && worlds[n - 1 + 1] == After(u, worlds[n - 1], steps[n - 1]);
      assert steps[k..n][n - 1 - k] == steps[n - 1];
      assert forall step :: step in steps[k..n - 1] ==> step in steps[k..n];
      FaultyIff(u, worlds, steps, k, n - 1);
      StepFaults(u, worlds[n - 1], steps[n - 1]);
    }
  }

  lemma BeginsFaultless(u: Setting, worlds: seq<World>, steps: seq<Step>, k: nat)
    requires IsRun(u, worlds, steps) && k < |worlds| && (k == 0 || steps[k - 1] == Retry)
    ensures !worlds[k].faulty
  {
    if k > 0 {
      assert Enabled(u, worlds[k - 1], steps[k - 1]) && worlds[k - 1 + 1] == After(u, worlds[k - 1], steps[k - 1]);
    }
  }

  /** An attempt none of whose steps is a fault succeeds, and the target is verified. */
  lemma FaultlessSucceeds(u: Setting, worlds: seq<World>, steps: seq<Step>, k: nat, n: nat)
    requires IsRun(u, worlds, steps) && k <= n < |worlds| && Retry !in steps[k..n] && u.exact
    requires (k == 0 || steps[k - 1] == Retry) && Over(worlds[n])
    requires forall i :: k <= i < n ==> !IsFault(steps[i])
    ensures worlds[n].client == Ended(true) && IsVerified(u, worlds[n].local.target)
  {
    hide IsRun;
    FaultyIff(u, worlds, steps, k, n);
    DownloadIsExact(u, worlds, steps, n);
  }
}

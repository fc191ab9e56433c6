/** The upload's two ends together. Each direction of the connection holds a bounded number
    of packets; what does not fit is still to be sent, and a sender waits for room. Either
    end may fail at any point, and a new attempt may follow. Uploads of other digests go on
    at the same time. */
module UploadRuns {
  import opened Basics
  import opened FileStream
  import opened Uploads

  /** The file a client sends, and how many packets the connection holds each way. */
  datatype Setting = Setting(hash: Hash, source: Bytes, capacity: Positive)

  function Size(u: Setting): nat {
    |u.source|
  }

  function Sha(u: Setting): string {
    u.hash(u.source)
  }

  datatype Client =
    | Starting
    | AwaitResume
    | Sending(pos: nat)
    | AwaitAck
    | Ended(ok: bool)

  /** `up` and `down` are the packets on their way to the server and to the client; the
      first `upSent` and `downSent` of them have been handed to the connection. */
  datatype World = World(
    disk: Disk, server: Server, client: Client,
    up: seq<Body>, upSent: nat, down: seq<Body>, downSent: nat,
    faulty: bool)                           // something has failed during this attempt

  datatype Step =
    | ClientAsks
    | ClientReads(n: nat)
    | ClientSends
    | ClientHears
    | ClientSeesClose
    | ClientFails(report: bool)
    | ServerHears(lookup: Lookup, io: Io)
    | ServerVerifies(io: Io)
    | ServerSends
    | ServerSeesClose
    | ServerFails
    | Elsewhere(disk: Disk)
    | Retry

  predicate ClientIdle(w: World) {
    w.upSent == |w.up|
  }

  predicate ServerIdle(w: World) {
    w.downSent == |w.down|
  }

  predicate ClientGone(w: World) {
    w.client.Ended? && ClientIdle(w)
  }

  predicate ServerGone(w: World) {
    w.server.Closed? && ServerIdle(w)
  }

  /** The end wants a packet and has nothing left to send. */
  predicate ClientWaits(w: World) {
    (w.client.AwaitResume? || w.client.AwaitAck?) && ClientIdle(w)
  }

  predicate ServerWaits(w: World) {
    (w.server.AwaitRequest? || w.server.Receiving? || w.server.AwaitEnd?) && ServerIdle(w)
  }

  ghost predicate Init(u: Setting, w: World) {
    && StoreOk(u.hash, w.disk) && Part(w.disk, Sha(u)) <= u.source
    && w.client == Starting && w.server == AwaitRequest
    && w.up == w.down == [] && w.upSent == w.downSent == 0 && !w.faulty
  }

  ghost predicate Enabled(u: Setting, w: World, step: Step) {
    match step
    case ClientAsks => w.client.Starting?
    case ClientReads(n) =>
      w.client.Sending? && ClientIdle(w) && w.client.pos <= Size(u)
      && (if w.client.pos == Size(u) then n == 0 else 0 < n <= CHUNK && w.client.pos + n <= Size(u))
    case ClientSends => w.upSent < |w.up| && w.upSent < u.capacity
    case ClientHears => ClientWaits(w) && w.downSent > 0 && |w.down| > 0
    case ClientSeesClose => ServerGone(w) && ((ClientWaits(w) && w.downSent == 0) || !ClientIdle(w))
    case ClientFails(_) => !w.client.Ended?
    case ServerHears(lookup, io) =>
      ServerWaits(w) && w.upSent > 0 && |w.up| > 0
      && (lookup.Linked? ==> Sha(u) in w.disk.objects)
    case ServerVerifies(io) => w.server.Verifying? && ServerIdle(w)
    case ServerSends => w.downSent < |w.down| && w.downSent < u.capacity
    case ServerSeesClose => ClientGone(w) && ((ServerWaits(w) && w.upSent == 0) || !ServerIdle(w))
    case ServerFails => !ServerGone(w)
    case Elsewhere(disk) =>
      && StoreOk(u.hash, disk) && Part(disk, Sha(u)) == Part(w.disk, Sha(u))
      && (Sha(u) in disk.parts <==> Sha(u) in w.disk.parts)
      && (Sha(u) in w.disk.objects ==> Sha(u) in disk.objects)
    case Retry => ClientGone(w) && ServerGone(w)
  }

  /** What the client makes of a packet, and what it answers. */
  function OnReply(u: Setting, client: Client, body: Body): (r: (Client, seq<Body>)) {
    if client.AwaitResume? && body.PutsResume? then
      if body.offset > Size(u) then (Ended(false), [Failure])
      else if body.offset == Size(u) then (AwaitAck, [])
      else (Sending(body.offset), [])
    else (Ended(client.AwaitAck? && body.Ack?), [])
  }

  function Answer(w: World, outcome: Outcome, fault: bool): World
    requires w.server.Verifying? || |w.up| > 0
  {
    w.(disk := outcome.disk, server := outcome.server, down := w.down + outcome.replies, faulty := w.faulty || fault,
       up := if w.server.Verifying? then w.up else w.up[1..],
       upSent := if w.server.Verifying? || w.upSent == 0 then w.upSent else w.upSent - 1)
  }

  ghost function Heard(w: World, lookup: Lookup, io: Io): Outcome
    requires |w.up| > 0 && ServerWaits(w)
  {
    if !w.server.AwaitRequest? then OnPacket(w.server, w.disk, Packet(true, w.up[0]), io)
    else if w.up[0].PutsRequest? then Begin(w.disk, w.up[0].size, w.up[0].sha, lookup, io)
    else Outcome(Closed, w.disk, [Failure])
  }

  ghost function After(u: Setting, w: World, step: Step): World
    requires Enabled(u, w, step)
  {
    match step
    case ClientAsks => w.(client := AwaitResume, up := w.up + [PutsRequest(Size(u), Sha(u))])
    case ClientReads(n) =>
      if n == 0 then w.(client := AwaitAck, up := w.up + [FileEnd])
      else w.(client := Sending(w.client.pos + n), up := w.up + [FileData(u.source[w.client.pos..w.client.pos + n])])
    case ClientSends => w.(upSent := w.upSent + 1)
    case ClientHears =>
      var (client, answer) := OnReply(u, w.client, w.down[0]);
      w.(client := client, up := w.up + answer, down := w.down[1..], downSent := w.downSent - 1)
    case ClientSeesClose =>
      w.(client := if w.client.Ended? then w.client else Ended(false),
         up := Sent(w.up, w.upSent))
    case ClientFails(report) =>
      var sent := Sent(w.up, w.upSent);
      w.(client := Ended(false), up := sent + if report then [Failure] else [], faulty := true)
    case ServerHears(lookup, io) =>
      Answer(w, Heard(w, lookup, io), io != SMOOTH || lookup.Refused? || lookup.LinkFails?)
    case ServerVerifies(io) => Answer(w, Verify(u.hash, w.disk, w.server.sha, io), io != SMOOTH)
    case ServerSends => w.(downSent := w.downSent + 1)
    case ServerSeesClose =>
      w.(server := Closed, down := Sent(w.down, w.downSent))
    case ServerFails =>
      w.(server := Closed, down := Sent(w.down, w.downSent), faulty := true)
    case Elsewhere(disk) => w.(disk := disk)
    case Retry => World(w.disk, AwaitRequest, Starting, [], 0, [], 0, false)
  }

  ghost predicate Content(u: Setting, w: World) {
    && StoreOk(u.hash, w.disk) && Part(w.disk, Sha(u)) <= u.source && IsSha(Sha(u))
    && (Ack in w.down || w.client == Ended(true) ==> Sha(u) in w.disk.objects)
    && w.upSent <= |w.up| && w.downSent <= |w.down| && (w.client.Sending? ==> w.client.pos <= Size(u))
    && (w.server.AwaitRequest? || Serves(w.server, Size(u), Sha(u), w.disk))
    && (!w.faulty && w.client.Ended? ==> w.server.Closed?)
  }

  ghost predicate Requesting(u: Setting, w: World) {
    var request := PutsRequest(Size(u), Sha(u));
    && w.down == []
    && match w.client
      case Starting => w.up == []
      case AwaitResume => w.up == [request]
      case Ended(_) => Leftover(w.up) || w.up == [request] || w.up == [request, Failure]
      case _ => false
  }

  ghost predicate Uploading(u: Setting, w: World)
    requires w.server.Receiving?
  {
    var from := w.server.offset + w.server.received;
    && Follows(w.up, u.source, from)
    && match w.client
      case AwaitResume => w.up == [] && w.down == [PutsResume(w.server.offset)] && w.server.received == 0
      case Sending(pos) => w.down == [] && Stream(w.up, false) && Reach(w.up, from) == pos <= Size(u)
      case AwaitAck => w.down == [] && Stream(w.up, true) && Reach(w.up, from) == Size(u)
      case Ended(_) => w.down == [] || (|w.down| == 1 && w.down[0].PutsResume? && Leftover(w.up))
      case Starting => false
  }

  ghost predicate Ending(u: Setting, w: World) {
    && w.down == [] && Follows(w.up, u.source, Size(u))
    && match w.client
      case Sending(pos) => w.up == [] && pos == Size(u)
      case AwaitAck => w.up == [FileEnd]
      case Ended(_) => true
      case _ => false
  }

  ghost predicate Checking(u: Setting, w: World) {
    match w.client
    case AwaitResume => w.up == [] && w.down == [PutsResume(Size(u))]
    case AwaitAck => w.up == [] && w.down == []
    case Ended(_) => w.down == [] || (|w.down| == 1 && w.down[0].PutsResume? && Leftover(w.up))
    case _ => false
  }

  ghost predicate Leaving(u: Setting, w: World) {
    && |w.down| <= 2
    && (w.faulty ==> match w.client
      case Starting => w.up == w.down == []
      case AwaitResume => |w.down| == 2 ==> w.up == [] && w.down[0].PutsResume?
      case Ended(_) => |w.down| == 2 ==> Leftover(w.up)
      case _ => |w.down| <= 1)
    && (!w.faulty ==> match w.client
      case AwaitResume => w.up == [] && w.down == [PutsResume(Size(u)), Ack]
      case AwaitAck => w.up == [] && w.down == [Ack]
      case Ended(ok) => ok && w.up == [] && w.down == []
      case _ => false)
  }

  ghost predicate Flow(u: Setting, w: World) {
    match w.server
    case AwaitRequest => Requesting(u, w)
    case Receiving(_, _, _, _) => Uploading(u, w)
    case AwaitEnd(_, _) => Ending(u, w)
    case Verifying(_, _) => Checking(u, w)
    case Closed => Leaving(u, w)
  }

  ghost predicate Inv(u: Setting, w: World) {
    Content(u, w) && Flow(u, w)
  }

  lemma InitOk(u: Setting, w: World)
    requires Init(u, w) && IsSha(Sha(u))
    ensures Inv(u, w)
  {
  }

  lemma AsksKeepsInv(u: Setting, w: World)
    requires Inv(u, w) && Enabled(u, w, ClientAsks)
    ensures Inv(u, After(u, w, ClientAsks))
  {
  }

  lemma ReadsKeepsUploading(u: Setting, w: World, n: nat)
    requires w.server.Receiving? && Uploading(u, w) && Enabled(u, w, ClientReads(n))
    ensures Uploading(u, After(u, w, ClientReads(n)))
  {
    hide Follows, Reach, Stream;
    var pos, from := w.client.pos, w.server.offset + w.server.received;
    NextFollows(u.source, pos, n);
    StreamsOn(w.up, u.source, from, if n == 0 then FileEnd else FileData(u.source[pos..pos + n]));
  }

  lemma ReadsKeepsInv(u: Setting, w: World, n: nat)
    requires Inv(u, w) && Enabled(u, w, ClientReads(n))
    ensures Inv(u, After(u, w, ClientReads(n)))
  {
    hide Uploading;
    if w.server.Receiving? {
      ReadsKeepsUploading(u, w, n);
    }
  }

  lemma SendsKeepsInv(u: Setting, w: World, step: Step)
    requires Inv(u, w) && Enabled(u, w, step) && (step.ClientSends? || step.ServerSends?)
    ensures Inv(u, After(u, w, step))
  {
  }

  lemma ClientHearsKeepsInv(u: Setting, w: World)
    requires Inv(u, w) && Enabled(u, w, ClientHears)
    ensures Inv(u, After(u, w, ClientHears))
  {
  }

  lemma ClientLeavesKeepsInv(u: Setting, w: World, step: Step)
    requires Inv(u, w) && Enabled(u, w, step) && (step.ClientSeesClose? || step.ClientFails?)
    ensures Inv(u, After(u, w, step))
  {
    if w.server.Receiving? {
      var from := w.server.offset + w.server.received;
      FollowsSome(w.up, u.source, from, w.upSent, []);
      FollowsSome(w.up, u.source, from, w.upSent, [Failure]);
      assert w.up[..w.upSent] + [] == w.up[..w.upSent];
    } else if w.server.AwaitEnd? {
      FollowsSome(w.up, u.source, Size(u), w.upSent, []);
      FollowsSome(w.up, u.source, Size(u), w.upSent, [Failure]);
      assert w.up[..w.upSent] + [] == w.up[..w.upSent];
    }
  }

  lemma ResumeKeepsContent(u: Setting, w: World, io: Io)
    requires Content(u, w) && w.server.AwaitRequest?
    ensures var next := Begin(w.disk, Size(u), Sha(u), Absent, io);
      && StoreOk(u.hash, next.disk) && Part(next.disk, Sha(u)) <= u.source && Ack !in next.replies
      && Serves(next.server, Size(u), Sha(u), next.disk) && next.disk.objects == w.disk.objects
  {
    BeginServes(w.disk, Size(u), Sha(u), Absent, io);
  }

  lemma ResumeReplies(u: Setting, w: World, io: Io)
    requires Content(u, w) && w.server.AwaitRequest?
    ensures var next := Begin(w.disk, Size(u), Sha(u), Absent, io);
      match next.server
      case Receiving(_, _, offset, received) => received == 0 && next.replies == [PutsResume(offset)]
      case Verifying(_, _) => next.replies == [PutsResume(Size(u))]
      case Closed =>
        io != SMOOTH && |next.replies| <= 2 && (|next.replies| == 2 ==> next.replies[0].PutsResume?)
      case _ => false
  {
  }

  lemma ResumeKeepsInv(u: Setting, w: World, io: Io)
    requires Inv(u, w) && Enabled(u, w, ServerHears(Absent, io)) && w.server.AwaitRequest? && w.up[0].PutsRequest?
    ensures Inv(u, After(u, w, ServerHears(Absent, io)))
  {
    hide Begin, Serves;
    ResumeKeepsContent(u, w, io);
    ResumeReplies(u, w, io);
    assert Leftover(w.up[1..]);
  }

  lemma BeginKeepsInv(u: Setting, w: World, lookup: Lookup, io: Io)
    requires Inv(u, w) && Enabled(u, w, ServerHears(lookup, io)) && w.server.AwaitRequest?
    ensures Inv(u, After(u, w, ServerHears(lookup, io)))
  {
    hide Resume;
    if lookup.Absent? && w.up[0].PutsRequest? {
      ResumeKeepsInv(u, w, io);
    }
  }

  /** A chunk that the server accepts continues the part. */
  lemma ChunkFits(u: Setting, w: World, io: Io)
    requires Content(u, w) && w.server.Receiving? && Uploading(u, w) && |w.up| > 0 && w.up[0].FileData?
    ensures Acceptable(w.up[0].bytes, w.server.size - w.server.offset - w.server.received)
    ensures Written(Part(w.disk, Sha(u)), w.up[0].bytes, io.written) <= u.source
  {
    var from, bytes := w.server.offset + w.server.received, w.up[0].bytes;
    assert Part(w.disk, Sha(u)) == u.source[..from];
    assert u.source[..from] + bytes == u.source[..from + |bytes|];
    if io.written.Some? && io.written.value < |bytes| {
      assert u.source[..from] + bytes[..io.written.value] == u.source[..from + io.written.value];
    }
  }

  /** What taking in a chunk comes to. */
  lemma AfterData(u: Setting, w: World, lookup: Lookup, io: Io)
    requires Content(u, w) && w.server.Receiving? && Uploading(u, w) && Enabled(u, w, ServerHears(lookup, io))
    requires w.up[0].FileData?
    ensures var from := w.server.offset + w.server.received + |w.up[0].bytes|;
      var part := Written(Part(w.disk, Sha(u)), w.up[0].bytes, io.written);
      var server := if io.written.Some? then Closed
        else if from == Size(u) then AwaitEnd(Size(u), Sha(u))
        else Receiving(Size(u), Sha(u), w.server.offset, w.server.received + |w.up[0].bytes|);
      && part <= u.source && from <= Size(u)
      && After(u, w, ServerHears(lookup, io)) == World(
           WithPart(w.disk, Sha(u), part), server, w.client, w.up[1..], w.upSent - 1,
           w.down + (if io.written.Some? then [Failure] else []), w.downSent,
           w.faulty || io != SMOOTH || lookup.Refused? || lookup.LinkFails?)
  {
    hide Follows, Reach, Stream;
    ChunkFits(u, w, io);
  }

  lemma DataKeepsContent(u: Setting, w: World, lookup: Lookup, io: Io)
    requires Content(u, w) && w.server.Receiving? && Uploading(u, w) && Enabled(u, w, ServerHears(lookup, io))
    requires w.up[0].FileData?
    ensures Content(u, After(u, w, ServerHears(lookup, io)))
  {
    hide Follows, Reach, Stream, After;
    AfterData(u, w, lookup, io);
  }

  lemma DataKeepsFlow(u: Setting, w: World, lookup: Lookup, io: Io)
    requires Content(u, w) && w.server.Receiving? && Uploading(u, w) && Enabled(u, w, ServerHears(lookup, io))
    requires w.up[0].FileData?
    ensures Flow(u, After(u, w, ServerHears(lookup, io)))
  {
    hide Follows, Reach, Stream, After, StoreOk, Serves, Written, WithPart;
    AfterData(u, w, lookup, io);
    RestFollows(w.up, u.source, w.server.offset + w.server.received);
    if !w.client.Ended? {
      DataRemains(w.up, u.source, w.server.offset + w.server.received, w.client.AwaitAck?);
    }
  }

  lemma DataKeepsInv(u: Setting, w: World, lookup: Lookup, io: Io)
    requires Inv(u, w) && Enabled(u, w, ServerHears(lookup, io)) && w.server.Receiving? && w.up[0].FileData?
    ensures Inv(u, After(u, w, ServerHears(lookup, io)))
  {
    hide After, Uploading, StoreOk, Serves;
    DataKeepsContent(u, w, lookup, io);
    DataKeepsFlow(u, w, lookup, io);
  }

  lemma OnPacketKeepsInv(u: Setting, w: World, lookup: Lookup, io: Io)
    requires Inv(u, w) && Enabled(u, w, ServerHears(lookup, io)) && !w.server.AwaitRequest?
    requires !(w.server.Receiving? && w.up[0].FileData?)
    ensures Inv(u, After(u, w, ServerHears(lookup, io)))
  {
  }

  lemma VerifiesKeepsInv(u: Setting, w: World, io: Io)
    requires Inv(u, w) && Enabled(u, w, ServerVerifies(io))
    ensures Inv(u, After(u, w, ServerVerifies(io)))
  {
    assert Part(w.disk, Sha(u)) == u.source;
  }

  lemma ServerLeavesKeepsInv(u: Setting, w: World, step: Step)
    requires Inv(u, w) && Enabled(u, w, step) && (step.ServerSeesClose? || step.ServerFails?)
    ensures Inv(u, After(u, w, step))
  {
  }

  lemma OthersKeepInv(u: Setting, w: World, step: Step)
    requires Inv(u, w) && Enabled(u, w, step) && (step.Elsewhere? || step.Retry?)
    ensures Inv(u, After(u, w, step))
  {
  }

  /** Every step keeps the invariant. */
  lemma StepKeepsInv(u: Setting, w: World, step: Step)
    requires Inv(u, w) && Enabled(u, w, step)
    ensures Inv(u, After(u, w, step))
  {
    hide Inv, After;
    match step
    case ClientAsks => AsksKeepsInv(u, w);
    case ClientReads(n) => ReadsKeepsInv(u, w, n);
    case ClientSends => SendsKeepsInv(u, w, step);
    case ClientHears => ClientHearsKeepsInv(u, w);
    case ClientSeesClose => ClientLeavesKeepsInv(u, w, step);
    case ClientFails(_) => ClientLeavesKeepsInv(u, w, step);
    case ServerHears(lookup, io) =>
      if w.server.AwaitRequest? {
        BeginKeepsInv(u, w, lookup, io);
      } else if w.server.Receiving? && w.up[0].FileData? {
        DataKeepsInv(u, w, lookup, io);
      } else {
        OnPacketKeepsInv(u, w, lookup, io);
      }
    case ServerVerifies(io) => VerifiesKeepsInv(u, w, io);
    case ServerSends => SendsKeepsInv(u, w, step);
    case ServerSeesClose => ServerLeavesKeepsInv(u, w, step);
    case ServerFails => ServerLeavesKeepsInv(u, w, step);
    case Elsewhere(_) => OthersKeepInv(u, w, step);
    case Retry => OthersKeepInv(u, w, step);
  }

  ghost predicate IsRun(u: Setting, worlds: seq<World>, steps: seq<Step>) {
    && |worlds| == |steps| + 1 && Init(u, worlds[0]) && IsSha(Sha(u))
    && forall i :: 0 <= i < |steps| ==>
         Enabled(u, worlds[i], steps[i]) && worlds[i + 1] == After(u, worlds[i], steps[i])
  }

  lemma {:induction false} RunsKeepInv(u: Setting, worlds: seq<World>, steps: seq<Step>, n: nat)
    requires IsRun(u, worlds, steps) && n < |worlds|
    ensures Inv(u, worlds[n])
  {
    if n == 0 {
      InitOk(u, worlds[0]);
    } else {
      RunsKeepInv(u, worlds, steps, n - 1);
      assert Enabled(u, worlds[n - 1], steps[n - 1]) && worlds[n - 1 + 1] == After(u, worlds[n - 1], steps[n - 1]);
      StepKeepsInv(u, worlds[n - 1], steps[n - 1]);
    }
  }

  predicate Over(w: World) {
    ClientGone(w) && ServerGone(w)
  }

  /** Over any number of interrupted attempts, what the server has of the file is a prefix of
      it, every object has the digest that names it, and a client that is told of success has
      its very file in the store. An attempt during which nothing fails ends in success. */
  lemma UploadIsExact(u: Setting, worlds: seq<World>, steps: seq<Step>, n: nat)
    requires IsRun(u, worlds, steps) && n < |worlds| && Injective(u.hash)
    ensures StoreOk(u.hash, worlds[n].disk) && Part(worlds[n].disk, Sha(u)) <= u.source
    ensures Sha(u) in worlds[n].disk.objects ==> worlds[n].disk.objects[Sha(u)] == u.source
    ensures worlds[n].client == Ended(true) ==> Sha(u) in worlds[n].disk.objects
    ensures Over(worlds[n]) && !worlds[n].faulty ==> worlds[n].client == Ended(true)
  {
    RunsKeepInv(u, worlds, steps, n);
  }

  /** The two ends never wait for each other. */
  lemma NeverBothWait(u: Setting, worlds: seq<World>, steps: seq<Step>, n: nat)
    requires IsRun(u, worlds, steps) && n < |worlds|
    ensures !(ClientWaits(worlds[n]) && worlds[n].down == [] && ServerWaits(worlds[n]) && worlds[n].up == [])
  {
    RunsKeepInv(u, worlds, steps, n);
  }

  predicate IsFault(step: Step) {
    match step
    case ClientFails(_) => true
    case ServerFails => true
    case ServerHears(lookup, io) => io != SMOOTH || lookup.Refused? || lookup.LinkFails?
    case ServerVerifies(io) => io != SMOOTH
    case _ => false
  }

  predicate IsOwn(step: Step) {
    !step.Elsewhere? && !step.Retry?
  }

  ghost function ClientStep(u: Setting, w: World): (step: Step)
    requires Inv(u, w) && ClientIdle(w) && !w.client.Ended?
    requires ClientWaits(w) ==> w.downSent > 0
    ensures Enabled(u, w, step) && IsOwn(step) && !IsFault(step)
  {
    match w.client
    case Starting => ClientAsks
    case Sending(pos) => ClientReads(if Size(u) - pos <= CHUNK then Size(u) - pos else CHUNK)
    case _ => ClientHears
  }

  ghost function ServerStep(u: Setting, w: World): (step: Step)
    requires Inv(u, w) && ServerIdle(w) && !w.server.Closed?
    requires ServerWaits(w) ==> w.upSent > 0
    ensures Enabled(u, w, step) && IsOwn(step) && !IsFault(step)
  {
    if w.server.Verifying? then ServerVerifies(SMOOTH) else ServerHears(Absent, SMOOTH)
  }

  /** Until an attempt is over, one end or the other can go on, and nothing needs to fail
      for it. This holds even if the connection takes one packet at a time. */
  ghost function NextStep(u: Setting, w: World): (step: Step)
    requires Inv(u, w) && !Over(w)
    ensures Enabled(u, w, step) && IsOwn(step) && !IsFault(step)
  {
    if !ClientIdle(w) && w.upSent < u.capacity then ClientSends
    else if !ServerIdle(w) && w.downSent < u.capacity then ServerSends
    else if ClientGone(w) then
      if !ServerIdle(w) || (ServerWaits(w) && w.upSent == 0) then ServerSeesClose else ServerStep(u, w)
    else if ServerGone(w) then
      if !ClientIdle(w) || (ClientWaits(w) && w.downSent == 0) then ClientSeesClose else ClientStep(u, w)
    else if ClientIdle(w) && (ClientWaits(w) ==> w.downSent > 0) then ClientStep(u, w)
    else ServerStep(u, w)
  }

  function ClientWork(u: Setting, client: Client): nat {
    match client
    case Starting => 3 * Size(u) + 9
    case AwaitResume => 3 * Size(u) + 6
    case Sending(pos) => (if pos <= Size(u) then 3 * (Size(u) - pos) else 0) + 6
    case AwaitAck => 3
    case Ended(_) => 0
  }

  function ServerWork(server: Server): nat {
    match server
    case AwaitRequest => 5
    case Closed => 0
    case _ => 3
  }

  /** What is left to do: two for a packet still to be sent, one for a packet on its way. */
  function Work(u: Setting, w: World): int {
    ClientWork(u, w.client) + ServerWork(w.server) + 2 * |w.up| - w.upSent + 2 * |w.down| - w.downSent
  }

  lemma ClientStepsEnd(u: Setting, w: World, step: Step)
    requires Inv(u, w) && Enabled(u, w, step)
    requires step.ClientAsks? || step.ClientReads? || step.ClientSends? || step.ClientHears?
      || step.ClientSeesClose? || step.ClientFails?
    ensures 0 <= Work(u, After(u, w, step)) < Work(u, w)
  {
    hide Flow, StoreOk, Serves;
  }

  lemma ServerStepsEnd(u: Setting, w: World, step: Step)
    requires Inv(u, w) && Enabled(u, w, step)
    requires step.ServerHears? || step.ServerVerifies? || step.ServerSends?
      || step.ServerSeesClose? || step.ServerFails?
    ensures 0 <= Work(u, After(u, w, step)) < Work(u, w)
  {
    hide Flow, StoreOk, Serves;
  }

  function OwnSteps(steps: seq<Step>): nat {
    if steps == [] then 0
    else OwnSteps(steps[..|steps| - 1]) + if IsOwn(steps[|steps| - 1]) then 1 else 0
  }

  /** Every attempt ends: from any state on, until the next attempt, the two ends take no
      more steps than there is work left, in proportion to the size of the file at most. */
  lemma {:induction false} AttemptsEnd(u: Setting, worlds: seq<World>, steps: seq<Step>, k: nat, n: nat)
    requires IsRun(u, worlds, steps) && k <= n < |worlds| && Retry !in steps[k..n]
    ensures OwnSteps(steps[k..n]) <= Work(u, worlds[k]) - Work(u, worlds[n]) && Work(u, worlds[n]) >= 0
    decreases n
  {
    hide Inv, Enabled, After, Work;
    RunsKeepInv(u, worlds, steps, n);
    if k == n {
      assert steps[k..n] == [];
      WorkIsLeft(u, worlds[n]);
    } else {
      assert steps[k..n][..n - k - 1] == steps[k..n - 1];
      AttemptsEnd(u, worlds, steps, k, n - 1);
      RunsKeepInv(u, worlds, steps, n - 1);
      assert Enabled(u, worlds[n - 1], steps[n - 1]) && worlds[n - 1 + 1] == After(u, worlds[n - 1], steps[n - 1]);
      assert steps[k..n][n - 1 - k] == steps[n - 1];
      StepEnds(u, worlds[n - 1], steps[n - 1]);
    }
  }

  /** Nobody has done anything yet. */
  predicate IsFresh(w: World) {
    && w.client == Starting && w.server == AwaitRequest
    && w.up == w.down == [] && w.upSent == w.downSent == 0
  }

  lemma AttemptsBeginFresh(u: Setting, worlds: seq<World>, steps: seq<Step>, k: nat)
    requires IsRun(u, worlds, steps) && k < |worlds| && (k == 0 || steps[k - 1] == Retry)
    ensures IsFresh(worlds[k]) && Work(u, worlds[k]) == 3 * Size(u) + 14
  {
    if k > 0 {
      assert Enabled(u, worlds[k - 1], steps[k - 1]) && worlds[k - 1 + 1] == After(u, worlds[k - 1], steps[k - 1]);
    }
  }

  /** An attempt, from its beginning to any state of it, takes no more steps of the two ends
      than three for each byte of the file and fourteen more. */
  lemma AttemptIsBounded(u: Setting, worlds: seq<World>, steps: seq<Step>, k: nat, n: nat)
    requires IsRun(u, worlds, steps) && k <= n < |worlds| && Retry !in steps[k..n]
    requires k == 0 || steps[k - 1] == Retry
    ensures 0 <= OwnSteps(steps[k..n]) + Work(u, worlds[n]) <= 3 * Size(u) + 14
    ensures 0 <= Work(u, worlds[n]) <= 3 * Size(u) + 14
  {
    hide IsRun, Work, OwnSteps;
    AttemptsBeginFresh(u, worlds, steps, k);
    AttemptsEnd(u, worlds, steps, k, n);
  }

  lemma WorkIsLeft(u: Setting, w: World)
    requires Inv(u, w)
    ensures 0 <= Work(u, w)
  {
  }

  lemma StepEnds(u: Setting, w: World, step: Step)
    requires Inv(u, w) && Enabled(u, w, step) && !step.Retry?
    ensures 0 <= Work(u, After(u, w, step)) <= Work(u, w) - if IsOwn(step) then 1 else 0
  {
    hide Inv, Work;
    match step
    case Elsewhere(_) => ElsewhereWaits(u, w, step);
    case ServerHears(_, _) => ServerStepsEnd(u, w, step);
    case ServerVerifies(_) => ServerStepsEnd(u, w, step);
    case ServerSends => ServerStepsEnd(u, w, step);
    case ServerSeesClose => ServerStepsEnd(u, w, step);
    case ServerFails => ServerStepsEnd(u, w, step);
    case _ => ClientStepsEnd(u, w, step);
  }

  lemma ElsewhereWaits(u: Setting, w: World, step: Step)
    requires Inv(u, w) && Enabled(u, w, step) && step.Elsewhere?
    ensures 0 <= Work(u, After(u, w, step)) == Work(u, w)
  {
  }

  lemma StepFaults(u: Setting, w: World, step: Step)
    requires Enabled(u, w, step) && !step.Retry?
    ensures After(u, w, step).faulty <==> w.faulty || IsFault(step)
  {
  }

  /** An attempt counts as faulty exactly if one of its steps was a fault. */
  lemma {:induction false} FaultyIff(u: Setting, worlds: seq<World>, steps: seq<Step>, k: nat, n: nat)
    requires IsRun(u, worlds, steps) && k <= n < |worlds| && Retry !in steps[k..n]
    requires k == 0 || steps[k - 1] == Retry
    ensures worlds[n].faulty <==> exists i :: k <= i < n && IsFault(steps[i])
    decreases n
  {
    hide After, Enabled;
    if k == n {
      BeginsFaultless(u, worlds, steps, k);
    } else {
      assert Enabled(u, worlds[n - 1], steps[n - 1]) && worlds[n - 1 + 1] == After(u, worlds[n - 1], steps[n - 1]);
      assert steps[k..n][n - 1 - k] == steps[n - 1];
      assert forall step :: step in steps[k..n - 1] ==> step in steps[k..n];
      FaultyIff(u, worlds, steps, k, n - 1);
      StepFaults(u, worlds[n - 1], steps[n - 1]);
    }
  }

  lemma BeginsFaultless(u: Setting, worlds: seq<World>, steps: seq<Step>, k: nat)
    requires IsRun(u, worlds, steps) && k < |worlds| && (k == 0 || steps[k - 1] == Retry)
    ensures !worlds[k].faulty
  {
    if k > 0 {
      assert Enabled(u, worlds[k - 1], steps[k - 1]) && worlds[k - 1 + 1] == After(u, worlds[k - 1], steps[k - 1]);
    }
  }

  /** An attempt none of whose steps is a fault succeeds, and the very source is stored. */
  lemma FaultlessSucceeds(u: Setting, worlds: seq<World>, steps: seq<Step>, k: nat, n: nat)
    requires IsRun(u, worlds, steps) && k <= n < |worlds| && Retry !in steps[k..n] && Injective(u.hash)
    requires (k == 0 || steps[k - 1] == Retry) && Over(worlds[n])
    requires forall i :: k <= i < n ==> !IsFault(steps[i])
    ensures worlds[n].client == Ended(true)
    ensures Sha(u) in worlds[n].disk.objects && worlds[n].disk.objects[Sha(u)] == u.source
  {
    hide IsRun;
    FaultyIff(u, worlds, steps, k, n);
    UploadIsExact(u, worlds, steps, n);
  }
}

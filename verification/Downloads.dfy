/** The resumable download, client side: what `run_download` does with the file's description
    and with each packet after it, whoever sends them. */
module Downloads {
  import opened Basics
  import opened FileStream

  /** The target file and its `.part` beside it. */
  datatype Local = Local(target: Option<Bytes>, part: Option<Bytes>)

  datatype Client =
    | Starting
    | AwaitInfo
    | Fetching(size: nat, sha: string, useFinal: bool, offset: nat, received: nat)
    | AwaitEnd(size: nat, sha: string, useFinal: bool)
    | Verifying(size: nat, sha: string, useFinal: bool)
    | Acking
    | Ended(ok: bool)

  /** Which of the system calls succeed. */
  datatype Io = Io(
    openTarget: bool, open: bool, stat: bool, truncate: bool, seek: bool, written: Option<nat>,
    sync: bool, rehash: bool, rename: bool)

  const SMOOTH := Io(true, true, true, true, true, None, true, true, true)

  datatype Outcome = Outcome(client: Client, local: Local, answers: seq<Body>)

  /** `hash_matches`: the size and, case aside, the digest. */
  predicate Matches(hash: Hash, content: Bytes, size: nat, sha: string) {
    |content| == size && Lower(hash(content)) == Lower(sha)
  }

  function PartOf(local: Local): Bytes {
    if local.part.Some? then local.part.value else []
  }

  /** The client gives up and says so. */
  function GiveUp(local: Local): Outcome {
    Outcome(Ended(false), local, [Failure])
  }

  function OnInfo(hash: Hash, local: Local, size: nat, sha: string, io: Io): Outcome {
    if !IsSha(sha) then GiveUp(local)
    else if io.openTarget && io.rehash && local.target.Some? && Matches(hash, local.target.value, size, sha)
      then Outcome(AwaitEnd(size, sha, true), local, [ResumePos(size)])
    else if !io.open then GiveUp(local)
    else Resume(local.(part := Some(PartOf(local))), size, sha, io)
  }

  function Resume(local: Local, size: nat, sha: string, io: Io): Outcome {
    var part := PartOf(local);
    if !io.stat || (|part| > size && !io.truncate) then GiveUp(local)
    else
      var local' := if |part| > size then local.(part := Some([])) else local;
      var offset := if |part| > size then 0 else |part|;
      if !io.seek then GiveUp(local')
      else if offset == size then Outcome(AwaitEnd(size, sha, false), local', [ResumePos(offset)])
      else Outcome(Fetching(size, sha, false, offset, 0), local', [ResumePos(offset)])
  }

  function OnData(client: Client, local: Local, bytes: Bytes, io: Io): Outcome
    requires client.Fetching?
  {
    if !Acceptable(bytes, client.size - client.offset - client.received) then GiveUp(local)
    else
      var local' := local.(part := Some(Written(PartOf(local), bytes, io.written)));
      if io.written.Some? then GiveUp(local')
      else if client.offset + client.received + |bytes| == client.size
        then Outcome(AwaitEnd(client.size, client.sha, client.useFinal), local', [])
      else Outcome(client.(received := client.received + |bytes|), local', [])
  }

  function OnPacket(client: Client, local: Local, packet: Packet, io: Io): Outcome
    requires client.Fetching? || client.AwaitEnd?
  {
    if !packet.mine then GiveUp(local)
    else if client.AwaitEnd? && packet.body.FileEnd?
      then Outcome(Verifying(client.size, client.sha, client.useFinal), local, [])
    else if client.Fetching? && packet.body.FileData? then OnData(client, local, packet.body.bytes, io)
    else GiveUp(local)
  }

  /** The digest check and the rename. */
  function Finish(hash: Hash, client: Client, local: Local, io: Io): Outcome
    requires client.Verifying?
  {
    if client.useFinal then Outcome(Acking, local, [Ack])
    else if !io.sync || !io.rehash || !Matches(hash, PartOf(local), client.size, client.sha) || !io.rename
      then GiveUp(local)
    else Outcome(Acking, Local(Some(PartOf(local)), None), [Ack])
  }

  /** The client, fed with whatever the other end sends until the connection is lost. */
  function Fetch(client: Client, local: Local, packets: seq<Packet>, ios: seq<Io>): Outcome
    decreases |packets|
  {
    if packets == [] || ios == [] || !(client.Fetching? || client.AwaitEnd?) then Outcome(client, local, [])
    else
      var next := OnPacket(client, local, packets[0], ios[0]);
      var rest := Fetch(next.client, next.local, packets[1..], ios[1..]);
      rest.(answers := next.answers + rest.answers)
  }

  lemma FetchNothing(client: Client, local: Local, packets: seq<Packet>, ios: seq<Io>)
    requires packets == [] || ios == [] || !(client.Fetching? || client.AwaitEnd?)
    ensures Fetch(client, local, packets, ios) == Outcome(client, local, [])
  {
  }

  /** One whole attempt, after the request; `ios` has the system calls of the description, of
      the verification and of each packet, in this order. */
  function Attempt(hash: Hash, local: Local, info: Packet, packets: seq<Packet>, ios: seq<Io>): Outcome
    requires |ios| >= 2
  {
    if !info.mine then GiveUp(local)
    else if !info.body.GetsInfo? then Outcome(Ended(false), local, [])
    else
      var begun := OnInfo(hash, local, info.body.size, info.body.sha, ios[0]);
      var fetched := Fetch(begun.client, begun.local, packets, ios[2..]);
      var answers := begun.answers + fetched.answers;
      if fetched.client.Verifying? then
        var finished := Finish(hash, fetched.client, fetched.local, ios[1]);
        finished.(answers := answers + finished.answers)
      else fetched.(answers := answers)
  }

  /** The phases of a download of a file so described. */
  ghost predicate Fetches(hash: Hash, client: Client, size: nat, sha: string, local: Local) {
    match client
    case Fetching(n, s, useFinal, offset, received) =>
      n == size && s == sha && !useFinal && local.part.Some? && |local.part.value| == offset + received < size
    case AwaitEnd(n, s, useFinal) => n == size && s == sha && Complete(hash, size, sha, useFinal, local)
    case Verifying(n, s, useFinal) => n == size && s == sha && Complete(hash, size, sha, useFinal, local)
    case Acking => local.target.Some? && Matches(hash, local.target.value, size, sha)
    case Ended(ok) => ok ==> local.target.Some? && Matches(hash, local.target.value, size, sha)
    case _ => false
  }

  ghost predicate Complete(hash: Hash, size: nat, sha: string, useFinal: bool, local: Local) {
    if useFinal then local.target.Some? && Matches(hash, local.target.value, size, sha)
    else local.part.Some? && |local.part.value| == size
  }

  lemma OnInfoFetches(hash: Hash, local: Local, size: nat, sha: string, io: Io)
    ensures var next := OnInfo(hash, local, size, sha, io);
      Fetches(hash, next.client, size, sha, next.local) && next.local.target == local.target
  {
  }

  lemma OnPacketFetches(hash: Hash, client: Client, size: nat, sha: string, local: Local, packet: Packet, io: Io)
    requires Fetches(hash, client, size, sha, local) && (client.Fetching? || client.AwaitEnd?)
    ensures var next := OnPacket(client, local, packet, io);
      && Fetches(hash, next.client, size, sha, next.local) && next.local.target == local.target
      && PartOf(local) <= PartOf(next.local) && Ack !in next.answers && !next.client.Acking?
      && (next.local != local ==>
            packet.mine && packet.body.FileData? && Acceptable(packet.body.bytes, size - |PartOf(local)|))
      && (!packet.mine ==> next.client == Ended(false))
  {
  }

  lemma {:induction false} FetchFetches(hash: Hash, client: Client, size: nat, sha: string,
      local: Local, packets: seq<Packet>, ios: seq<Io>)
    requires Fetches(hash, client, size, sha, local) && !client.Acking? && client != Ended(true)
    ensures var next := Fetch(client, local, packets, ios);
      && Fetches(hash, next.client, size, sha, next.local) && next.local.target == local.target
      && PartOf(local) <= PartOf(next.local)
      && Ack !in next.answers && !next.client.Acking? && next.client != Ended(true)
    decreases |packets|
  {
    if packets != [] && ios != [] && (client.Fetching? || client.AwaitEnd?) {
      OnPacketFetches(hash, client, size, sha, local, packets[0], ios[0]);
      var next := OnPacket(client, local, packets[0], ios[0]);
      FetchFetches(hash, next.client, size, sha, next.local, packets[1..], ios[1..]);
    }
  }

  /** Whoever sends, whatever arrives, wherever it stops and whichever system call fails: the
      target keeps its old content, or it has the declared size and digest; and it has them
      whenever the client acknowledges. */
  lemma TargetIsSafe(hash: Hash, local: Local, info: Packet, packets: seq<Packet>, ios: seq<Io>)
    requires |ios| >= 2
    ensures var after := Attempt(hash, local, info, packets, ios);
      && (after.local.target == local.target
          || (info.body.GetsInfo? && after.local.target.Some?
              && Matches(hash, after.local.target.value, info.body.size, info.body.sha)))
      && (after.client.Acking? || Ack in after.answers ==>
            info.body.GetsInfo? && after.local.target.Some?
            && Matches(hash, after.local.target.value, info.body.size, info.body.sha))
      && after.client != Ended(true)
  {
    if info.mine && info.body.GetsInfo? {
      OnInfoFetches(hash, local, info.body.size, info.body.sha, ios[0]);
      var begun := OnInfo(hash, local, info.body.size, info.body.sha, ios[0]);
      FetchFetches(hash, begun.client, info.body.size, info.body.sha, begun.local, packets, ios[2..]);
    }
  }
}

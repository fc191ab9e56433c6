/** The server side of the resumable upload: what `handle_puts` does with a request and with
    each packet after it, whoever sends them.

    `hash` stands for SHA-256 in lower-case hexadecimal. */
module Uploads {
  import opened Basics
  import opened FileStream

  /** `transfer_temp_dir` and `storage_root`, by digest. */
  datatype Disk = Disk(parts: map<string, Bytes>, objects: map<string, Bytes>)

  datatype Server =
    | AwaitRequest
    | Receiving(size: nat, sha: string, offset: nat, received: nat)
    | AwaitEnd(size: nat, sha: string)
    | Verifying(size: nat, sha: string)
    | Closed

  /** What the metadata store says about the request. */
  datatype Lookup = Refused | Linked | LinkFails | Absent

  /** Which of the calls succeed; `resume` is the sending of the resume offset, and `written`
      how much of a chunk reaches the file when writing it fails. */
  datatype Io = Io(
    open: bool, stat: bool, truncate: bool, resume: bool, seek: bool, written: Option<nat>,
    sync: bool, rehash: bool, rename: bool, insert: bool)

  const SMOOTH := Io(true, true, true, true, true, None, true, true, true, true)

  datatype Outcome = Outcome(server: Server, disk: Disk, replies: seq<Body>)

  function Part(disk: Disk, sha: string): Bytes {
    if sha in disk.parts then disk.parts[sha] else []
  }

  function WithPart(disk: Disk, sha: string, part: Bytes): Disk {
    disk.(parts := disk.parts[sha := part])
  }

  /** From the request to the first read of data. */
  function Begin(disk: Disk, size: nat, sha: string, lookup: Lookup, io: Io): Outcome {
    if !IsSha(sha) || lookup.Refused? || lookup.LinkFails? then Outcome(Closed, disk, [Failure])
    else if lookup.Linked? then Outcome(Closed, disk, if io.resume then [PutsResume(size), Ack] else [])
    else if !io.open then Outcome(Closed, disk, [Failure])
    else Resume(WithPart(disk, sha, Part(disk, sha)), size, sha, io)
  }

  function Resume(disk: Disk, size: nat, sha: string, io: Io): Outcome {
    var part := Part(disk, sha);
    if !io.stat || (|part| > size && !io.truncate) then Outcome(Closed, disk, [Failure])
    else
      var disk' := if |part| > size then WithPart(disk, sha, []) else disk;
      var offset := if |part| > size then 0 else |part|;
      if !io.resume then Outcome(Closed, disk', [])
      else if offset == size then Outcome(Verifying(size, sha), disk', [PutsResume(offset)])
      else if !io.seek then Outcome(Closed, disk', [PutsResume(offset), Failure])
      else Outcome(Receiving(size, sha, offset, 0), disk', [PutsResume(offset)])
  }

  function OnData(server: Server, disk: Disk, bytes: Bytes, io: Io): Outcome
    requires server.Receiving?
  {
    if !Acceptable(bytes, server.size - server.offset - server.received)
    then Outcome(Closed, disk, [Failure])
    else
      var disk' := WithPart(disk, server.sha, Written(Part(disk, server.sha), bytes, io.written));
      if io.written.Some? then Outcome(Closed, disk', [Failure])
      else if server.offset + server.received + |bytes| == server.size
        then Outcome(AwaitEnd(server.size, server.sha), disk', [])
      else Outcome(server.(received := server.received + |bytes|), disk', [])
  }

  /** The handler takes the next packet off its connection. */
  function OnPacket(server: Server, disk: Disk, packet: Packet, io: Io): Outcome
    requires server.Receiving? || server.AwaitEnd?
  {
    if !packet.mine then Outcome(Closed, disk, [Failure])
    else if server.AwaitEnd? then
      if packet.body.FileEnd? then Outcome(Verifying(server.size, server.sha), disk, [])
      else Outcome(Closed, disk, [Failure])
    else if packet.body.FileData? then OnData(server, disk, packet.body.bytes, io)
    else Outcome(Closed, disk, [Failure])
  }

  function Without(disk: Disk, sha: string): Disk {
    disk.(parts := disk.parts - {sha})
  }

  function Promoted(disk: Disk, sha: string): Disk {
    Disk(disk.parts - {sha}, disk.objects[sha := Part(disk, sha)])
  }

  /** The digest check, the rename into the object store and the rows in the database. */
  function Verify(hash: Hash, disk: Disk, sha: string, io: Io): Outcome {
    if !io.sync || !io.seek || !io.rehash then Outcome(Closed, disk, [Failure])
    else if hash(Part(disk, sha)) != sha then Outcome(Closed, Without(disk, sha), [Failure])
    else if !io.rename && sha !in disk.objects then Outcome(Closed, disk, [Failure])
    else
      var disk' := if io.rename then Promoted(disk, sha) else Without(disk, sha);
      Outcome(Closed, disk', [if io.insert then Ack else Failure])
  }

  /** Every object has the digest that names it. */
  ghost predicate StoreOk(hash: Hash, disk: Disk) {
    forall sha :: sha in disk.objects ==> hash(disk.objects[sha]) == sha
  }

  /** What an upload may do to the store: objects are only added or replaced under the
      claimed digest, with content of that digest; other digests are left alone. */
  ghost predicate Contained(hash: Hash, sha: string, disk: Disk, disk': Disk) {
    && (disk'.objects == disk.objects
        || exists content :: hash(content) == sha && disk'.objects == disk.objects[sha := content])
    && disk'.parts - {sha} == disk.parts - {sha}
  }

  lemma VerifyIsContained(hash: Hash, disk: Disk, sha: string, io: Io)
    ensures Contained(hash, sha, disk, Verify(hash, disk, sha, io).disk)
  {
    if hash(Part(disk, sha)) == sha {
      assert Promoted(disk, sha).objects == disk.objects[sha := Part(disk, sha)];
    }
  }

  /** The handler, fed with whatever the other end sends until the connection is lost. */
  function Serve(server: Server, disk: Disk, packets: seq<Packet>, ios: seq<Io>): Outcome
    decreases |packets|
  {
    if packets == [] || ios == [] || !(server.Receiving? || server.AwaitEnd?) then Outcome(server, disk, [])
    else
      var next := OnPacket(server, disk, packets[0], ios[0]);
      var rest := Serve(next.server, next.disk, packets[1..], ios[1..]);
      rest.(replies := next.replies + rest.replies)
  }

  lemma ServeNothing(server: Server, disk: Disk, packets: seq<Packet>, ios: seq<Io>)
    requires packets == [] || ios == []
    ensures Serve(server, disk, packets, ios) == Outcome(server, disk, [])
  {
  }

  /** One whole attempt; `ios` has the system calls of the request, of the verification and
      of each packet, in this order. */
  function Attempt(
    hash: Hash, disk: Disk, size: nat, sha: string, lookup: Lookup, packets: seq<Packet>, ios: seq<Io>): Outcome
    requires |ios| >= 2
  {
    var begun := Begin(disk, size, sha, lookup, ios[0]);
    var served := Serve(begun.server, begun.disk, packets, ios[2..]);
    var replies := begun.replies + served.replies;
    if served.server.Verifying? then
      var verified := Verify(hash, served.disk, sha, ios[1]);
      verified.(replies := replies + verified.replies)
    else served.(replies := replies)
  }

  /** The phases of a handler for one request. */
  ghost predicate Serves(server: Server, size: nat, sha: string, disk: Disk) {
    match server
    case AwaitRequest => false
    case Receiving(n, s, offset, received) =>
      n == size && s == sha && sha in disk.parts && |disk.parts[sha]| == offset + received < size
    case AwaitEnd(n, s) => n == size && s == sha && sha in disk.parts && |disk.parts[sha]| == size
    case Verifying(n, s) => n == size && s == sha && sha in disk.parts && |disk.parts[sha]| == size
    case Closed => true
  }

  ghost predicate Grows(sha: string, disk: Disk, disk': Disk) {
    && disk'.objects == disk.objects && disk'.parts - {sha} == disk.parts - {sha}
    && Part(disk, sha) <= Part(disk', sha)
  }

  lemma OnPacketGrows(server: Server, size: nat, sha: string, disk: Disk, packet: Packet, io: Io)
    requires Serves(server, size, sha, disk) && (server.Receiving? || server.AwaitEnd?)
    ensures var next := OnPacket(server, disk, packet, io);
      && Serves(next.server, size, sha, next.disk) && Grows(sha, disk, next.disk) && Ack !in next.replies
      && (next.disk != disk ==>
            packet.mine && packet.body.FileData? && Acceptable(packet.body.bytes, size - |Part(disk, sha)|))
      && (!packet.mine ==> next.server.Closed?)
  {
  }

  /** While data comes in, the part only grows. */
  lemma {:induction false} ServeGrows(server: Server, size: nat, sha: string, disk: Disk,
      packets: seq<Packet>, ios: seq<Io>)
    requires Serves(server, size, sha, disk)
    ensures var served := Serve(server, disk, packets, ios);
      Serves(served.server, size, sha, served.disk) && Grows(sha, disk, served.disk) && Ack !in served.replies
    decreases |packets|
  {
    hide OnPacket, Serves;
    if packets != [] && ios != [] && (server.Receiving? || server.AwaitEnd?) {
      OnPacketGrows(server, size, sha, disk, packets[0], ios[0]);
      var next := OnPacket(server, disk, packets[0], ios[0]);
      ServeGrows(next.server, size, sha, next.disk, packets[1..], ios[1..]);
    }
  }

  lemma BeginServes(disk: Disk, size: nat, sha: string, lookup: Lookup, io: Io)
    ensures var begun := Begin(disk, size, sha, lookup, io);
      && Serves(begun.server, size, sha, begun.disk) && begun.disk.objects == disk.objects
      && begun.disk.parts - {sha} == disk.parts - {sha}
      && (Ack in begun.replies <==> lookup.Linked? && IsSha(sha) && io.resume)
      && (lookup.Linked? ==> begun.server.Closed?)
  {
  }

  /** Whoever sends, whatever arrives, wherever it stops and whichever system call fails: an
      upload leaves every other digest alone, and what it publishes has the claimed digest
      and size. It acknowledges only content that is in the store or was already. */
  lemma AttemptIsSafe(
    hash: Hash, disk: Disk, size: nat, sha: string, lookup: Lookup, packets: seq<Packet>, ios: seq<Io>)
    requires StoreOk(hash, disk) && |ios| >= 2
    ensures var after := Attempt(hash, disk, size, sha, lookup, packets, ios);
      && StoreOk(hash, after.disk) && Contained(hash, sha, disk, after.disk)
      && (Ack in after.replies ==>
          lookup.Linked? || (sha in after.disk.objects && hash(after.disk.objects[sha]) == sha))
      && (sha in after.disk.objects && after.disk.objects != disk.objects ==> |after.disk.objects[sha]| == size)
  {
    var begun := Begin(disk, size, sha, lookup, ios[0]);
    BeginServes(disk, size, sha, lookup, ios[0]);
    ServeGrows(begun.server, size, sha, begun.disk, packets, ios[2..]);
    var served := Serve(begun.server, begun.disk, packets, ios[2..]);
    if served.server.Verifying? {
      VerifyIsContained(hash, served.disk, sha, ios[1]);
    }
  }

  /** The upload gets as far as having the content in the store: the digest is right, and the
      part is renamed or the object was there. */
  predicate Publishes(
    hash: Hash, disk: Disk, size: nat, sha: string, lookup: Lookup, packets: seq<Packet>, ios: seq<Io>)
    requires |ios| >= 2
  {
    var begun := Begin(disk, size, sha, lookup, ios[0]);
    var served := Serve(begun.server, begun.disk, packets, ios[2..]);
    && served.server.Verifying? && ios[1].sync && ios[1].seek && ios[1].rehash
    && hash(Part(served.disk, sha)) == sha && (ios[1].rename || sha in disk.objects)
  }

  /** What is in the store then, and when it is acknowledged. */
  lemma PublishedIsStored(
    hash: Hash, disk: Disk, size: nat, sha: string, lookup: Lookup, packets: seq<Packet>, ios: seq<Io>)
    requires |ios| >= 2 && Publishes(hash, disk, size, sha, lookup, packets, ios)
    ensures var after := Attempt(hash, disk, size, sha, lookup, packets, ios);
      && lookup.Absent? && IsSha(sha) && sha in after.disk.objects && sha !in after.disk.parts
      && (Ack in after.replies <==> ios[1].insert)
      && (exists content :: hash(content) == sha && |content| == size
            && after.disk.objects == if ios[1].rename then disk.objects[sha := content] else disk.objects)
  {
    var begun := Begin(disk, size, sha, lookup, ios[0]);
    BeginServes(disk, size, sha, lookup, ios[0]);
    ServeGrows(begun.server, size, sha, begun.disk, packets, ios[2..]);
    var served := Serve(begun.server, begun.disk, packets, ios[2..]);
    var content := Part(served.disk, sha);
    assert hash(content) == sha && |content| == size;
    var verified := Verify(hash, served.disk, sha, ios[1]);
    assert verified.replies == [if ios[1].insert then Ack else Failure];
  }

  /** Otherwise the store is as before, and only a link is acknowledged. */
  lemma UnpublishedStoresNothing(
    hash: Hash, disk: Disk, size: nat, sha: string, lookup: Lookup, packets: seq<Packet>, ios: seq<Io>)
    requires |ios| >= 2 && !Publishes(hash, disk, size, sha, lookup, packets, ios)
    ensures var after := Attempt(hash, disk, size, sha, lookup, packets, ios);
      && after.disk.objects == disk.objects
      && (Ack in after.replies <==> lookup.Linked? && IsSha(sha) && ios[0].resume)
  {
    var begun := Begin(disk, size, sha, lookup, ios[0]);
    BeginServes(disk, size, sha, lookup, ios[0]);
    ServeGrows(begun.server, size, sha, begun.disk, packets, ios[2..]);
    if lookup.Linked? && IsSha(sha) && ios[0].resume {
      assert begun.replies[1] == Ack;
    }
  }

  lemma RefusedIsNotAcknowledged(
    hash: Hash, disk: Disk, size: nat, sha: string, lookup: Lookup, packets: seq<Packet>, ios: seq<Io>)
    requires |ios| >= 2 && (lookup.Refused? || lookup.LinkFails?)
    ensures Ack !in Attempt(hash, disk, size, sha, lookup, packets, ios).replies
  {
  }

  lemma LinkIsAcknowledged(hash: Hash, disk: Disk, size: nat, sha: string, packets: seq<Packet>, ios: seq<Io>)
    requires |ios| >= 2 && IsSha(sha) && ios[0].resume
    ensures Attempt(hash, disk, size, sha, Linked, packets, ios) == Outcome(Closed, disk, [PutsResume(size), Ack])
  {
  }
}

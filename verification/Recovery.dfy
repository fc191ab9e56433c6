/** When an attempt during which nothing fails gets through, whatever the part left from
    before holds: the two ends are honest, but the part may be anything. */
module Recovery {
  import opened Basics
  import opened FileStream
  import Up = Uploads
  import Down = Downloads

  function Mine(bodies: seq<Body>): (packets: seq<Packet>)
    ensures |packets| == |bodies|
  {
    if bodies == [] then [] else [Packet(true, bodies[0])] + Mine(bodies[1..])
  }

  lemma {:induction false} MineAt(bodies: seq<Body>, i: nat)
    requires i < |bodies|
    ensures Mine(bodies)[i] == Packet(true, bodies[i])
  {
    if i > 0 {
      MineAt(bodies[1..], i - 1);
    }
  }

  /** What is kept of a part: nothing if it is longer than the file. */
  function Kept(part: Bytes, size: nat): Bytes {
    if |part| > size then [] else part
  }

  /** What becomes of a part once all that is missing of the file is appended. */
  function Completed(part: Bytes, source: Bytes): Bytes {
    if |part| > |source| then part else part + source[|part|..]
  }

  lemma CompletedFurther(part: Bytes, bytes: Bytes, source: Bytes)
    requires IsPiece(bytes, source, |part|)
    ensures Completed(part + bytes, source) == Completed(part, source)
  {
    Slices(source, |part|, |part| + |bytes|, |source|);
    assert source[|part|..|source|] == source[|part|..];
  }

  lemma CompletedIs(part: Bytes, source: Bytes)
    requires |part| <= |source|
    ensures |Completed(part, source)| == |source| && part <= Completed(part, source)
    ensures Completed(part, source) == source <==> part <= source
    ensures |part| == |source| ==> Completed(part, source) == part
  {
    if part <= source {
      assert part == source[..|part|];
    }
  }

  /** All of the file from `from` on, in chunks of any size, and the end marker. */
  ghost predicate Sends(bodies: seq<Body>, source: Bytes, from: nat) {
    Follows(bodies, source, from) && Stream(bodies, true) && Reach(bodies, from) == |source|
  }

  ghost predicate AllSmoothUp(ios: seq<Up.Io>) {
    forall i :: 0 <= i < |ios| ==> ios[i] == Up.SMOOTH
  }

  lemma SendsRest(bodies: seq<Body>, source: Bytes, from: nat)
    requires Sends(bodies, source, from) && bodies[0].FileData?
    ensures IsPiece(bodies[0].bytes, source, from) && Sends(bodies[1..], source, from + |bodies[0].bytes|)
  {
    RestFollows(bodies, source, from);
    DataRemains(bodies, source, from, true);
  }

  lemma SendsFirst(bodies: seq<Body>, source: Bytes, from: nat)
    requires Sends(bodies, source, from)
    ensures bodies != [] && (bodies[0].FileData? || (bodies[0].FileEnd? && from == |source|))
  {
  }

  /** The server takes in all that is sent. */
  lemma {:induction false} ServeHonest(server: Up.Server, sha: string, disk: Up.Disk,
      source: Bytes, bodies: seq<Body>, ios: seq<Up.Io>)
    requires Up.Serves(server, |source|, sha, disk) && (server.Receiving? || server.AwaitEnd?)
    requires Sends(bodies, source, |disk.parts[sha]|) && AllSmoothUp(ios) && |ios| >= |bodies|
    ensures var served := Up.Serve(server, disk, Mine(bodies), ios);
      && served.server == Up.Verifying(|source|, sha) && served.replies == [] && served.disk.objects == disk.objects
      && sha in served.disk.parts && served.disk.parts[sha] == Completed(disk.parts[sha], source)
    decreases |bodies|
  {
    hide Completed, Follows, Reach, Stream;
    var from := |disk.parts[sha]|;
    SendsFirst(bodies, source, from);
    var next := Up.OnPacket(server, disk, Mine(bodies)[0], ios[0]);
    assert Mine(bodies)[1..] == Mine(bodies[1..]);
    if bodies[0].FileData? {
      SendsRest(bodies, source, from);
      var bytes := bodies[0].bytes;
      assert next == Up.Outcome(next.server, Up.WithPart(disk, sha, disk.parts[sha] + bytes), []);
      CompletedFurther(disk.parts[sha], bytes, source);
      ServeHonest(next.server, sha, next.disk, source, bodies[1..], ios[1..]);
    } else {
      CompletedIs(disk.parts[sha], source);
      assert next == Up.Outcome(Up.Verifying(|source|, sha), disk, []);
      Up.ServeNothing(next.server, next.disk, Mine(bodies)[1..], []);
    }
  }

  lemma BeginSmooth(disk: Up.Disk, size: nat, sha: string)
    requires IsSha(sha)
    ensures var kept := Kept(Up.Part(disk, sha), size);
      var begun := Up.Begin(disk, size, sha, Up.Absent, Up.SMOOTH);
      && begun.server == (if |kept| == size then Up.Verifying(size, sha) else Up.Receiving(size, sha, |kept|, 0))
      && begun.disk == Up.WithPart(disk, sha, kept) && begun.replies == [PutsResume(|kept|)]
  {
  }

  lemma NoCollision(hash: Hash, a: Bytes, b: Bytes)
    requires Injective(hash)
    ensures hash(a) == hash(b) <==> a == b
  {
  }

  /** From the request to the verification. */
  lemma AllIsServed(disk: Up.Disk, sha: string, source: Bytes, bodies: seq<Body>, ios: seq<Up.Io>)
    requires IsSha(sha) && AllSmoothUp(ios) && |ios| >= |bodies|
    requires var kept := Kept(Up.Part(disk, sha), |source|);
      if |kept| == |source| then bodies == [] else Sends(bodies, source, |kept|)
    ensures var begun := Up.Begin(disk, |source|, sha, Up.Absent, Up.SMOOTH);
      var served := Up.Serve(begun.server, begun.disk, Mine(bodies), ios);
      && served.server == Up.Verifying(|source|, sha) && served.replies == [] && served.disk.objects == disk.objects
      && Up.Part(served.disk, sha) == Completed(Kept(Up.Part(disk, sha), |source|), source)
      && |Kept(Up.Part(disk, sha), |source|)| <= |source|
  {
    hide Up.Begin, Up.Serve, Sends, Completed;
    var kept := Kept(Up.Part(disk, sha), |source|);
    BeginSmooth(disk, |source|, sha);
    var begun := Up.Begin(disk, |source|, sha, Up.Absent, Up.SMOOTH);
    CompletedIs(kept, source);
    if |kept| == |source| {
      Up.ServeNothing(begun.server, begun.disk, Mine(bodies), ios);
    } else {
      ServeHonest(begun.server, sha, begun.disk, source, bodies, ios);
    }
  }

  lemma VerifySmooth(hash: Hash, disk: Up.Disk, sha: string, content: Bytes)
    requires Up.Part(disk, sha) == content
    ensures var verified := Up.Verify(hash, disk, sha, Up.SMOOTH);
      && verified.replies == [if hash(content) == sha then Ack else Failure] && sha !in verified.disk.parts
      && verified.disk.objects == if hash(content) == sha then disk.objects[sha := content] else disk.objects
  {
  }

  /** An upload during which nothing fails is acknowledged exactly if what is kept of the
      part is a beginning of the file. It leaves no part behind in either case. */
  lemma UploadSucceedsIff(hash: Hash, disk: Up.Disk, source: Bytes, bodies: seq<Body>, ios: seq<Up.Io>)
    requires Injective(hash) && IsSha(hash(source)) && AllSmoothUp(ios) && |ios| >= |bodies| + 2
    requires var kept := Kept(Up.Part(disk, hash(source)), |source|);
      if |kept| == |source| then bodies == [] else Sends(bodies, source, |kept|)
    ensures var kept := Kept(Up.Part(disk, hash(source)), |source|);
      var after := Up.Attempt(hash, disk, |source|, hash(source), Up.Absent, Mine(bodies), ios);
      && (Ack in after.replies <==> kept <= source)
      && after.disk.objects == (if kept <= source then disk.objects[hash(source) := source] else disk.objects)
      && hash(source) !in after.disk.parts
  {
    hide Up.Begin, Up.Serve, Up.Verify, Sends, Completed, Kept, IsSha, Injective, Mine;
    var sha := hash(source);
    var kept := Kept(Up.Part(disk, sha), |source|);
    BeginSmooth(disk, |source|, sha);
    AllIsServed(disk, sha, source, bodies, ios[2..]);
    var begun := Up.Begin(disk, |source|, sha, Up.Absent, ios[0]);
    var served := Up.Serve(begun.server, begun.disk, Mine(bodies), ios[2..]);
    CompletedIs(kept, source);
    NoCollision(hash, Completed(kept, source), source);
    VerifySmooth(hash, served.disk, sha, Completed(kept, source));
  }

  lemma MineFirst(bodies: seq<Body>, n: nat)
    requires 0 < n <= |bodies|
    ensures bodies[..n][1..] == bodies[1..][..n - 1] && Mine(bodies[..n])[0] == Packet(true, bodies[0])
    ensures Mine(bodies[..n])[1..] == Mine(bodies[1..][..n - 1])
    ensures Data(bodies[..n]) == (if bodies[0].FileData? then bodies[0].bytes else []) + Data(bodies[1..][..n - 1])
  {
    assert bodies[..n][1..] == bodies[1..][..n - 1];
  }

  lemma DataComesFirst(bodies: seq<Body>, source: Bytes, from: nat)
    requires Sends(bodies, source, from) && |bodies| > 1
    ensures bodies[0].FileData?
  {
  }

  lemma ServePiece(server: Up.Server, sha: string, disk: Up.Disk, source: Bytes, bytes: Bytes)
    requires Up.Serves(server, |source|, sha, disk) && (server.Receiving? || server.AwaitEnd?)
    requires IsPiece(bytes, source, |disk.parts[sha]|)
    ensures var next := Up.OnPacket(server, disk, Packet(true, FileData(bytes)), Up.SMOOTH);
      && next.disk == Up.WithPart(disk, sha, disk.parts[sha] + bytes) && next.replies == []
      && (next.server.Receiving? || next.server.AwaitEnd?) && Up.Serves(next.server, |source|, sha, next.disk)
  {
  }

  /** The connection is lost after some of the packets: what they brought is in the part. */
  lemma {:induction false} ServeSome(server: Up.Server, sha: string, disk: Up.Disk,
      source: Bytes, bodies: seq<Body>, n: nat, ios: seq<Up.Io>)
    requires Up.Serves(server, |source|, sha, disk) && (server.Receiving? || server.AwaitEnd?)
    requires Sends(bodies, source, |disk.parts[sha]|) && n < |bodies| && AllSmoothUp(ios) && |ios| >= n
    ensures var served := Up.Serve(server, disk, Mine(bodies[..n]), ios);
      && (served.server.Receiving? || served.server.AwaitEnd?) && served.replies == []
      && served.disk == Up.WithPart(disk, sha, disk.parts[sha] + Data(bodies[..n]))
    decreases n
  {
    hide Follows, Reach, Stream, Data, IsPiece, Up.OnPacket;
    var part := disk.parts[sha];
    if n == 0 {
      assert bodies[..0] == [] && Mine(bodies[..0]) == [];
      NoData();
      Up.ServeNothing(server, disk, [], ios);
      assert part + [] == part && disk.parts[sha := part] == disk.parts;
    } else {
      DataComesFirst(bodies, source, |part|);
      SendsRest(bodies, source, |part|);
      MineFirst(bodies, n);
      var bytes := bodies[0].bytes;
      var next := Up.OnPacket(server, disk, Mine(bodies[..n])[0], ios[0]);
      ServePiece(server, sha, disk, source, bytes);
      ServeSome(next.server, sha, next.disk, source, bodies[1..], n - 1, ios[1..]);
      assert part + bytes + Data(bodies[1..][..n - 1]) == part + (bytes + Data(bodies[1..][..n - 1]));
      assert disk.parts[sha := part + bytes][sha := part + Data(bodies[..n])]
        == disk.parts[sha := part + Data(bodies[..n])];
    }
  }

  lemma NoData()
    ensures Data([]) == []
  {
  }

  /** The first packets of a stream bring the next bytes of the file. */
  lemma {:induction false} SomeOfIt(bodies: seq<Body>, source: Bytes, from: nat, n: nat)
    requires Sends(bodies, source, from) && n < |bodies| && from <= |source|
    ensures from + |Data(bodies[..n])| <= |source|
    ensures Data(bodies[..n]) == source[from..from + |Data(bodies[..n])|]
    decreases n
  {
    hide Follows, Reach, Stream, Data;
    if n == 0 {
      assert bodies[..0] == [];
      NoData();
    } else {
      DataComesFirst(bodies, source, from);
      SendsRest(bodies, source, from);
      MineFirst(bodies, n);
      var bytes, rest := bodies[0].bytes, Data(bodies[1..][..n - 1]);
      SomeOfIt(bodies[1..], source, from + |bytes|, n - 1);
      Slices(source, from, from + |bytes|, from + |bytes| + |rest|);
    }
  }

  lemma StillAPrefix(part: Bytes, source: Bytes, more: Bytes)
    requires |part| + |more| <= |source| && more == source[|part|..|part| + |more|]
    ensures part + more <= source <==> part <= source
  {
    assert source[..|part|] + source[|part|..|part| + |more|] == source[..|part| + |more|];
    assert (part + more)[..|part|] == part;
  }

  /** An upload that loses its connection after some packets keeps what they brought, and
      publishes nothing. */
  lemma InterruptedUploadIsKept(
    hash: Hash, disk: Up.Disk, source: Bytes, sha: string, bodies: seq<Body>, n: nat, ios: seq<Up.Io>)
    requires IsSha(sha) && AllSmoothUp(ios) && |ios| >= n + 2 && n < |bodies|
    requires var kept := Kept(Up.Part(disk, sha), |source|); |kept| < |source| && Sends(bodies, source, |kept|)
    ensures var kept := Kept(Up.Part(disk, sha), |source|);
      var after := Up.Attempt(hash, disk, |source|, sha, Up.Absent, Mine(bodies[..n]), ios);
      after.disk == Up.WithPart(disk, sha, kept + Data(bodies[..n])) && after.replies == [PutsResume(|kept|)]
  {
    hide Up.Begin, Up.Serve, Sends, IsSha, Mine, Data, Kept;
    var kept := Kept(Up.Part(disk, sha), |source|);
    BeginSmooth(disk, |source|, sha);
    var begun := Up.Begin(disk, |source|, sha, Up.Absent, ios[0]);
    ServeSome(begun.server, sha, begun.disk, source, bodies, n, ios[2..]);
    assert disk.parts[sha := kept][sha := kept + Data(bodies[..n])] == disk.parts[sha := kept + Data(bodies[..n])];
  }

  /** So an upload is resumed: cut off anywhere and taken up again with what is missing then, it
      is acknowledged, and the file stored, exactly if it would have been in one go. */
  lemma UploadIsResumed(
    hash: Hash, disk: Up.Disk, source: Bytes, first: seq<Body>, n: nat, ios: seq<Up.Io>,
    second: seq<Body>, ios': seq<Up.Io>)
    requires Injective(hash) && IsSha(hash(source)) && AllSmoothUp(ios) && AllSmoothUp(ios')
    requires n < |first| && |ios| >= n + 2 && |ios'| >= |second| + 2
    requires var kept := Kept(Up.Part(disk, hash(source)), |source|);
      && |kept| < |source| && Sends(first, source, |kept|)
      && var now := |kept + Data(first[..n])|;
        if now == |source| then second == [] else Sends(second, source, now)
    ensures var kept := Kept(Up.Part(disk, hash(source)), |source|);
      var once := Up.Attempt(hash, disk, |source|, hash(source), Up.Absent, Mine(first[..n]), ios);
      var twice := Up.Attempt(hash, once.disk, |source|, hash(source), Up.Absent, Mine(second), ios');
      && (Ack in twice.replies <==> kept <= source)
      && twice.disk.objects == (if kept <= source then disk.objects[hash(source) := source] else disk.objects)
  {
    hide Up.Attempt, Sends, IsSha, Injective, Mine, Data;
    var sha := hash(source);
    var kept, more := Kept(Up.Part(disk, sha), |source|), Data(first[..n]);
    InterruptedUploadIsKept(hash, disk, source, sha, first, n, ios);
    SomeOfIt(first, source, |kept|, n);
    var once := Up.Attempt(hash, disk, |source|, sha, Up.Absent, Mine(first[..n]), ios);
    assert Up.Part(once.disk, sha) == kept + more && Kept(kept + more, |source|) == kept + more;
    StillAPrefix(kept, source, more);
    UploadSucceedsIff(hash, once.disk, source, second, ios');
  }

  /** So a corrupt part costs one attempt: the next one gets through. */
  lemma TwoUploadsSuffice(
    hash: Hash, disk: Up.Disk, source: Bytes, first: seq<Body>, ios: seq<Up.Io>, second: seq<Body>, ios': seq<Up.Io>)
    requires Injective(hash) && IsSha(hash(source))
    requires AllSmoothUp(ios) && |ios| >= |first| + 2 && AllSmoothUp(ios') && |ios'| >= |second| + 2
    requires var kept := Kept(Up.Part(disk, hash(source)), |source|);
      if |kept| == |source| then first == [] else Sends(first, source, |kept|)
    requires if source == [] then second == [] else Sends(second, source, 0)
    ensures var once := Up.Attempt(hash, disk, |source|, hash(source), Up.Absent, Mine(first), ios);
      var twice := Up.Attempt(hash, once.disk, |source|, hash(source), Up.Absent, Mine(second), ios');
      Ack in twice.replies && twice.disk.objects == disk.objects[hash(source) := source]
  {
    hide Up.Attempt;
    UploadSucceedsIff(hash, disk, source, first, ios);
    var once := Up.Attempt(hash, disk, |source|, hash(source), Up.Absent, Mine(first), ios);
    UploadSucceedsIff(hash, once.disk, source, second, ios');
  }

  ghost predicate AllSmoothDown(ios: seq<Down.Io>) {
    forall i :: 0 <= i < |ios| ==> ios[i] == Down.SMOOTH
  }

  /** The client takes in all that is sent. */
  lemma {:induction false} FetchHonest(client: Down.Client, hash: Hash, sha: string, local: Down.Local,
      source: Bytes, bodies: seq<Body>, ios: seq<Down.Io>)
    requires Down.Fetches(hash, client, |source|, sha, local)
    requires client.Fetching? || (client.AwaitEnd? && !client.useFinal)
    requires Sends(bodies, source, |local.part.value|) && AllSmoothDown(ios) && |ios| >= |bodies|
    ensures var fetched := Down.Fetch(client, local, Mine(bodies), ios);
      && fetched.client == Down.Verifying(|source|, sha, false) && fetched.answers == []
      && fetched.local == local.(part := Some(Completed(local.part.value, source)))
    decreases |bodies|
  {
    hide Completed, Follows, Reach, Stream;
    var part := local.part.value;
    SendsFirst(bodies, source, |part|);
    var next := Down.OnPacket(client, local, Mine(bodies)[0], ios[0]);
    assert Mine(bodies)[1..] == Mine(bodies[1..]);
    if bodies[0].FileData? {
      SendsRest(bodies, source, |part|);
      var bytes := bodies[0].bytes;
      assert next == Down.Outcome(next.client, local.(part := Some(part + bytes)), []);
      CompletedFurther(part, bytes, source);
      FetchHonest(next.client, hash, sha, next.local, source, bodies[1..], ios[1..]);
    } else {
      CompletedIs(part, source);
      assert next == Down.Outcome(Down.Verifying(|source|, sha, false), local, []);
      Down.FetchNothing(next.client, next.local, Mine(bodies)[1..], ios[1..]);
    }
  }

  /** The file a download is to fetch, and that the target does not hold it yet. */
  ghost predicate Wanted(hash: Hash, local: Down.Local, source: Bytes) {
    && IsDigest(hash) && IsSha(hash(source))
    && (local.target.Some? ==> !Down.Matches(hash, local.target.value, |source|, hash(source)))
  }

  lemma InfoSmooth(hash: Hash, local: Down.Local, source: Bytes)
    requires Wanted(hash, local, source)
    ensures var kept := Kept(Down.PartOf(local), |source|);
      var begun := Down.OnInfo(hash, local, |source|, hash(source), Down.SMOOTH);
      && begun.client == (if |kept| == |source| then Down.AwaitEnd(|source|, hash(source), false)
                          else Down.Fetching(|source|, hash(source), false, |kept|, 0))
      && begun.local == local.(part := Some(kept)) && begun.answers == [ResumePos(|kept|)]
  {
  }

  /** A download during which nothing fails succeeds exactly if what is kept of the part is a
      beginning of the file. Otherwise it leaves a part of the file's size behind. */
  lemma DownloadSucceedsIff(hash: Hash, local: Down.Local, source: Bytes, bodies: seq<Body>, ios: seq<Down.Io>)
    requires Wanted(hash, local, source) && AllSmoothDown(ios) && |ios| >= |bodies| + 2
    requires Sends(bodies, source, |Kept(Down.PartOf(local), |source|)|)
    ensures var kept := Kept(Down.PartOf(local), |source|);
      var after := Down.Attempt(hash, local, Packet(true, GetsInfo(|source|, hash(source))), Mine(bodies), ios);
      && (after.client.Acking? <==> kept <= source)
      && (kept <= source ==> after.local == Down.Local(Some(source), None))
      && (!(kept <= source) ==> after.local == local.(part := Some(Completed(kept, source))))
  {
    hide Completed, Sends, Down.OnInfo, Down.Fetch, Lower;
    var sha := hash(source);
    var kept := Kept(Down.PartOf(local), |source|);
    var begun := Down.OnInfo(hash, local, |source|, sha, ios[0]);
    InfoSmooth(hash, local, source);
    FetchHonest(begun.client, hash, sha, begun.local, source, bodies, ios[2..]);
    CompletedIs(kept, source);
    assert Down.Matches(hash, Completed(kept, source), |source|, sha) <==> Completed(kept, source) == source;
  }

  lemma FetchPiece(client: Down.Client, hash: Hash, sha: string, local: Down.Local, source: Bytes, bytes: Bytes)
    requires Down.Fetches(hash, client, |source|, sha, local)
    requires client.Fetching? || (client.AwaitEnd? && !client.useFinal)
    requires IsPiece(bytes, source, |local.part.value|)
    ensures var next := Down.OnPacket(client, local, Packet(true, FileData(bytes)), Down.SMOOTH);
      && next.local == local.(part := Some(local.part.value + bytes)) && next.answers == []
      && (next.client.Fetching? || (next.client.AwaitEnd? && !next.client.useFinal))
      && Down.Fetches(hash, next.client, |source|, sha, next.local)
  {
  }

  /** The connection is lost after some of the packets: what they brought is in the part. */
  lemma {:induction false} FetchSome(client: Down.Client, hash: Hash, sha: string, local: Down.Local,
      source: Bytes, bodies: seq<Body>, n: nat, ios: seq<Down.Io>)
    requires Down.Fetches(hash, client, |source|, sha, local)
    requires client.Fetching? || (client.AwaitEnd? && !client.useFinal)
    requires Sends(bodies, source, |local.part.value|) && n < |bodies| && AllSmoothDown(ios) && |ios| >= n
    ensures var fetched := Down.Fetch(client, local, Mine(bodies[..n]), ios);
      && (fetched.client.Fetching? || fetched.client.AwaitEnd?) && fetched.answers == []
      && fetched.local == local.(part := Some(local.part.value + Data(bodies[..n])))
    decreases n
  {
    hide Follows, Reach, Stream, Data, IsPiece, Down.OnPacket;
    var part := local.part.value;
    if n == 0 {
      assert bodies[..0] == [] && Mine(bodies[..0]) == [];
      NoData();
      Down.FetchNothing(client, local, [], ios);
      assert part + [] == part;
    } else {
      DataComesFirst(bodies, source, |part|);
      SendsRest(bodies, source, |part|);
      MineFirst(bodies, n);
      var bytes := bodies[0].bytes;
      var next := Down.OnPacket(client, local, Mine(bodies[..n])[0], ios[0]);
      FetchPiece(client, hash, sha, local, source, bytes);
      FetchSome(next.client, hash, sha, next.local, source, bodies[1..], n - 1, ios[1..]);
      assert part + bytes + Data(bodies[1..][..n - 1]) == part + (bytes + Data(bodies[1..][..n - 1]));
    }
  }

  /** A download that loses its connection after some packets keeps what they brought. */
  lemma InterruptedDownloadIsKept(
    hash: Hash, local: Down.Local, source: Bytes, bodies: seq<Body>, n: nat, ios: seq<Down.Io>)
    requires Wanted(hash, local, source) && AllSmoothDown(ios) && |ios| >= n + 2 && n < |bodies|
    requires Sends(bodies, source, |Kept(Down.PartOf(local), |source|)|)
    ensures var kept := Kept(Down.PartOf(local), |source|);
      var info := Packet(true, GetsInfo(|source|, hash(source)));
      var after := Down.Attempt(hash, local, info, Mine(bodies[..n]), ios);
      && after.local == local.(part := Some(kept + Data(bodies[..n])))
      && !after.client.Acking? && after.answers == [ResumePos(|kept|)]
  {
    hide Down.OnInfo, Down.Fetch, Sends, Mine, Data, Kept;
    InfoSmooth(hash, local, source);
    var begun := Down.OnInfo(hash, local, |source|, hash(source), ios[0]);
    Down.OnInfoFetches(hash, local, |source|, hash(source), ios[0]);
    FetchSome(begun.client, hash, hash(source), begun.local, source, bodies, n, ios[2..]);
  }

  /** So a download is resumed: cut off anywhere and taken up again with what is missing then, it
      succeeds exactly if it would have in one go. */
  lemma DownloadIsResumed(
    hash: Hash, local: Down.Local, source: Bytes, first: seq<Body>, n: nat, ios: seq<Down.Io>,
    second: seq<Body>, ios': seq<Down.Io>)
    requires Wanted(hash, local, source) && AllSmoothDown(ios) && AllSmoothDown(ios')
    requires n < |first| && |ios| >= n + 2 && |ios'| >= |second| + 2
    requires var kept := Kept(Down.PartOf(local), |source|);
      Sends(first, source, |kept|) && Sends(second, source, |kept + Data(first[..n])|)
    ensures var kept := Kept(Down.PartOf(local), |source|);
      var info := Packet(true, GetsInfo(|source|, hash(source)));
      var once := Down.Attempt(hash, local, info, Mine(first[..n]), ios);
      var twice := Down.Attempt(hash, once.local, info, Mine(second), ios');
      && (twice.client.Acking? <==> kept <= source)
      && (kept <= source ==> twice.local == Down.Local(Some(source), None))
  {
    hide Down.Attempt, Sends, Mine, Data;
    var kept, more := Kept(Down.PartOf(local), |source|), Data(first[..n]);
    InterruptedDownloadIsKept(hash, local, source, first, n, ios);
    SomeOfIt(first, source, |kept|, n);
    var info := Packet(true, GetsInfo(|source|, hash(source)));
    var once := Down.Attempt(hash, local, info, Mine(first[..n]), ios);
    assert Down.PartOf(once.local) == kept + more && Kept(kept + more, |source|) == kept + more;
    StillAPrefix(kept, source, more);
    DownloadSucceedsIff(hash, once.local, source, second, ios');
  }

  /** A download of what the target holds already takes nothing but the end marker: it succeeds
      and changes no file. */
  lemma PresentIsAcknowledged(
    hash: Hash, local: Down.Local, size: nat, sha: string, rest: seq<Body>, ios: seq<Down.Io>)
    requires IsSha(sha) && local.target.Some? && Down.Matches(hash, local.target.value, size, sha)
    requires AllSmoothDown(ios) && |ios| >= 3
    ensures var after := Down.Attempt(hash, local, Packet(true, GetsInfo(size, sha)), Mine([FileEnd] + rest), ios);
      after == Down.Outcome(Down.Acking, local, [ResumePos(size), Ack])
  {
    hide IsSha, Down.Matches;
    var packets := Mine([FileEnd] + rest);
    MineAt([FileEnd] + rest, 0);
    var waiting := Down.AwaitEnd(size, sha, true);
    var next := Down.OnPacket(waiting, local, packets[0], ios[2..][0]);
    Down.FetchNothing(next.client, next.local, packets[1..], ios[2..][1..]);
    assert Down.Fetch(waiting, local, packets, ios[2..]) == Down.Outcome(Down.Verifying(size, sha, true), local, []);
  }

  /** So a download with a corrupt part fails again and again, until the part is taken away. */
  lemma CorruptDownloadStaysStuck(
    hash: Hash, local: Down.Local, source: Bytes, first: seq<Body>, ios: seq<Down.Io>,
    second: seq<Body>, ios': seq<Down.Io>)
    requires Wanted(hash, local, source) && !(Kept(Down.PartOf(local), |source|) <= source)
    requires AllSmoothDown(ios) && |ios| >= |first| + 2 && AllSmoothDown(ios') && |ios'| >= |second| + 2
    requires Sends(first, source, |Kept(Down.PartOf(local), |source|)|) && Sends(second, source, |source|)
    ensures var info := Packet(true, GetsInfo(|source|, hash(source)));
      var once := Down.Attempt(hash, local, info, Mine(first), ios);
      var twice := Down.Attempt(hash, once.local, info, Mine(second), ios');
      !once.client.Acking? && !twice.client.Acking? && twice.local == once.local
  {
    hide Down.Attempt;
    DownloadSucceedsIff(hash, local, source, first, ios);
    var info := Packet(true, GetsInfo(|source|, hash(source)));
    var once := Down.Attempt(hash, local, info, Mine(first), ios);
    var kept, stuck := Kept(Down.PartOf(local), |source|), Down.PartOf(once.local);
    CompletedIs(kept, source);
    CompletedIs(stuck, source);
    assert Kept(stuck, |source|) == stuck && stuck != source;
    DownloadSucceedsIff(hash, once.local, source, second, ios');
  }
}

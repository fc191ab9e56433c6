/** Two files of one digest and different sizes: why the agreement of paths and objects rests
    on digests having no collisions. */
module Collisions {
  import opened Basics
  import opened FileStream
  import opened Tables
  import opened PathTree
  import opened Drive
  import opened Recovery
  import Paths
  import Uploads

  function Zeros(n: nat): (s: string)
    ensures |s| == n && forall i :: 0 <= i < n ==> s[i] == '0'
  {
    if n == 0 then "" else "0" + Zeros(n - 1)
  }

  lemma {:induction false} LowerOfZeros(n: nat)
    ensures Lower(Zeros(n)) == Zeros(n)
  {
    if n > 0 {
      LowerOfZeros(n - 1);
      assert Zeros(n)[1..] == Zeros(n - 1);
    }
  }

  /** A digest function under which everything collides. */
  function Constant(): Hash {
    (content: Bytes) => Zeros(64)
  }

  function Bodies(content: Bytes): seq<Body> {
    if content == [] then [] else [FileData(content), FileEnd]
  }

  /** No call fails, except that the rows may not be written. */
  function Ios(insert: bool): seq<Uploads.Io> {
    [Uploads.SMOOTH, Uploads.SMOOTH.(insert := insert), Uploads.SMOOTH, Uploads.SMOOTH]
  }

  lemma SendsContent(content: Bytes)
    requires 0 < |content| <= CHUNK
    ensures Sends(Bodies(content), content, 0)
  {
    var bodies := Bodies(content);
    assert bodies[1..] == [FileEnd] && bodies[1..][1..] == [];
    assert Follows(bodies[1..], content, |content|);
    assert Reach(bodies[1..], |content|) == |content|;
    assert content == content[0..|content|];
  }

  /** A client that sends what it claims, with no part left from before, gets it published. */
  lemma SmoothPublishes(hash: Hash, disk: Uploads.Disk, sha: string, content: Bytes, insert: bool)
    requires IsSha(sha) && hash(content) == sha && |content| <= CHUNK && sha !in disk.parts
    ensures Uploads.Publishes(hash, disk, |content|, sha, Uploads.Absent, Mine(Bodies(content)), Ios(insert))
  {
    hide Uploads.Begin, Uploads.Serve, Sends, Completed, Mine;
    if content != [] {
      SendsContent(content);
    }
    AllIsServed(disk, sha, content, Bodies(content), Ios(insert)[2..]);
    CompletedIs([], content);
    assert [] <= content;
  }

  function PutOf(name: string, content: Bytes, insert: bool): Upload {
    Upload(1, "/" + name, |content|, Zeros(64), Mine(Bodies(content)), Ios(insert), true, true)
  }

  lemma Resolves(name: string)
    requires Paths.CleanPart(name) && |name| < 100
    ensures Paths.Norm("/", "/" + name) == Some("/" + name)
    ensures Paths.Parent("/" + name) == "/" && Paths.BaseName("/" + name) == name
  {
    assert Paths.Clean([name]);
    assert [name][1..] == [] && Paths.Slashed([]) == "";
    assert Paths.Render([name]) == "/" + name;
    assert Paths.Canonical("/" + name);
    Paths.CanonicalIsFixed("/", "/" + name);
    Paths.ParentOfRendered([name]);
    assert [name][..0] == [];
  }

  /** The first user may put a file that is not there into the root directory. */
  lemma MayPut(db: Db, name: string, content: Bytes, insert: bool)
    requires Paths.CleanPart(name) && |name| < 100 && KeysOk(db)
    requires 1 in db.paths && db.paths[1].user == 1 && db.paths[1].path == "/" && db.paths[1].isDir
    requires forall id :: !At(db, id, 1, "/" + name)
    requires Existing(db, Zeros(64), |content|).None?
    ensures Plan(db, PutOf(name, content, insert)).Absent? && Destination(db, PutOf(name, content, insert)).Some?
    ensures Destination(db, PutOf(name, content, insert)).value.0 == "/" + name
  {
    hide Paths.Norm, Paths.Parent, Paths.BaseName;
    Resolves(name);
    assert At(db, 1, 1, "/");
    assert IsSha(Zeros(64));
  }

  lemma Puts(w: World, name: string, content: Bytes, insert: bool)
    requires Inv(Constant(), w) && Plan(w.db, PutOf(name, content, insert)).Absent?
    requires |content| <= CHUNK && Zeros(64) !in w.disk.parts
    ensures var up := PutOf(name, content, insert);
      && Publishes(Constant(), w, up) && (Creates(Constant(), w, up) <==> insert)
      && (Agree(Constant(), Uploaded(Constant(), w, up)) <==> SizesFit(w, up))
      && Zeros(64) !in Attempt(Constant(), w, up).disk.parts
  {
    hide Agree, TreeOk, Ok, Plan, Uploads.Attempt, Uploads.Publishes, SizesFit, Zeros;
    var up := PutOf(name, content, insert);
    ZerosAreSha();
    SmoothPublishes(Constant(), w.disk, Zeros(64), content, insert);
    LowerOfZeros(64);
    var published := PublishedContent(Constant(), w, up);
    Uploads.PublishedIsStored(Constant(), w.disk, up.size, up.sha, Uploads.Absent, up.packets, up.ios);
    UploadAgrees(Constant(), w, up);
  }

  lemma ZerosAreSha()
    ensures IsSha(Zeros(64))
  {
  }

  /** A drive with one user. */
  lemma OneUser() returns (w: World)
    ensures Inv(Constant(), w) && w.disk == Uploads.Disk(map[], map[]) && w.db.files == map[] && w.db.nextPath == 2
    ensures w.db.paths == map[1 := PathRow(1, "/", None, None, "/", true)] && OnlyRoot(w.db)
  {
    hide Ok, TreeOk, Agree;
    var start := World(EMPTY, Uploads.Disk(map[], map[]));
    InitOk(Constant(), start);
    JoinKeepsInv(Constant(), start, "user");
    OkHasIds(EMPTY);
    RegisterInserts(EMPTY, "user");
    w := Drive.After(Constant(), start, Join("user"));
  }

  lemma OkHasIds(db: Db)
    requires Ok(db)
    ensures IdsOk(db) && KeysOk(db)
  {
  }

  ghost predicate OnlyRoot(db: Db) {
    && Ok(db) && TreeOk(db) && db.files == map[] && db.nextPath == 2
    && db.paths == map[1 := PathRow(1, "/", None, None, "/", true)]
  }

  ghost predicate RootAndFile(db: Db) {
    && Ok(db) && TreeOk(db) && db.paths.Keys == {1, 2} && At(db, 1, 1, "/") && db.paths[1].isDir && At(db, 2, 1, "/a")
    && FileOf(db, Zeros(64)).Some? && db.files[FileOf(db, Zeros(64)).value].size == 0
  }

  lemma FirstMayPut(db: Db)
    requires OnlyRoot(db)
    ensures Plan(db, PutOf("a", [], true)).Absent? && FileOf(db, Zeros(64)).None?
    ensures Destination(db, PutOf("a", [], true)).Some? && Destination(db, PutOf("a", [], true)).value.0 == "/a"
  {
    hide TreeOk, CountsOk, IdsOk, KeysOk, Destination, Plan, Zeros;
    OkHasIds(db);
    assert "/" + "a" == "/a";
    MayPut(db, "a", [], true);
  }

  lemma RowsThen(db: Db, db': Db)
    requires db.files == map[] && db.nextPath == 2 && db.paths == map[1 := PathRow(1, "/", None, None, "/", true)]
    requires NamesFile(db, db', 1, "/a", db.nextFile) && db'.files == map[db.nextFile := FileRow(Zeros(64), 0, 1)]
    ensures db'.paths.Keys == {1, 2} && At(db', 1, 1, "/") && db'.paths[1].isDir && At(db', 2, 1, "/a")
    ensures FileOf(db', Zeros(64)).Some? && db'.files[FileOf(db', Zeros(64)).value].size == 0
  {
    hide Zeros;
    assert HasSha(db', db.nextFile, Zeros(64));
  }

  lemma FirstRows(db: Db)
    requires OnlyRoot(db)
    ensures Plan(db, PutOf("a", [], true)).Absent?
    ensures CreatedDb(db, PutOf("a", [], true)).Some? && RootAndFile(CreatedDb(db, PutOf("a", [], true)).value)
  {
    hide Ok, TreeOk, Plan, Destination, CreatedDb, NamesFile, Zeros;
    FirstMayPut(db);
    LowerOfZeros(64);
    CreateWorks(db, PutOf("a", [], true));
    RowsThen(db, CreatedDb(db, PutOf("a", [], true)).value);
  }

  /** After the first upload. */
  lemma FirstFile(w: World)
    requires Inv(Constant(), w) && w.disk == Uploads.Disk(map[], map[]) && OnlyRoot(w.db)
    ensures var w' := Uploaded(Constant(), w, PutOf("a", [], true));
      Inv(Constant(), w') && Zeros(64) !in w'.disk.parts && RootAndFile(w'.db)
  {
    hide Ok, TreeOk, Agree, Plan, CreatedDb, Uploads.Attempt, Zeros;
    var up := PutOf("a", [], true);
    FirstMayPut(w.db);
    FirstRows(w.db);
    Puts(w, "a", [], true);
    LowerOfZeros(64);
    Uploads.AttemptIsSafe(Constant(), w.disk, 0, up.sha, Uploads.Absent, up.packets, up.ios);
  }

  lemma NotThere(db: Db, id: nat)
    requires db.paths.Keys == {1, 2} && At(db, 1, 1, "/") && At(db, 2, 1, "/a")
    ensures !At(db, id, 1, "/" + "b")
  {
    assert "/a"[1] == 'a' && ("/" + "b")[1] == 'b';
  }

  lemma SecondMayPut(db: Db, insert: bool)
    requires RootAndFile(db)
    ensures Plan(db, PutOf("b", [0], insert)).Absent?
  {
    hide TreeOk, CountsOk, IdsOk, KeysOk, Destination, Plan, Zeros;
    OkHasIds(db);
    LowerOfZeros(64);
    forall id ensures !At(db, id, 1, "/" + "b") {
      NotThere(db, id);
    }
    MayPut(db, "b", [0], insert);
  }

  /** A second upload, with the same digest and another size, replaces the object and leaves the
      first path with a size that its object does not have: if it is acknowledged, and also if
      its own rows cannot be written. */
  lemma CollisionBreaksAgreement(insert: bool) returns (w: World, up: Upload)
    ensures Inv(Constant(), w) && |up.ios| >= 2 && (Creates(Constant(), w, up) <==> insert)
    ensures !Agree(Constant(), Uploaded(Constant(), w, up))
  {
    hide Inv, Ok, TreeOk, Plan, Creates, Publishes, Agree, Uploaded, Attempt, Zeros;
    var user := OneUser();
    FirstFile(user);
    w, up := Uploaded(Constant(), user, PutOf("a", [], true)), PutOf("b", [0], insert);
    LowerOfZeros(64);
    SecondMayPut(w.db, insert);
    Puts(w, "b", [0], insert);
  }
}

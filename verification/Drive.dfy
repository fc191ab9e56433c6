/** The database and the object store together, under the server's handlers run one at a
    time: register, mkdir, rmdir, rm and puts. */
module Drive {
  import opened Basics
  import opened FileStream
  import opened Tables
  import opened PathTree
  import Paths
  import Uploads

  datatype World = World(db: Db, disk: Uploads.Disk)

  /** One `puts`, with whatever its sender sends and whichever system calls fail. */
  datatype Upload = Upload(
    user: nat, remote: string, size: nat, sha: string,
    packets: seq<Packet>, ios: seq<Uploads.Io>, queryOk: bool, linkOk: bool)

  datatype Request =
    | Join(name: string)
    | MakeDir(user: nat, cwd: string, arg: string)
    | UnmakeDir(user: nat, cwd: string, arg: string)
    | Remove(user: nat, cwd: string, arg: string, unlinks: bool)
    | Put(upload: Upload)

  /** Where an upload goes and into which directory, if it may. */
  ghost function Destination(db: Db, up: Upload): (d: Option<(string, nat)>)
    ensures d.Some? ==> Paths.Norm("/", up.remote) == Some(d.value.0) && d.value.0 != "/"
    ensures d.Some? ==> Lookup(db, up.user, d.value.0).None? && |Paths.BaseName(d.value.0)| < NAME_MAX
    ensures d.Some? ==> DirAt(db, up.user, Paths.Parent(d.value.0)) == Some(d.value.1)
  {
    if !Paths.Absolute(up.remote) then None
    else match Paths.Norm("/", up.remote)
      case None => None
      case Some(target) =>
        if target == "/" || |Paths.BaseName(target)| >= NAME_MAX then None
        else match DirAt(db, up.user, Paths.Parent(target))
          case None => None
          case Some(parent) => if Lookup(db, up.user, target).Some? then None else Some((target, parent))
  }

  /** A file of that digest and size that is already there. */
  ghost function Existing(db: Db, sha: string, size: nat): (file: Option<nat>)
    ensures file.Some? ==> HasSha(db, file.value, Lower(sha)) && db.files[file.value].size == size
  {
    match FileOf(db, Lower(sha))
    case Some(file) => if db.files[file].size == size then Some(file) else None
    case None => None
  }

  ghost function Plan(db: Db, up: Upload): Uploads.Lookup {
    if !up.queryOk || !IsSha(up.sha) || Destination(db, up).None? then Uploads.Refused
    else if Existing(db, up.sha, up.size).None? then Uploads.Absent
    else if up.linkOk then Uploads.Linked
    else Uploads.LinkFails
  }

  ghost function Attempt(hash: Hash, w: World, up: Upload): Uploads.Outcome
    requires |up.ios| >= 2
  {
    Uploads.Attempt(hash, w.disk, up.size, up.sha, Plan(w.db, up), up.packets, up.ios)
  }

  ghost predicate Creates(hash: Hash, w: World, up: Upload)
    requires |up.ios| >= 2
  {
    Plan(w.db, up).Absent? && Ack in Attempt(hash, w, up).replies
  }

  ghost function LinkedDb(db: Db, up: Upload): Option<Db>
    requires Destination(db, up).Some? && Existing(db, up.sha, up.size).Some?
  {
    var (target, parent) := Destination(db, up).value;
    FileLinked(db, up.user, target, parent, Paths.BaseName(target), Existing(db, up.sha, up.size).value)
  }

  ghost function CreatedDb(db: Db, up: Upload): Option<Db>
    requires Destination(db, up).Some?
  {
    var (target, parent) := Destination(db, up).value;
    FileCreated(db, up.user, target, parent, Paths.BaseName(target), Lower(up.sha), up.size)
  }

  /** `handle_puts`. */
  ghost function Uploaded(hash: Hash, w: World, up: Upload): World
    requires |up.ios| >= 2
  {
    var db :=
      if Plan(w.db, up).Linked? then Or(w.db, LinkedDb(w.db, up))
      else if Creates(hash, w, up) then Or(w.db, CreatedDb(w.db, up))
      else w.db;
    World(db, Attempt(hash, w, up).disk)
  }

  /** `handle_rm`. */
  ghost function Unlinked(w: World, user: nat, cwd: string, arg: string, unlinks: bool): World {
    match Target(cwd, arg)
    case None => w
    case Some(target) =>
      match Lookup(w.db, user, target)
      case None => w
      case Some(id) =>
        if w.db.paths[id].isDir then w
        else match FileRemoved(w.db, user, id)
          case Removed(db, last) =>
            World(db, if last.Some? && unlinks then w.disk.(objects := w.disk.objects - {last.value}) else w.disk)
          case _ => w
  }

  ghost predicate Enabled(request: Request) {
    request.Put? ==> |request.upload.ios| >= 2
  }

  ghost function After(hash: Hash, w: World, request: Request): World
    requires Enabled(request)
  {
    match request
    case Join(name) => w.(db := Or(w.db, Registered(w.db, name)))
    case MakeDir(user, cwd, arg) => w.(db := DirMade(w.db, user, cwd, arg))
    case UnmakeDir(user, cwd, arg) => w.(db := DirUnmade(w.db, user, cwd, arg))
    case Remove(user, cwd, arg, unlinks) => Unlinked(w, user, cwd, arg, unlinks)
    case Put(upload) => Uploaded(hash, w, upload)
  }

  /** The object of a file is there, with the file's size and digest. */
  ghost predicate Stored(hash: Hash, objects: map<string, Bytes>, file: FileRow) {
    && file.sha in objects && |objects[file.sha]| == file.size
    && hash(objects[file.sha]) == file.sha
  }

  /** Every path of a file leads to a stored object. */
  ghost predicate Agree(hash: Hash, w: World) {
    && (forall id :: id in w.db.paths && w.db.paths[id].file.Some? ==> w.db.paths[id].file.value in w.db.files)
    && (forall file :: file in w.db.files ==> Stored(hash, w.disk.objects, w.db.files[file]))
  }

  /** Counts, tree and digests; these do not depend on what digests may collide. */
  ghost predicate Sound(hash: Hash, w: World) {
    Ok(w.db) && TreeOk(w.db) && Uploads.StoreOk(hash, w.disk)
  }

  ghost predicate Inv(hash: Hash, w: World) {
    Sound(hash, w) && Agree(hash, w)
  }

  ghost predicate Init(w: World) {
    w.db == EMPTY && w.disk.objects == map[]
  }

  lemma InitOk(hash: Hash, w: World)
    requires Init(w)
    ensures Inv(hash, w)
  {
    EmptyIsOk();
    EmptyTree();
  }

  lemma SameTree(db: Db, db': Db)
    requires TreeOk(db) && db'.paths == db.paths && db'.users == db.users
    ensures TreeOk(db')
  {
    forall id | id in db'.paths ensures RowOk(db', id) {
      assert RowOk(db, id);
    }
    forall user | user in db'.users ensures HasRoot(db', user) {
      assert HasRoot(db, user);
      var id :| At(db, id, user, "/");
      assert At(db', id, user, "/");
    }
  }

  /** A file goes into the directory found for it; nothing else is at its path. */
  lemma NewFileKeepsTree(db: Db, db': Db, up: Upload, row: PathRow)
    requires TreeOk(db) && Destination(db, up).Some?
    requires IdsOk(db') && db'.paths == db.paths && db'.users == db.users && db'.nextPath == db.nextPath
    requires row.user == up.user && row.path == Destination(db, up).value.0 &&
      row.parent == Some(Destination(db, up).value.1)
    requires row.name == Paths.BaseName(row.path)
    ensures Inserted(db', row) == Some(db'.(paths := db.paths[db.nextPath := row], nextPath := db.nextPath + 1))
    ensures TreeOk(Inserted(db', row).value)
  {
    hide TreeOk, Destination, Paths.Norm, Paths.Parent, Paths.Canonical;
    Paths.NormIsCanonical("/", up.remote);
    SameTree(db, db');
    assert forall i :: At(db', i, row.user, row.path) == At(db, i, row.user, row.path);
    InsertKeepsTree(db', row);
  }

  /** What a link does to the tables. */
  lemma LinkWorks(db: Db, up: Upload)
    requires Ok(db) && TreeOk(db) && Destination(db, up).Some? && Existing(db, up.sha, up.size).Some?
    ensures LinkedDb(db, up).Some? && Ok(LinkedDb(db, up).value) && TreeOk(LinkedDb(db, up).value)
    ensures NamesFile(db, LinkedDb(db, up).value, up.user,
        Destination(db, up).value.0, Existing(db, up.sha, up.size).value)
    ensures LinkedDb(db, up).value.files.Keys == db.files.Keys
  {
    hide TreeOk, KeysOk, CountsOk, Destination, Existing, Paths.Norm, Paths.Parent, Paths.BaseName;
    var (target, parent) := Destination(db, up).value;
    var file := Existing(db, up.sha, up.size).value;
    var row := PathRow(up.user, target, Some(file), Some(parent), Paths.BaseName(target), false);
    CountedIsPending(db, file);
    NewFileKeepsTree(db, Counted(db, file), up, row);
    LinkKeepsOk(db, row, file);
  }

  /** A new row names the file; older rows and files are as before, the count aside. */
  ghost predicate NamesFile(db: Db, db': Db, user: nat, path: string, file: nat) {
    && db'.paths.Keys == db.paths.Keys + {db.nextPath} && db.nextPath !in db.paths
    && (forall id :: id in db.paths ==> db'.paths[id] == db.paths[id])
    && At(db', db.nextPath, user, path) && db'.paths[db.nextPath].file == Some(file) && !db'.paths[db.nextPath].isDir
    && db'.nextPath == db.nextPath + 1 && db'.nextFile >= db.nextFile
    && db.files.Keys <= db'.files.Keys && file in db'.files
    && (forall f :: f in db'.files ==> f in db.files || f >= db.nextFile)
    && (forall f :: f in db.files ==> SameFile(db.files[f], db'.files[f]))
  }

  predicate SameFile(a: FileRow, b: FileRow) {
    a.sha == b.sha && a.size == b.size
  }

  /** What a creation does to the tables. */
  lemma CreateWorks(db: Db, up: Upload)
    requires Ok(db) && TreeOk(db) && Destination(db, up).Some?
    ensures CreatedDb(db, up).Some? && Ok(CreatedDb(db, up).value) && TreeOk(CreatedDb(db, up).value)
    ensures var (db', file) := Upserted(db, Lower(up.sha), up.size);
      && NamesFile(db, CreatedDb(db, up).value, up.user, Destination(db, up).value.0, file)
      && CreatedDb(db, up).value.files == db'.files
  {
    hide TreeOk, KeysOk, CountsOk, Destination, Paths.Norm, Paths.Parent, Paths.BaseName;
    var (target, parent) := Destination(db, up).value;
    var (db', file) := Upserted(db, Lower(up.sha), up.size);
    var row := PathRow(up.user, target, Some(file), Some(parent), Paths.BaseName(target), false);
    UpsertedIsPending(db, Lower(up.sha), up.size);
    NewFileKeepsTree(db, db', up, row);
    CreateKeepsOk(db, CreateFile(up.user, target, parent, Paths.BaseName(target), Lower(up.sha), up.size));
  }

  ghost predicate LowerCase(hash: Hash) {
    forall content :: Lower(hash(content)) == hash(content)
  }

  ghost predicate Publishes(hash: Hash, w: World, up: Upload)
    requires |up.ios| >= 2
  {
    Uploads.Publishes(hash, w.disk, up.size, up.sha, Plan(w.db, up), up.packets, up.ios)
  }

  /** Whether the row of the digest will have the size of its object: a row that is there keeps
      its size although the object may be replaced, and a new row gets the claimed size
      although the object may be an older one. */
  ghost predicate SizesFit(w: World, up: Upload)
    requires |up.ios| >= 2
  {
    match FileOf(w.db, Lower(up.sha))
    case Some(file) => up.ios[1].rename ==> w.db.files[file].size == up.size
    case None =>
      up.ios[1].insert && !up.ios[1].rename && up.sha in w.disk.objects ==> |w.disk.objects[up.sha]| == up.size
  }

  /** What is on disk once an upload has published its content. */
  lemma PublishedContent(hash: Hash, w: World, up: Upload) returns (content: Bytes)
    requires |up.ios| >= 2 && Publishes(hash, w, up) && Uploads.StoreOk(hash, w.disk) && LowerCase(hash)
    ensures hash(content) == up.sha && |content| == up.size && Lower(up.sha) == up.sha
    ensures Attempt(hash, w, up).disk.objects ==
      if up.ios[1].rename then w.disk.objects[up.sha := content] else w.disk.objects
    ensures !up.ios[1].rename ==> up.sha in w.disk.objects
    ensures Plan(w.db, up).Absent? && Destination(w.db, up).Some? && (Creates(hash, w, up) <==> up.ios[1].insert)
  {
    hide Uploads.Attempt, Uploads.Publishes, Destination, Existing;
    Uploads.PublishedIsStored(hash, w.disk, up.size, up.sha, Plan(w.db, up), up.packets, up.ios);
    var after := Attempt(hash, w, up);
    content :| hash(content) == up.sha && |content| == up.size
      && after.disk.objects == if up.ios[1].rename then w.disk.objects[up.sha := content] else w.disk.objects;
  }

  ghost predicate AllStored(hash: Hash, objects: map<string, Bytes>, db: Db) {
    forall file :: file in db.files ==> Stored(hash, objects, db.files[file])
  }

  /** The files after a creation, and whether their objects are there. */
  lemma CreationFits(hash: Hash, db: Db, objects: map<string, Bytes>, sha: string, content: Bytes, rename: bool)
    requires KeysOk(db) && IdsOk(db) && hash(content) == sha && AllStored(hash, objects, db)
    requires rename || (sha in objects && hash(objects[sha]) == sha)
    ensures var objects' := if rename then objects[sha := content] else objects;
      var fits := match FileOf(db, sha)
        case Some(file) => rename ==> db.files[file].size == |content|
        case None => !rename ==> |objects[sha]| == |content|;
      AllStored(hash, objects', Upserted(db, sha, |content|).0) <==> fits
  {
    var objects' := if rename then objects[sha := content] else objects;
    var (db', id) := Upserted(db, sha, |content|);
    assert id in db'.files && db'.files[id].sha == sha;
    forall file | file in db'.files && file != id
      ensures Stored(hash, objects', db'.files[file])
    {
      assert HasSha(db', file, db'.files[file].sha) && file in db.files;
      assert HasSha(db, file, db.files[file].sha);
      assert db.files[file].sha != sha;
    }
  }

  /** The same when the rows stay as they are. */
  lemma ReplacementFits(hash: Hash, db: Db, objects: map<string, Bytes>, sha: string, content: Bytes)
    requires KeysOk(db) && hash(content) == sha && AllStored(hash, objects, db)
    ensures var fits := match FileOf(db, sha)
      case Some(file) => db.files[file].size == |content|
      case None => true;
      AllStored(hash, objects[sha := content], db) <==> fits
  {
    forall file | file in db.files && db.files[file].sha != sha
      ensures Stored(hash, objects[sha := content], db.files[file])
    {
      assert Stored(hash, objects, db.files[file]);
    }
    var found := FileOf(db, sha);
    forall file | file in db.files && db.files[file].sha == sha ensures found == Some(file) {
      assert HasSha(db, file, sha);
    }
  }

  lemma CreateAgrees(hash: Hash, w: World, up: Upload)
    requires Inv(hash, w) && |up.ios| >= 2 && LowerCase(hash) && Publishes(hash, w, up) && up.ios[1].insert
    ensures Agree(hash, Uploaded(hash, w, up)) <==> SizesFit(w, up)
  {
    hide Destination, Existing, TreeOk, CountsOk, Uploads.Attempt, Uploads.Publishes, Stored;
    var content := PublishedContent(hash, w, up);
    CreateWorks(w.db, up);
    CreationFits(hash, w.db, w.disk.objects, up.sha, content, up.ios[1].rename);
  }

  lemma UnrecordedAgrees(hash: Hash, w: World, up: Upload)
    requires Inv(hash, w) && |up.ios| >= 2 && LowerCase(hash) && Publishes(hash, w, up) && !up.ios[1].insert
    ensures Agree(hash, Uploaded(hash, w, up)) <==> SizesFit(w, up)
  {
    hide Destination, Existing, TreeOk, CountsOk, Uploads.Attempt, Uploads.Publishes, Stored;
    var content := PublishedContent(hash, w, up);
    if up.ios[1].rename {
      ReplacementFits(hash, w.db, w.disk.objects, up.sha, content);
    }
  }

  /** Without publication, no object changes and a link leads to a stored file. */
  lemma UnpublishedAgrees(hash: Hash, w: World, up: Upload)
    requires Inv(hash, w) && |up.ios| >= 2 && !Publishes(hash, w, up)
    ensures Agree(hash, Uploaded(hash, w, up))
  {
    hide Destination, Existing, TreeOk, CountsOk, KeysOk, IdsOk, Uploads.Attempt, Uploads.Publishes, Stored;
    Uploads.UnpublishedStoresNothing(hash, w.disk, up.size, up.sha, Plan(w.db, up), up.packets, up.ios);
    if Plan(w.db, up).Linked? {
      LinkWorks(w.db, up);
      var w' := Uploaded(hash, w, up);
      forall file | file in w'.db.files ensures Stored(hash, w'.disk.objects, w'.db.files[file]) {
        SameIsStored(hash, w.disk.objects, w.db.files[file], w'.db.files[file]);
      }
    }
  }

  lemma SameIsStored(hash: Hash, objects: map<string, Bytes>, a: FileRow, b: FileRow)
    requires Stored(hash, objects, a) && SameFile(a, b)
    ensures Stored(hash, objects, b)
  {
  }

  /** After any upload, paths and objects agree exactly if it publishes nothing, or if the row of
      the digest has the size of its object. Nothing compares the two: not the upsert, and
      nothing undoes the rename when the rows cannot be written. */
  lemma UploadAgrees(hash: Hash, w: World, up: Upload)
    requires Inv(hash, w) && |up.ios| >= 2 && LowerCase(hash)
    ensures Agree(hash, Uploaded(hash, w, up)) <==> (Publishes(hash, w, up) ==> SizesFit(w, up))
  {
    hide Inv, Agree, SizesFit, Uploaded, Publishes;
    if !Publishes(hash, w, up) {
      UnpublishedAgrees(hash, w, up);
    } else if up.ios[1].insert {
      CreateAgrees(hash, w, up);
    } else {
      UnrecordedAgrees(hash, w, up);
    }
  }

  /** Without collisions the sizes always fit. */
  lemma DigestsFit(hash: Hash, w: World, up: Upload)
    requires Inv(hash, w) && |up.ios| >= 2 && Publishes(hash, w, up) && IsDigest(hash)
    ensures SizesFit(w, up)
  {
    hide Destination, Existing, TreeOk, CountsOk, Uploads.Attempt, Uploads.Publishes;
    var content := PublishedContent(hash, w, up);
    var file := FileOf(w.db, up.sha);
    if file.Some? {
      assert Stored(hash, w.disk.objects, w.db.files[file.value]);
    }
  }

  lemma JoinKeepsInv(hash: Hash, w: World, name: string)
    requires Sound(hash, w)
    ensures Sound(hash, After(hash, w, Join(name)))
    ensures Agree(hash, w) ==> Agree(hash, After(hash, w, Join(name)))
  {
    hide TreeOk, CountsOk, KeysOk, Stored, Registered;
    RegisterKeepsOk(w.db, name);
    if !NameTaken(w.db, name) {
      RegisterKeepsTree(w.db, name);
      RegisterInserts(w.db, name);
    } else {
      NameIsRefused(w.db, name);
    }
  }

  lemma NameIsRefused(db: Db, name: string)
    requires NameTaken(db, name)
    ensures Registered(db, name).None?
  {
  }

  lemma DirsKeepInv(hash: Hash, w: World, request: Request)
    requires Sound(hash, w) && (request.MakeDir? || request.UnmakeDir?)
    ensures Sound(hash, After(hash, w, request))
    ensures Agree(hash, w) ==> Agree(hash, After(hash, w, request))
  {
    hide TreeOk, CountsOk, KeysOk, Stored, Paths.Norm, Paths.Parent, Paths.BaseName;
    if request.MakeDir? {
      MkdirKeepsTree(w.db, request.user, request.cwd, request.arg);
    } else {
      RmdirKeepsTree(w.db, request.user, request.cwd, request.arg);
    }
  }

  /** The digest of a file that has lost its last path belongs to no file any more. */
  lemma LastIsUnnamed(db: Db, user: nat, id: nat)
    requires Ok(db) && FileRemoved(db, user, id).Removed?
    ensures var removal := FileRemoved(db, user, id);
      && (removal.last.Some? ==> forall file :: !HasSha(removal.db, file, removal.last.value))
      && (removal.last.Some? ==> Names(removal.db, db.paths[id].file.value) == {})
      && (forall file :: file in removal.db.files ==>
            file in db.files && SameFile(db.files[file], removal.db.files[file]))
      && removal.db.paths == db.paths - {id}
      && (forall i :: i in removal.db.paths && removal.db.paths[i].file.Some? && db.paths[i].file.value in db.files ==>
            removal.db.paths[i].file.value in removal.db.files)
  {
    var removal, file := FileRemoved(db, user, id), db.paths[id].file.value;
    assert CountOk(db, file, None) && id in Names(db, file);
    assert Names(removal.db, file) == Names(db, file) - {id};
    assert |Names(removal.db, file)| == |Names(db, file)| - 1;
    if removal.last.Some? {
      forall f | HasSha(removal.db, f, removal.last.value) ensures false {
        assert HasSha(db, f, removal.last.value) && HasSha(db, file, removal.last.value);
      }
    }
    forall i | i in removal.db.paths && removal.db.paths[i].file == Some(file)
      ensures file in removal.db.files
    {
      assert i in Names(removal.db, file) && |Names(removal.db, file)| > 0;
    }
  }

  lemma RemoveKeepsInv(hash: Hash, w: World, user: nat, cwd: string, arg: string, unlinks: bool)
    requires Sound(hash, w)
    ensures Sound(hash, Unlinked(w, user, cwd, arg, unlinks))
    ensures Agree(hash, w) ==> Agree(hash, Unlinked(w, user, cwd, arg, unlinks))
  {
    hide TreeOk, CountsOk, KeysOk, IdsOk, FileRemoved, Paths.Norm;
    match Target(cwd, arg)
    case None =>
    case Some(target) =>
      var id := Lookup(w.db, user, target);
      if id.Some? && FileRemoved(w.db, user, id.value).Removed? {
        var removal := FileRemoved(w.db, user, id.value);
        RemoveFileKeepsOk(w.db, user, id.value);
        RemoveFileKeepsTree(w.db, user, id.value);
        LastIsUnnamed(w.db, user, id.value);
        forall file | file in removal.db.files ensures HasSha(removal.db, file, removal.db.files[file].sha) {
        }
        if Agree(hash, w) {
          forall file | file in removal.db.files ensures Stored(hash, w.disk.objects, removal.db.files[file]) {
            assert Stored(hash, w.disk.objects, w.db.files[file]);
          }
        }
      }
  }

  /** `rm` takes an object off the disk only when no path leads to it any more. */
  lemma RemovesOnlyUnnamed(hash: Hash, w: World, user: nat, cwd: string, arg: string, unlinks: bool, sha: string)
    requires Sound(hash, w) && sha in w.disk.objects
    requires sha !in Unlinked(w, user, cwd, arg, unlinks).disk.objects
    ensures var db := Unlinked(w, user, cwd, arg, unlinks).db;
      forall id :: id in db.paths && db.paths[id].file.Some? ==> !HasSha(db, db.paths[id].file.value, sha)
  {
    var target := Target(cwd, arg).value;
    LastIsUnnamed(w.db, user, Lookup(w.db, user, target).value);
  }

  /** A file goes by `rm` whenever it is there; a directory stays; other paths stay. */
  lemma RmRemoves(hash: Hash, w: World, user: nat, cwd: string, arg: string, unlinks: bool, target: string)
    requires Inv(hash, w) && Target(cwd, arg) == Some(target)
    ensures var db' := Unlinked(w, user, cwd, arg, unlinks).db;
      && (Lookup(db', user, target).Some? <==> DirAt(w.db, user, target).Some?)
      && (forall id :: id in w.db.paths && !At(w.db, id, user, target) ==>
            id in db'.paths && db'.paths[id] == w.db.paths[id])
      && db'.paths.Keys <= w.db.paths.Keys
  {
    hide TreeOk, CountsOk, Paths.Norm, Stored;
    var id := Lookup(w.db, user, target);
    if id.Some? {
      assert forall i :: At(w.db, i, user, target) ==> i == id.value;
      var db' := Unlinked(w, user, cwd, arg, unlinks).db;
      if !w.db.paths[id.value].isDir {
        assert FileRemoved(w.db, user, id.value).Removed? && id.value !in db'.paths;
        assert forall i :: At(db', i, user, target) ==> At(w.db, i, user, target);
      }
    }
  }

  /** `rm` of an entry takes the row of a file away. If no other row names the file, its file row
      goes too, and its object if it can be unlinked; otherwise it loses one reference. */
  lemma RmRemovesEntry(
    hash: Hash, w: World, user: nat, cwd: string, arg: string, unlinks: bool,
    parts: seq<string>, name: string, id: nat)
    requires Inv(hash, w) && Means(cwd, arg, parts, name) && At(w.db, id, user, Paths.Render(parts + [name]))
    ensures var w' := Unlinked(w, user, cwd, arg, unlinks);
      if w.db.paths[id].isDir then w' == w
      else
        var file := w.db.paths[id].file.value;
        var row := w.db.files[file];
        && w'.db.paths == w.db.paths - {id} && w'.disk.parts == w.disk.parts
        && if Names(w.db, file) == {id} then
             && w'.db.files == w.db.files - {file}
             && w'.disk.objects == if unlinks then w.disk.objects - {row.sha} else w.disk.objects
           else w'.db.files == w.db.files[file := row.(refs := |Names(w.db, file)| - 1)] && w'.disk == w.disk
  {
    hide TreeOk, Paths.Norm, Paths.Render, Target, Stored;
    MeaningIsTarget(cwd, arg, parts, name);
    assert Lookup(w.db, user, Paths.Render(parts + [name])) == Some(id);
    if !w.db.paths[id].isDir {
      var file := w.db.paths[id].file.value;
      assert CountOk(w.db, file, None) && id in Names(w.db, file);
      assert Names(w.db, file) != {id} ==> |Names(w.db, file) - {id}| > 0;
    }
  }

  /** `rm` of an entry that is not there changes nothing. */
  lemma RmOfNothing(
    w: World, user: nat, cwd: string, arg: string, unlinks: bool, parts: seq<string>, name: string)
    requires Means(cwd, arg, parts, name) && IsFree(w.db, user, Paths.Render(parts + [name]))
    ensures Unlinked(w, user, cwd, arg, unlinks) == w
  {
    MeaningIsTarget(cwd, arg, parts, name);
  }

  /** An upload to an entry goes into its directory exactly if the name fits, the directory is
      there and the entry is not. */
  lemma DestinationIs(db: Db, up: Upload, parts: seq<string>, name: string, dir: nat)
    requires KeysOk(db) && Paths.Clean(parts) && Paths.CleanPart(name)
    requires Paths.Absolute(up.remote) && Paths.Norm("/", up.remote) == Some(Paths.Render(parts + [name]))
    ensures var path := Paths.Render(parts + [name]);
      && (Destination(db, up) == Some((path, dir)) <==>
            |name| < NAME_MAX && IsDirAt(db, dir, up.user, Paths.Render(parts)) && IsFree(db, up.user, path))
      && (Destination(db, up).Some? ==> Destination(db, up).value.0 == path)
  {
    hide Paths.Norm, Paths.Render, Paths.Parent, Paths.BaseName;
    var all := parts + [name];
    assert Paths.Clean(all) && all[..|all| - 1] == parts;
    Paths.ParentOfRendered(all);
    RenderedIs(all);
  }

  /** Joining under a free name adds the user and a root directory; under a taken one it changes
      nothing. */
  lemma JoiningAddsUser(hash: Hash, w: World, name: string)
    requires Sound(hash, w)
    ensures var w', db := After(hash, w, Join(name)), w.db;
      if exists user :: user in db.users && db.users[user] == name then w' == w
      else w' == w.(db := db.(
        users := db.users[db.nextUser := name], nextUser := db.nextUser + 1, nextPath := db.nextPath + 1,
        paths := db.paths[db.nextPath := PathRow(db.nextUser, "/", None, None, "/", true)]))
  {
    hide TreeOk, CountsOk, KeysOk, Registered;
    if NameTaken(w.db, name) {
      NameIsRefused(w.db, name);
    } else {
      RegisterInserts(w.db, name);
    }
  }

  /** `mkdir` and then `rmdir` of an entry that was not there leads back. */
  lemma MkdirThenRmdir(
    hash: Hash, w: World, user: nat, cwd: string, arg: string, parts: seq<string>, name: string, dir: nat)
    requires Inv(hash, w) && Means(cwd, arg, parts, name) && IsFree(w.db, user, Paths.Render(parts + [name]))
    requires IsDirAt(w.db, dir, user, Paths.Render(parts))
    ensures var made := After(hash, w, MakeDir(user, cwd, arg));
      && IsDirAt(made.db, w.db.nextPath, user, Paths.Render(parts + [name]))
      && After(hash, made, UnmakeDir(user, cwd, arg)) == w.(db := w.db.(nextPath := w.db.nextPath + 1))
  {
    hide TreeOk, CountsOk, KeysOk, DirMade, DirUnmade, Means, Paths.Render, Paths.Parent, Paths.BaseName, Agree;
    var path := Paths.Render(parts + [name]);
    var made := After(hash, w, MakeDir(user, cwd, arg));
    MkdirMakesEntry(w.db, user, cwd, arg, parts, name);
    MkdirKeepsTree(w.db, user, cwd, arg);
    RmdirRemovesEntry(made.db, user, cwd, arg, parts, name);
    forall child ensures !IsBelow(made.db, child, user, path) {
      NothingBelow(w.db, made.db, child, user, path, parts, name, cwd, arg);
    }
    assert made.db.paths - {w.db.nextPath} == w.db.paths;
  }

  /** No path lies below one that is not there. */
  lemma NothingBelow(db: Db, made: Db, child: nat, user: nat, path: string,
      parts: seq<string>, name: string, cwd: string, arg: string)
    requires IdsOk(db) && TreeOk(db) && IsFree(db, user, path) && Means(cwd, arg, parts, name)
    requires path == Paths.Render(parts + [name])
    requires forall id :: id in made.paths && id != db.nextPath ==> id in db.paths && made.paths[id] == db.paths[id]
    requires db.nextPath in made.paths ==> made.paths[db.nextPath].path == path
    ensures !IsBelow(made, child, user, path)
  {
    hide Paths.Render, Paths.Parent, Paths.BaseName, Target;
    MeaningIsTarget(cwd, arg, parts, name);
    var all := parts + [name];
    assert Paths.Clean(all) && Paths.Canonical(path);
    Paths.ParentIsCanonical(path);
    assert child in db.paths ==> RowOk(db, child);
  }

  /** Every upload, whatever it comes to, keeps counts, tree and digests. */
  lemma PutKeepsSound(hash: Hash, w: World, up: Upload)
    requires Sound(hash, w) && |up.ios| >= 2
    ensures Sound(hash, Uploaded(hash, w, up))
  {
    hide TreeOk, CountsOk, KeysOk, IdsOk, Destination, Existing, Uploads.Attempt;
    Uploads.AttemptIsSafe(hash, w.disk, up.size, up.sha, Plan(w.db, up), up.packets, up.ios);
    if Plan(w.db, up).Linked? {
      LinkWorks(w.db, up);
    } else if Creates(hash, w, up) {
      CreateWorks(w.db, up);
    }
  }

  lemma PutKeepsInv(hash: Hash, w: World, up: Upload)
    requires Inv(hash, w) && |up.ios| >= 2 && IsDigest(hash)
    ensures Inv(hash, Uploaded(hash, w, up))
  {
    hide Sound, Agree, SizesFit, Uploaded, Publishes;
    PutKeepsSound(hash, w, up);
    UploadAgrees(hash, w, up);
    if Publishes(hash, w, up) {
      DigestsFit(hash, w, up);
    }
  }

  /** Whether a request leaves paths and objects in agreement. */
  ghost predicate Fits(hash: Hash, w: World, request: Request)
    requires Enabled(request)
  {
    request.Put? && Publishes(hash, w, request.upload) ==> SizesFit(w, request.upload)
  }

  /** Every request keeps counts, tree and digests, and keeps the agreement of paths and objects
      exactly if it fits. */
  lemma RequestAgrees(hash: Hash, w: World, request: Request)
    requires Inv(hash, w) && LowerCase(hash) && Enabled(request)
    ensures Sound(hash, After(hash, w, request))
    ensures Agree(hash, After(hash, w, request)) <==> Fits(hash, w, request)
  {
    hide Sound, Agree, Uploaded, Unlinked, DirMade, DirUnmade, SizesFit, Publishes;
    match request
    case Join(name) => JoinKeepsInv(hash, w, name);
    case MakeDir(_, _, _) => DirsKeepInv(hash, w, request);
    case UnmakeDir(_, _, _) => DirsKeepInv(hash, w, request);
    case Remove(user, cwd, arg, unlinks) => RemoveKeepsInv(hash, w, user, cwd, arg, unlinks);
    case Put(upload) =>
      PutKeepsSound(hash, w, upload);
      UploadAgrees(hash, w, upload);
  }

  lemma RequestKeepsSound(hash: Hash, w: World, request: Request)
    requires Sound(hash, w) && Enabled(request)
    ensures Sound(hash, After(hash, w, request))
  {
    hide Sound, Agree, Uploaded, Unlinked, DirMade, DirUnmade;
    match request
    case Join(name) => JoinKeepsInv(hash, w, name);
    case MakeDir(_, _, _) => DirsKeepInv(hash, w, request);
    case UnmakeDir(_, _, _) => DirsKeepInv(hash, w, request);
    case Remove(user, cwd, arg, unlinks) => RemoveKeepsInv(hash, w, user, cwd, arg, unlinks);
    case Put(upload) => PutKeepsSound(hash, w, upload);
  }

  ghost predicate IsRun(hash: Hash, worlds: seq<World>, requests: seq<Request>) {
    && |worlds| == |requests| + 1 && Init(worlds[0]) && LowerCase(hash)
    && forall i :: 0 <= i < |requests| ==> Enabled(requests[i]) && worlds[i + 1] == After(hash, worlds[i], requests[i])
  }

  ghost predicate AgreeUpTo(hash: Hash, worlds: seq<World>, n: nat)
    requires n < |worlds|
  {
    forall i :: 0 <= i <= n ==> Agree(hash, worlds[i])
  }

  ghost predicate FitUpTo(hash: Hash, worlds: seq<World>, requests: seq<Request>, n: nat)
    requires IsRun(hash, worlds, requests) && n < |worlds|
  {
    forall i :: 0 <= i < n ==> Fits(hash, worlds[i], requests[i])
  }

  /** Over every run, whatever digests collide: paths and objects agree in all states so far
      exactly if every request so far fitted the state it came in. */
  lemma {:induction false} RunAgreesIff(hash: Hash, worlds: seq<World>, requests: seq<Request>, n: nat)
    requires IsRun(hash, worlds, requests) && n < |worlds|
    ensures AgreeUpTo(hash, worlds, n) <==> FitUpTo(hash, worlds, requests, n)
    ensures AgreeUpTo(hash, worlds, n) ==> Inv(hash, worlds[n])
  {
    hide Sound, Agree, After, Fits, Enabled;
    if n == 0 {
      InitOk(hash, worlds[0]);
    } else {
      RunAgreesIff(hash, worlds, requests, n - 1);
      assert Enabled(requests[n - 1]) && worlds[n - 1 + 1] == After(hash, worlds[n - 1], requests[n - 1]);
      if AgreeUpTo(hash, worlds, n - 1) {
        RequestAgrees(hash, worlds[n - 1], requests[n - 1]);
      }
    }
  }

  /** Without collisions every request fits. */
  lemma {:induction false} RunsKeepInv(hash: Hash, worlds: seq<World>, requests: seq<Request>, n: nat)
    requires IsRun(hash, worlds, requests) && IsDigest(hash) && n < |worlds|
    ensures AgreeUpTo(hash, worlds, n) && Inv(hash, worlds[n])
  {
    hide Sound, Agree, After, SizesFit, Publishes;
    RunAgreesIff(hash, worlds, requests, n);
    if n > 0 {
      RunsKeepInv(hash, worlds, requests, n - 1);
      RunAgreesIff(hash, worlds, requests, n - 1);
      assert Enabled(requests[n - 1]);
      if requests[n - 1].Put? && Publishes(hash, worlds[n - 1], requests[n - 1].upload) {
        DigestsFit(hash, worlds[n - 1], requests[n - 1].upload);
      }
      assert Fits(hash, worlds[n - 1], requests[n - 1]);
      assert FitUpTo(hash, worlds, requests, n);
    }
  }

  /** In every state that requests lead to: counts are right, and a path other than a root lies
      in the directory of its parent. If every upload so far fitted, and always without
      collisions, a path of a file leads to an object with its size and digest. */
  lemma DriveIsConsistent(hash: Hash, worlds: seq<World>, requests: seq<Request>, n: nat)
    requires IsRun(hash, worlds, requests) && n < |worlds|
    ensures var db := worlds[n].db;
      && (forall file :: file in db.files ==> db.files[file].refs == |Names(db, file)| >= 1)
      && (forall id :: id in db.paths ==> RowOk(db, id))
    ensures FitUpTo(hash, worlds, requests, n) || IsDigest(hash) ==> PathsLeadToObjects(hash, worlds[n])
  {
    RunsAreSound(hash, worlds, requests, n);
    assert forall file :: file in worlds[n].db.files ==> CountOk(worlds[n].db, file, None);
    RunAgreesIff(hash, worlds, requests, n);
    if IsDigest(hash) {
      RunsKeepInv(hash, worlds, requests, n);
    }
  }

  ghost predicate PathsLeadToObjects(hash: Hash, w: World) {
    forall id :: id in w.db.paths && w.db.paths[id].file.Some? ==>
      w.db.paths[id].file.value in w.db.files
      && Stored(hash, w.disk.objects, w.db.files[w.db.paths[id].file.value])
  }

  lemma {:induction false} RunsAreSound(hash: Hash, worlds: seq<World>, requests: seq<Request>, n: nat)
    requires IsRun(hash, worlds, requests) && n < |worlds|
    ensures Sound(hash, worlds[n])
  {
    hide Sound, After;
    if n == 0 {
      InitOk(hash, worlds[0]);
    } else {
      RunsAreSound(hash, worlds, requests, n - 1);
      assert Enabled(requests[n - 1]) && worlds[n - 1 + 1] == After(hash, worlds[n - 1], requests[n - 1]);
      RequestKeepsSound(hash, worlds[n - 1], requests[n - 1]);
    }
  }

  /** Rows do not change while they last, and their ids do not come back. */
  ghost predicate Lasting(db: Db, db': Db) {
    && db.nextPath <= db'.nextPath && db.nextFile <= db'.nextFile
    && (forall id :: id in db'.paths && id < db.nextPath ==> id in db.paths && db'.paths[id] == db.paths[id])
    && (forall file :: file in db'.files && file < db.nextFile ==>
          file in db.files && SameFile(db.files[file], db'.files[file]))
  }

  /** One request adds rows or removes some, not both. */
  ghost predicate OneWay(db: Db, db': Db) {
    db'.nextPath > db.nextPath ==> db.paths.Keys <= db'.paths.Keys
  }

  lemma PutLasts(hash: Hash, w: World, up: Upload)
    requires Sound(hash, w) && |up.ios| >= 2
    ensures Lasting(w.db, Uploaded(hash, w, up).db) && OneWay(w.db, Uploaded(hash, w, up).db)
  {
    hide TreeOk, CountsOk, KeysOk, Destination, Existing, Attempt, FileCreated, FileLinked, Agree;
    if Plan(w.db, up).Linked? {
      LinkWorks(w.db, up);
    } else if Creates(hash, w, up) {
      CreateWorks(w.db, up);
    }
  }

  lemma RequestLasts(hash: Hash, w: World, request: Request)
    requires Sound(hash, w) && Enabled(request)
    ensures Lasting(w.db, After(hash, w, request).db) && OneWay(w.db, After(hash, w, request).db)
  {
    hide TreeOk, CountsOk, KeysOk, Uploaded, Agree, Paths.Norm, Paths.Parent, Paths.BaseName;
    if request.Put? {
      PutLasts(hash, w, request.upload);
    }
  }

  lemma {:induction false} RunLasts(hash: Hash, worlds: seq<World>, requests: seq<Request>, m: nat, n: nat)
    requires IsRun(hash, worlds, requests) && m <= n < |worlds|
    ensures Lasting(worlds[m].db, worlds[n].db)
    decreases n - m
  {
    hide After, Sound;
    if m < n {
      RunsAreSound(hash, worlds, requests, n - 1);
      assert Enabled(requests[n - 1]) && worlds[n - 1 + 1] == After(hash, worlds[n - 1], requests[n - 1]);
      RunLasts(hash, worlds, requests, m, n - 1);
      RequestLasts(hash, worlds[n - 1], requests[n - 1]);
    }
  }

  /** A path that is in place all along is the same row all along. */
  lemma {:induction false} PathKeepsItsRow(
    hash: Hash, worlds: seq<World>, requests: seq<Request>, m: nat, n: nat, user: nat, path: string, id: nat)
    requires IsRun(hash, worlds, requests) && m <= n < |worlds| && At(worlds[m].db, id, user, path)
    requires forall i :: m <= i <= n ==> Lookup(worlds[i].db, user, path).Some?
    ensures Lookup(worlds[n].db, user, path) == Some(id)
    decreases n
  {
    hide After, TreeOk, CountsOk, Uploads.StoreOk;
    RunsAreSound(hash, worlds, requests, n);
    if m < n {
      RunsAreSound(hash, worlds, requests, n - 1);
      PathKeepsItsRow(hash, worlds, requests, m, n - 1, user, path, id);
      assert Enabled(requests[n - 1]) && worlds[n - 1 + 1] == After(hash, worlds[n - 1], requests[n - 1]);
      RequestLasts(hash, worlds[n - 1], requests[n - 1]);
      var db, db' := worlds[n - 1].db, worlds[n].db;
      var next := Lookup(db', user, path).value;
      assert next < db.nextPath ==> At(db, next, user, path);
      assert db.paths.Keys <= db'.paths.Keys ==> At(db', id, user, path);
    }
  }
}

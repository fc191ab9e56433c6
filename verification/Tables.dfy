/** The tables `users`, `paths` and `files`, and the transactions on them. Each transaction is
    one step; rows get ids that are never used again. */
module Tables {
  import opened Basics

  /** A row of `paths`; `file` is set for a file and null for a directory. */
  datatype PathRow = PathRow(user: nat, path: string, file: Option<nat>, parent: Option<nat>, name: string, isDir: bool)

  /** A row of `files`; the binary digest is written as lower-case hexadecimal. */
  datatype FileRow = FileRow(sha: string, size: nat, refs: nat)

  datatype Db = Db(
    users: map<nat, string>, paths: map<nat, PathRow>, files: map<nat, FileRow>,
    nextUser: nat, nextPath: nat, nextFile: nat)

  const EMPTY := Db(map[], map[], map[], 1, 1, 1)

  predicate At(db: Db, id: nat, user: nat, path: string) {
    id in db.paths && db.paths[id].user == user && db.paths[id].path == path
  }

  /** The row of a path, through the unique key (user, path). */
  ghost function Lookup(db: Db, user: nat, path: string): (id: Option<nat>)
    ensures id.Some? ==> At(db, id.value, user, path)
    ensures id.None? ==> forall i :: !At(db, i, user, path)
  {
    if i :| At(db, i, user, path) then Some(i) else None
  }

  predicate HasSha(db: Db, id: nat, sha: string) {
    id in db.files && db.files[id].sha == sha
  }

  /** The row of a digest, through the unique key on the digest. */
  ghost function FileOf(db: Db, sha: string): (id: Option<nat>)
    ensures id.Some? ==> HasSha(db, id.value, sha)
    ensures id.None? ==> forall i :: !HasSha(db, i, sha)
  {
    if i :| HasSha(db, i, sha) then Some(i) else None
  }

  /** An insert into `paths`; the unique key refuses a path that is there. */
  ghost function Inserted(db: Db, row: PathRow): Option<Db> {
    if Lookup(db, row.user, row.path).Some? then None
    else Some(db.(paths := db.paths[db.nextPath := row], nextPath := db.nextPath + 1))
  }

  ghost predicate NameTaken(db: Db, name: string) {
    exists user :: user in db.users && db.users[user] == name
  }

  ghost function Registered(db: Db, name: string): Option<Db> {
    if NameTaken(db, name) then None
    else Inserted(db.(users := db.users[db.nextUser := name], nextUser := db.nextUser + 1),
                  PathRow(db.nextUser, "/", None, None, "/", true))
  }

  ghost function DirInserted(db: Db, user: nat, path: string, parent: nat, name: string): Option<Db> {
    Inserted(db, PathRow(user, path, None, Some(parent), name, true))
  }

  function DirRemoved(db: Db, id: nat): Db {
    db.(paths := db.paths - {id})
  }

  predicate HasChild(db: Db, user: nat, parent: nat, id: nat) {
    id in db.paths && db.paths[id].user == user && db.paths[id].parent == Some(parent)
  }

  function Counted(db: Db, file: nat): Db {
    if file in db.files then db.(files := db.files[file := db.files[file].(refs := db.files[file].refs + 1)]) else db
  }

  /** `dao_link_existing_file`. The update does not care whether the file is still there. */
  ghost function FileLinked(db: Db, user: nat, path: string, parent: nat, name: string, file: nat): Option<Db> {
    Inserted(Counted(db, file), PathRow(user, path, Some(file), Some(parent), name, false))
  }

  /** The upsert of a digest: a new row, or one more reference to the row that is there. */
  ghost function Upserted(db: Db, sha: string, size: nat): (r: (Db, nat)) {
    match FileOf(db, sha)
    case Some(id) => (Counted(db, id), id)
    case None =>
      (db.(files := db.files[db.nextFile := FileRow(sha, size, 1)], nextFile := db.nextFile + 1), db.nextFile)
  }

  /** `dao_create_file_with_path`. */
  ghost function FileCreated(db: Db, user: nat, path: string, parent: nat, name: string,
      sha: string, size: nat): Option<Db>
  {
    var (db', id) := Upserted(db, sha, size);
    Inserted(db', PathRow(user, path, Some(id), Some(parent), name, false))
  }

  datatype Removal = NotFound | Broken | Removed(db: Db, last: Option<string>)

  function Released(db: Db, file: nat): Db
    requires file in db.files
  {
    var row := db.files[file];
    if row.refs <= 1 then db.(files := db.files - {file})
    else db.(files := db.files[file := row.(refs := row.refs - 1)])
  }

  /** `dao_rm_file`: `last` is the digest whose last reference went away. */
  function FileRemoved(db: Db, user: nat, id: nat): Removal {
    if !(id in db.paths && db.paths[id].user == user && !db.paths[id].isDir && db.paths[id].file.Some?) then NotFound
    else
      var file := db.paths[id].file.value;
      if file !in db.files then Broken
      else
        var db' := Released(db.(paths := db.paths - {id}), file);
        Removed(db', if file in db'.files then None else Some(db.files[file].sha))
  }

  datatype Transaction =
    | Register(name: string)
    | InsertDir(user: nat, path: string, parent: nat, name: string)
    | RemoveDir(id: nat)
    | LinkFile(user: nat, path: string, parent: nat, name: string, file: nat)
    | CreateFile(user: nat, path: string, parent: nat, name: string, sha: string, size: nat)
    | RemoveFile(user: nat, id: nat)

  /** What callers see to: the file of a link was found at some time, and only a directory is
      removed as one. */
  predicate Enabled(db: Db, t: Transaction) {
    match t
    case LinkFile(_, _, _, _, file) => file < db.nextFile
    case RemoveDir(id) => id in db.paths ==> db.paths[id].isDir
    case _ => true
  }

  function Or(db: Db, next: Option<Db>): Db {
    if next.Some? then next.value else db
  }

  /** A transaction that fails is rolled back. */
  ghost function After(db: Db, t: Transaction): Db {
    match t
    case Register(name) => Or(db, Registered(db, name))
    case InsertDir(user, path, parent, name) => Or(db, DirInserted(db, user, path, parent, name))
    case RemoveDir(id) => DirRemoved(db, id)
    case LinkFile(user, path, parent, name, file) => Or(db, FileLinked(db, user, path, parent, name, file))
    case CreateFile(user, path, parent, name, sha, size) => Or(db, FileCreated(db, user, path, parent, name, sha, size))
    case RemoveFile(user, id) =>
      var removal := FileRemoved(db, user, id);
      if removal.Removed? then removal.db else db
  }

  /** The rows that name a file. */
  function Names(db: Db, file: nat): set<nat> {
    set id | id in db.paths && db.paths[id].file == Some(file)
  }

  ghost predicate IdsOk(db: Db) {
    && (forall id :: id in db.paths ==> id < db.nextPath)
    && (forall id :: id in db.files ==> id < db.nextFile)
    && (forall id :: id in db.users ==> id < db.nextUser)
    && (forall id :: id in db.paths && db.paths[id].file.Some? ==> db.paths[id].file.value < db.nextFile)
    && (forall id :: id in db.paths ==> (db.paths[id].isDir <==> db.paths[id].file.None?))
  }

  ghost predicate KeysOk(db: Db) {
    && (forall i, j, user, path :: At(db, i, user, path) && At(db, j, user, path) ==> i == j)
    && (forall i, j, sha :: HasSha(db, i, sha) && HasSha(db, j, sha) ==> i == j)
  }

  /** The count of a file is the number of rows that name it, the pending one included, and
      there is one. */
  ghost predicate CountOk(db: Db, file: nat, pending: Option<nat>)
    requires file in db.files
  {
    db.files[file].refs == |Names(db, file)| + (if pending == Some(file) then 1 else 0) >= 1
  }

  ghost predicate CountsOk(db: Db, pending: Option<nat>) {
    forall file :: file in db.files ==> CountOk(db, file, pending)
  }

  ghost predicate Ok(db: Db) {
    IdsOk(db) && KeysOk(db) && CountsOk(db, None)
  }

  lemma EmptyIsOk()
    ensures Ok(EMPTY)
  {
  }

  lemma InsertKeepsKeys(db: Db, row: PathRow)
    requires IdsOk(db) && KeysOk(db) && Inserted(db, row).Some?
    ensures KeysOk(Inserted(db, row).value)
  {
    var db' := Inserted(db, row).value;
    forall i, j, user, path | At(db', i, user, path) && At(db', j, user, path) ensures i == j {
      assert (i != db.nextPath ==> At(db, i, user, path)) && (j != db.nextPath ==> At(db, j, user, path));
    }
    forall i, j, sha | HasSha(db', i, sha) && HasSha(db', j, sha) ensures i == j {
      assert HasSha(db, i, sha) && HasSha(db, j, sha);
    }
  }

  lemma InsertKeepsOk(db: Db, row: PathRow)
    requires IdsOk(db) && KeysOk(db) && CountsOk(db, row.file) && Inserted(db, row).Some?
    requires (row.isDir <==> row.file.None?) && (row.file.Some? ==> row.file.value < db.nextFile)
    ensures Ok(Inserted(db, row).value)
  {
    hide KeysOk;
    var db' := Inserted(db, row).value;
    InsertKeepsKeys(db, row);
    forall file | file in db'.files ensures CountOk(db', file, None) {
      assert CountOk(db, file, row.file);
      assert Names(db', file) == Names(db, file) + if row.file == Some(file) then {db.nextPath} else {};
    }
  }

  lemma CountedIsPending(db: Db, file: nat)
    requires Ok(db)
    ensures var db' := Counted(db, file); IdsOk(db') && KeysOk(db') && CountsOk(db', Some(file))
  {
    var db' := Counted(db, file);
    forall f | f in db'.files ensures CountOk(db', f, Some(file)) {
      assert CountOk(db, f, None) && Names(db', f) == Names(db, f);
    }
    forall i, j, sha | HasSha(db', i, sha) && HasSha(db', j, sha) ensures i == j {
      assert HasSha(db, i, sha) && HasSha(db, j, sha);
    }
    assert forall i, user, path :: At(db', i, user, path) == At(db, i, user, path);
  }

  lemma UpsertedIsPending(db: Db, sha: string, size: nat)
    requires Ok(db)
    ensures var (db', id) := Upserted(db, sha, size);
      IdsOk(db') && KeysOk(db') && CountsOk(db', Some(id)) && HasSha(db', id, sha) && id < db'.nextFile
  {
    var (db', id) := Upserted(db, sha, size);
    if FileOf(db, sha).Some? {
      CountedIsPending(db, id);
    } else {
      forall f | f in db'.files ensures CountOk(db', f, Some(id)) {
        assert Names(db', f) == Names(db, f);
        if f == id {
          assert Names(db, id) == {};
        } else {
          assert CountOk(db, f, None);
        }
      }
      forall i, j, s | HasSha(db', i, s) && HasSha(db', j, s) ensures i == j {
        assert (i != id ==> HasSha(db, i, s)) && (j != id ==> HasSha(db, j, s));
      }
      assert forall i, user, path :: At(db', i, user, path) == At(db, i, user, path);
    }
  }

  lemma RemoveDirKeepsOk(db: Db, id: nat)
    requires Ok(db) && Enabled(db, RemoveDir(id))
    ensures Ok(DirRemoved(db, id))
  {
    var db' := DirRemoved(db, id);
    forall file | file in db'.files ensures CountOk(db', file, None) {
      assert CountOk(db, file, None) && Names(db', file) == Names(db, file);
    }
    assert forall i, user, path :: At(db', i, user, path) ==> At(db, i, user, path);
    assert forall i, sha :: HasSha(db', i, sha) == HasSha(db, i, sha);
  }

  lemma RemoveFileKeepsOk(db: Db, user: nat, id: nat)
    requires Ok(db) && FileRemoved(db, user, id).Removed?
    ensures Ok(FileRemoved(db, user, id).db)
  {
    var db', file := FileRemoved(db, user, id).db, db.paths[id].file.value;
    assert CountOk(db, file, None) && id in Names(db, file);
    assert Names(db', file) == Names(db, file) - {id};
    forall f | f in db'.files ensures CountOk(db', f, None) {
      assert CountOk(db, f, None);
      assert f != file ==> Names(db', f) == Names(db, f);
    }
    assert forall i, user, path :: At(db', i, user, path) ==> At(db, i, user, path);
    assert forall i, sha :: HasSha(db', i, sha) ==> HasSha(db, i, sha);
  }

  lemma RegisterKeepsOk(db: Db, name: string)
    requires Ok(db)
    ensures Ok(Or(db, Registered(db, name)))
  {
    if Registered(db, name).Some? {
      var db' := db.(users := db.users[db.nextUser := name], nextUser := db.nextUser + 1);
      assert forall f :: f in db.files ==> CountOk(db, f, None) && Names(db', f) == Names(db, f);
      assert forall i, user, path :: At(db', i, user, path) == At(db, i, user, path);
      assert forall i, sha :: HasSha(db', i, sha) == HasSha(db, i, sha);
      InsertKeepsOk(db', PathRow(db.nextUser, "/", None, None, "/", true));
    }
  }

  /** Every transaction keeps the counts, whatever was decided before it on older contents. */
  lemma TransactionKeepsOk(db: Db, t: Transaction)
    requires Ok(db) && Enabled(db, t)
    ensures Ok(After(db, t))
  {
    hide Ok, Registered, Inserted, Upserted, FileRemoved;
    match t
    case Register(name) => RegisterKeepsOk(db, name);
    case InsertDir(user, path, parent, name) =>
      InsertDirKeepsOk(db, PathRow(user, path, None, Some(parent), name, true));
    case RemoveDir(id) => RemoveDirKeepsOk(db, id);
    case LinkFile(user, path, parent, name, file) =>
      LinkKeepsOk(db, PathRow(user, path, Some(file), Some(parent), name, false), file);
    case CreateFile(user, path, parent, name, sha, size) => CreateKeepsOk(db, t);
    case RemoveFile(user, id) =>
      if FileRemoved(db, user, id).Removed? {
        RemoveFileKeepsOk(db, user, id);
      }
  }

  lemma InsertDirKeepsOk(db: Db, row: PathRow)
    requires Ok(db) && row.isDir && row.file.None?
    ensures Ok(Or(db, Inserted(db, row)))
  {
    if Inserted(db, row).Some? {
      InsertKeepsOk(db, row);
    }
  }

  lemma LinkKeepsOk(db: Db, row: PathRow, file: nat)
    requires Ok(db) && !row.isDir && row.file == Some(file) && file < db.nextFile
    ensures Ok(Or(db, Inserted(Counted(db, file), row)))
  {
    CountedIsPending(db, file);
    if Inserted(Counted(db, file), row).Some? {
      InsertKeepsOk(Counted(db, file), row);
    }
  }

  lemma CreateKeepsOk(db: Db, t: Transaction)
    requires Ok(db) && t.CreateFile?
    ensures Ok(After(db, t))
  {
    UpsertedIsPending(db, t.sha, t.size);
    var (db', id) := Upserted(db, t.sha, t.size);
    var row := PathRow(t.user, t.path, Some(id), Some(t.parent), t.name, false);
    if Inserted(db', row).Some? {
      InsertKeepsOk(db', row);
    }
  }

  ghost predicate IsRun(dbs: seq<Db>, ts: seq<Transaction>) {
    && |dbs| == |ts| + 1 && dbs[0] == EMPTY
    && forall i :: 0 <= i < |ts| ==> Enabled(dbs[i], ts[i]) && dbs[i + 1] == After(dbs[i], ts[i])
  }

  /** Under any interleaving of transactions, the reference count of every file is the number
      of paths that name it, and at least one does. */
  lemma {:induction false} ReferencesAreConserved(dbs: seq<Db>, ts: seq<Transaction>, n: nat)
    requires IsRun(dbs, ts) && n < |dbs|
    ensures Ok(dbs[n])
    ensures forall file :: file in dbs[n].files ==> dbs[n].files[file].refs == |Names(dbs[n], file)| >= 1
  {
    hide After, Enabled;
    if n == 0 {
      EmptyIsOk();
    } else {
      ReferencesAreConserved(dbs, ts, n - 1);
      assert Enabled(dbs[n - 1], ts[n - 1]) && dbs[n - 1 + 1] == After(dbs[n - 1], ts[n - 1]);
      TransactionKeepsOk(dbs[n - 1], ts[n - 1]);
    }
    assert forall file :: file in dbs[n].files ==> CountOk(dbs[n], file, None);
  }

  /** The rows that name a file, before and after: a link or a creation at a free path adds the new
      row to those of its file, a removal takes its row from them, and nothing else moves. */
  ghost function NamesAfter(db: Db, t: Transaction, file: nat): set<nat> {
    match t
    case LinkFile(user, path, _, _, f) =>
      if f == file && Lookup(db, user, path).None? then Names(db, file) + {db.nextPath} else Names(db, file)
    case CreateFile(user, path, _, _, sha, _) =>
      var f := if FileOf(db, sha).Some? then FileOf(db, sha).value else db.nextFile;
      if f == file && Lookup(db, user, path).None? then Names(db, file) + {db.nextPath} else Names(db, file)
    case RemoveFile(user, id) =>
      if id in db.paths && db.paths[id].user == user && file in db.files then Names(db, file) - {id}
      else Names(db, file)
    case _ => Names(db, file)
  }

  lemma InsertMovesNames(db: Db, row: PathRow, file: nat)
    requires db.nextPath !in db.paths
    ensures var db' := Or(db, Inserted(db, row));
      Names(db', file) ==
        if row.file == Some(file) && Lookup(db, row.user, row.path).None? then Names(db, file) + {db.nextPath}
        else Names(db, file)
  {
  }

  lemma SameLookup(db: Db, db': Db, user: nat, path: string)
    requires db'.paths == db.paths
    ensures Lookup(db', user, path).None? <==> Lookup(db, user, path).None?
  {
    assert forall i :: At(db', i, user, path) <==> At(db, i, user, path);
  }

  lemma TransactionMovesNames(db: Db, t: Transaction, file: nat)
    requires Ok(db) && Enabled(db, t)
    ensures Names(After(db, t), file) == NamesAfter(db, t, file)
  {
    hide CountsOk, KeysOk, Lookup, FileOf;
    assert db.nextPath !in db.paths;
    match t
    case Register(name) =>
      var grown := db.(users := db.users[db.nextUser := name], nextUser := db.nextUser + 1);
      InsertMovesNames(grown, PathRow(db.nextUser, "/", None, None, "/", true), file);
      assert Names(grown, file) == Names(db, file);
    case InsertDir(user, path, parent, name) =>
      InsertMovesNames(db, PathRow(user, path, None, Some(parent), name, true), file);
    case RemoveDir(id) =>
      assert Names(DirRemoved(db, id), file) == Names(db, file);
    case LinkFile(user, path, parent, name, f) =>
      SameLookup(db, Counted(db, f), user, path);
      InsertMovesNames(Counted(db, f), PathRow(user, path, Some(f), Some(parent), name, false), file);
      assert Names(Counted(db, f), file) == Names(db, file);
    case CreateFile(user, path, parent, name, sha, size) =>
      var (db', f) := Upserted(db, sha, size);
      SameLookup(db, db', user, path);
      InsertMovesNames(db', PathRow(user, path, Some(f), Some(parent), name, false), file);
      assert Names(db', file) == Names(db, file);
    case RemoveFile(user, id) =>
      assert Names(After(db, t), file) == NamesAfter(db, t, file);
  }
}

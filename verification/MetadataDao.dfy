/** The data access functions, statement by statement: each runs inside a transaction, and a
    statement that fails rolls everything back. */
module MetadataDao {
  import opened Basics
  import opened FileStream
  import opened Tables
  import Drive

  datatype Status = Done | LastReference(sha: string) | Missing | DbError

  class Database {
    var users: map<nat, string>
    var paths: map<nat, PathRow>
    var files: map<nat, FileRow>
    var nextUser: nat
    var nextPath: nat
    var nextFile: nat

    function View(): Db
      reads this
    {
      Db(users, paths, files, nextUser, nextPath, nextFile)
    }

    constructor ()
      ensures View() == EMPTY
    {
      users, paths, files, nextUser, nextPath, nextFile := map[], map[], map[], 1, 1, 1;
    }

    method Rollback(saved: Db)
      modifies this
      ensures View() == saved
    {
      users, paths, files := saved.users, saved.paths, saved.files;
      nextUser, nextPath, nextFile := saved.nextUser, saved.nextPath, saved.nextFile;
    }

    /** An insert into `paths`; the unique key refuses a second row. */
    method InsertPath(row: PathRow) returns (ok: bool)
      modifies this`paths, this`nextPath
      ensures ok <==> Inserted(old(View()), row).Some?
      ensures View() == Or(old(View()), Inserted(old(View()), row))
    {
      if id :| id in paths && paths[id].user == row.user && paths[id].path == row.path {
        assert At(View(), id, row.user, row.path);
        return false;
      }
      paths, nextPath := paths[nextPath := row], nextPath + 1;
      ok := true;
    }

    /** `dao_path_get_node_id`. */
    method GetNodeId(user: nat, path: string) returns (found: Option<nat>)
      requires KeysOk(View())
      ensures found == Lookup(View(), user, path)
    {
      if id :| id in paths && paths[id].user == user && paths[id].path == path {
        assert At(View(), id, user, path);
        return Some(id);
      }
      assert forall id :: !At(View(), id, user, path);
      found := None;
    }

    /** The file row that the unique key on the digest finds. */
    method FindKey(sha: string) returns (found: Option<nat>)
      requires KeysOk(View())
      ensures found == FileOf(View(), sha)
    {
      if id :| id in files && files[id].sha == sha {
        assert HasSha(View(), id, sha);
        return Some(id);
      }
      assert forall id :: !HasSha(View(), id, sha);
      found := None;
    }

    /** `dao_file_find_by_hash`: the row of a digest, in either case, that also has the size. */
    method FindByHash(sha: string, size: nat) returns (found: Option<nat>)
      requires KeysOk(View())
      ensures found == Drive.Existing(View(), sha, size)
      ensures found.Some? <==> exists id :: HasSha(View(), id, Lower(sha)) && files[id].size == size
    {
      if id :| id in files && files[id].sha == Lower(sha) && files[id].size == size {
        assert HasSha(View(), id, Lower(sha));
        return Some(id);
      }
      found := None;
    }

    /** `dao_auth_register`: a user and the user's root directory, or neither. */
    method Register(name: string, fails: bool) returns (ok: bool)
      modifies this
      ensures View() == if ok then Or(old(View()), Registered(old(View()), name)) else old(View())
      ensures ok <==> !fails && Registered(old(View()), name).Some?
    {
      var saved := View();
      if user :| user in users && users[user] == name {
        return false;
      }
      var id := nextUser;
      users, nextUser := users[id := name], nextUser + 1;
      ghost var grown := View();
      ok := InsertPath(PathRow(id, "/", None, None, "/", true));
      assert grown == saved.(users := saved.users[saved.nextUser := name], nextUser := saved.nextUser + 1);
      if !ok || fails {
        Rollback(saved);
        ok := false;
      }
    }

    /** `dao_link_existing_file`. */
    method LinkExistingFile(user: nat, path: string, parent: nat, name: string, file: nat, fails: bool)
      returns (ok: bool)
      modifies this
      ensures View() ==
        if ok then Or(old(View()), FileLinked(old(View()), user, path, parent, name, file)) else old(View())
      ensures ok <==> !fails && FileLinked(old(View()), user, path, parent, name, file).Some?
    {
      var saved := View();
      if file in files {
        files := files[file := files[file].(refs := files[file].refs + 1)];
      }
      ghost var counted := View();
      assert counted == Counted(saved, file);
      ok := InsertPath(PathRow(user, path, Some(file), Some(parent), name, false));
      if !ok || fails {
        Rollback(saved);
        ok := false;
      }
    }

    /** `dao_create_file_with_path`. */
    method CreateFileWithPath(user: nat, path: string, parent: nat, name: string, sha: string, size: nat, fails: bool)
        returns (ok: bool)
      requires KeysOk(View())
      modifies this
      ensures View() ==
        if ok then Or(old(View()), FileCreated(old(View()), user, path, parent, name, sha, size)) else old(View())
      ensures ok <==> !fails && FileCreated(old(View()), user, path, parent, name, sha, size).Some?
    {
      var saved := View();
      var found := FindKey(sha);
      var file := if found.Some? then found.value else nextFile;
      if found.Some? {
        files := files[file := files[file].(refs := files[file].refs + 1)];
      } else {
        files, nextFile := files[file := FileRow(sha, size, 1)], nextFile + 1;
      }
      ghost var upserted := View();
      assert (upserted, file) == Upserted(saved, sha, size);
      ok := InsertPath(PathRow(user, path, Some(file), Some(parent), name, false));
      if !ok || fails {
        Rollback(saved);
        ok := false;
      }
    }

    /** `dao_rm_file`. */
    method RmFile(user: nat, id: nat, fails: bool) returns (status: Status)
      modifies this
      ensures View() == match FileRemoved(old(View()), user, id)
        case Removed(db, _) => if fails then old(View()) else db
        case _ => old(View())
      ensures status == match FileRemoved(old(View()), user, id)
        case NotFound => Missing
        case Broken => DbError
        case Removed(_, last) => if fails then DbError else if last.Some? then LastReference(last.value) else Done
    {
      var saved := View();
      if !(id in paths && paths[id].user == user && !paths[id].isDir && paths[id].file.Some?) {
        return Missing;
      }
      var file := paths[id].file.value;
      paths := paths - {id};
      if file in files && files[file].refs > 0 {
        files := files[file := files[file].(refs := files[file].refs - 1)];
      }
      if file !in files {
        Rollback(saved);
        return DbError;
      }
      status := Done;
      if files[file].refs == 0 {
        status := LastReference(files[file].sha);
        files := files - {file};
        assert files == saved.files - {file};
      }
      if fails {
        Rollback(saved);
        status := DbError;
      }
    }
  }
}

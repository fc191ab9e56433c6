/** The directory tree that the rows of `paths` make up, and the handlers that grow and prune
    it, one at a time. */
module PathTree {
  import opened Basics
  import opened Tables
  import Paths

  const NAME_MAX := 255

  ghost function DirAt(db: Db, user: nat, path: string): (id: Option<nat>)
    ensures id.Some? ==> At(db, id.value, user, path) && db.paths[id.value].isDir
  {
    match Lookup(db, user, path)
    case Some(id) => if db.paths[id].isDir then Some(id) else None
    case None => None
  }

  function Short(name: string): string {
    if |name| < NAME_MAX then name else name[..NAME_MAX - 1]
  }

  function NameOf(path: string): string {
    if path == "/" then "/" else Short(Paths.BaseName(path))
  }

  /** The path that a payload names, if it fits into the handlers' buffer of NAME_MAX bytes. */
  function Target(cwd: string, arg: string): Option<string> {
    if |arg| >= NAME_MAX then None else Paths.Norm(cwd, arg)
  }

  /** `handle_mkdir`. */
  ghost function DirMade(db: Db, user: nat, cwd: string, arg: string): Db {
    match Target(cwd, arg)
    case None => db
    case Some(target) =>
      if target == "/" then db
      else match DirAt(db, user, Paths.Parent(target))
        case None => db
        case Some(parent) => Or(db, DirInserted(db, user, target, parent, Short(Paths.BaseName(target))))
  }

  ghost predicate HasChildren(db: Db, user: nat, id: nat) {
    exists child :: HasChild(db, user, id, child)
  }

  /** `handle_rmdir`. */
  ghost function DirUnmade(db: Db, user: nat, cwd: string, arg: string): Db {
    match Target(cwd, arg)
    case None => db
    case Some(target) =>
      if target == "/" then db
      else match DirAt(db, user, target)
        case None => db
        case Some(id) => if HasChildren(db, user, id) then db else DirRemoved(db, id)
  }

  /** A row is the root, or its parent is the directory at its path's parent; its name is the
      last component of its path. */
  ghost predicate RowOk(db: Db, id: nat)
    requires id in db.paths
  {
    var row := db.paths[id];
    && Paths.Canonical(row.path) && row.user in db.users && row.name == NameOf(row.path)
    && if row.path == "/" then row.isDir && row.parent.None?
       else row.parent.Some? && At(db, row.parent.value, row.user, Paths.Parent(row.path))
            && db.paths[row.parent.value].isDir
  }

  ghost predicate HasRoot(db: Db, user: nat) {
    exists id :: At(db, id, user, "/")
  }

  ghost predicate TreeOk(db: Db) {
    && (forall id :: id in db.paths ==> RowOk(db, id))
    && (forall user :: user in db.users ==> HasRoot(db, user))
  }

  lemma EmptyTree()
    ensures TreeOk(EMPTY)
  {
  }

  lemma RootsStay(db: Db, db': Db)
    requires TreeOk(db) && db'.users == db.users
    requires forall id :: id in db.paths && db.paths[id].path == "/" ==>
      id in db'.paths && db'.paths[id] == db.paths[id]
    ensures forall user :: user in db'.users ==> HasRoot(db', user)
  {
    hide RowOk;
    forall user | user in db'.users ensures HasRoot(db', user) {
      assert HasRoot(db, user);
      var id :| At(db, id, user, "/");
      assert At(db', id, user, "/");
    }
  }

  lemma InsertKeepsTree(db: Db, row: PathRow)
    requires IdsOk(db) && TreeOk(db) && Inserted(db, row).Some? && row.path != "/" && Paths.Canonical(row.path)
    requires row.parent.Some? && At(db, row.parent.value, row.user, Paths.Parent(row.path)) &&
      row.name == NameOf(row.path)
    requires db.paths[row.parent.value].isDir
    ensures TreeOk(Inserted(db, row).value)
  {
    hide Paths.Canonical, Paths.Parent, NameOf, HasRoot;
    var db' := Inserted(db, row).value;
    assert RowOk(db, row.parent.value);
    forall id | id in db'.paths ensures RowOk(db', id) {
      if id != db.nextPath {
        assert RowOk(db, id);
      }
    }
    RootsStay(db, db');
  }

  /** A row that is nobody's parent may go, unless it is a root. */
  lemma RemoveKeepsTree(db: Db, db': Db, id: nat)
    requires TreeOk(db) && KeysOk(db) && id in db.paths && db.paths[id].path != "/"
    requires db'.paths == db.paths - {id} && db'.users == db.users
    requires forall child :: child in db.paths ==> db.paths[child].parent != Some(id)
    ensures TreeOk(db')
  {
    forall i | i in db'.paths ensures RowOk(db', i) {
      assert RowOk(db, i);
    }
    RootsStay(db, db');
  }

  lemma RootIsCanonical()
    ensures Paths.Canonical("/") && NameOf("/") == "/"
  {
    assert Paths.Clean([]) && "/" == Paths.Render([]);
  }

  /** A new user has no rows yet, so a registration under a free name goes through. */
  lemma RegisterInserts(db: Db, name: string)
    requires IdsOk(db) && TreeOk(db) && !NameTaken(db, name)
    ensures Registered(db, name) == Some(db.(
      users := db.users[db.nextUser := name], nextUser := db.nextUser + 1,
      paths := db.paths[db.nextPath := PathRow(db.nextUser, "/", None, None, "/", true)], nextPath := db.nextPath + 1))
  {
    var grown := db.(users := db.users[db.nextUser := name], nextUser := db.nextUser + 1);
    forall id ensures !At(grown, id, db.nextUser, "/") {
      assert id in db.paths ==> RowOk(db, id);
    }
  }

  lemma RegisterKeepsTree(db: Db, name: string)
    requires IdsOk(db) && TreeOk(db) && !NameTaken(db, name)
    ensures Registered(db, name).Some? && TreeOk(Registered(db, name).value)
  {
    hide Paths.Canonical, Paths.Parent, NameOf, Registered;
    RegisterInserts(db, name);
    RootIsCanonical();
    var db' := Registered(db, name).value;
    forall id | id in db'.paths ensures RowOk(db', id) {
      assert id in db.paths ==> RowOk(db, id);
    }
    forall user | user in db'.users ensures HasRoot(db', user) {
      if user == db.nextUser {
        assert At(db', db.nextPath, user, "/");
      } else {
        assert HasRoot(db, user);
        var i :| At(db, i, user, "/");
        assert At(db', i, user, "/");
      }
    }
  }

  lemma MkdirKeepsTree(db: Db, user: nat, cwd: string, arg: string)
    requires Ok(db) && TreeOk(db)
    ensures Ok(DirMade(db, user, cwd, arg)) && TreeOk(DirMade(db, user, cwd, arg))
  {
    hide TreeOk, KeysOk, CountsOk, Paths.Norm, Paths.Parent, Paths.BaseName, Paths.Canonical;
    Paths.NormIsCanonical(cwd, arg);
    match Target(cwd, arg)
    case None =>
    case Some(target) =>
      if target != "/" {
        var parent := DirAt(db, user, Paths.Parent(target));
        if parent.Some? {
          var row := PathRow(user, target, None, Some(parent.value), Short(Paths.BaseName(target)), true);
          if Inserted(db, row).Some? {
            InsertKeepsTree(db, row);
          }
          InsertDirKeepsOk(db, row);
        }
      }
  }

  lemma RmdirKeepsTree(db: Db, user: nat, cwd: string, arg: string)
    requires Ok(db) && TreeOk(db)
    ensures Ok(DirUnmade(db, user, cwd, arg)) && TreeOk(DirUnmade(db, user, cwd, arg))
  {
    match Target(cwd, arg)
    case None =>
    case Some(target) =>
      var found := DirAt(db, user, target);
      if target != "/" && found.Some? && !HasChildren(db, user, found.value) {
        var id := found.value;
        forall child | child in db.paths ensures db.paths[child].parent != Some(id) {
          assert RowOk(db, child) && !HasChild(db, user, id, child);
        }
        RemoveKeepsTree(db, DirRemoved(db, id), id);
        RemoveDirKeepsOk(db, id);
      }
  }

  /** Files have no children. */
  lemma RemoveFileKeepsTree(db: Db, user: nat, id: nat)
    requires Ok(db) && TreeOk(db) && FileRemoved(db, user, id).Removed?
    ensures TreeOk(FileRemoved(db, user, id).db)
  {
    hide Paths.Canonical, Paths.Parent, NameOf, CountsOk, KeysOk;
    forall child | child in db.paths ensures db.paths[child].parent != Some(id) {
      assert RowOk(db, child);
    }
    assert RowOk(db, id);
    RemoveKeepsTree(db, FileRemoved(db, user, id).db, id);
  }

  /** Nothing changes but that the rows of `target` may come or go. */
  ghost predicate OnlyAt(db: Db, db': Db, user: nat, target: string) {
    && (forall id :: id in db.paths && !At(db, id, user, target) ==> id in db'.paths && db'.paths[id] == db.paths[id])
    && (forall id :: id in db'.paths && !At(db', id, user, target) ==> id in db.paths)
    && db'.files == db.files && db'.users == db.users
  }

  /** A directory is there after `mkdir` exactly if it was before, or if its parent is one and
      nothing was at its path. */
  lemma MkdirMakes(db: Db, user: nat, cwd: string, arg: string, target: string)
    requires Ok(db) && TreeOk(db) && Target(cwd, arg) == Some(target) && target != "/"
    ensures var db' := DirMade(db, user, cwd, arg);
      && (DirAt(db', user, target).Some? <==>
            DirAt(db, user, target).Some? ||
            (Lookup(db, user, target).None? && DirAt(db, user, Paths.Parent(target)).Some?))
      && OnlyAt(db, db', user, target) && db.paths.Keys <= db'.paths.Keys
  {
    hide TreeOk, Target, Paths.Parent, Paths.BaseName, CountsOk;
    MkdirKeepsTree(db, user, cwd, arg);
    var db', parent := DirMade(db, user, cwd, arg), DirAt(db, user, Paths.Parent(target));
    if parent.Some? && Lookup(db, user, target).None? {
      assert At(db', db.nextPath, user, target);
    }
  }

  ghost predicate IsBelow(db: Db, id: nat, user: nat, target: string) {
    id in db.paths && db.paths[id].user == user && db.paths[id].path != "/" && Paths.Parent(db.paths[id].path) == target
  }

  /** Rows whose parent is a directory are those whose paths lie in it. */
  lemma ChildrenAreBelow(db: Db, id: nat, user: nat, target: string, child: nat)
    requires KeysOk(db) && TreeOk(db) && At(db, id, user, target)
    ensures HasChild(db, user, id, child) <==> IsBelow(db, child, user, target)
  {
    hide Paths.Canonical, Paths.Parent;
    if child in db.paths {
      assert RowOk(db, child);
    }
  }

  /** A directory goes by `rmdir` exactly if no path lies in it. */
  lemma RmdirRemoves(db: Db, user: nat, cwd: string, arg: string, target: string)
    requires Ok(db) && TreeOk(db) && Target(cwd, arg) == Some(target) && target != "/"
    ensures var db' := DirUnmade(db, user, cwd, arg);
      && (DirAt(db', user, target).None? <==>
            DirAt(db, user, target).None? || forall child :: !IsBelow(db, child, user, target))
      && OnlyAt(db, db', user, target) && db'.paths.Keys <= db.paths.Keys
  {
    hide TreeOk, Target, Paths.Parent, CountsOk;
    RmdirKeepsTree(db, user, cwd, arg);
    var found := DirAt(db, user, target);
    if found.Some? {
      forall child ensures HasChild(db, user, found.value, child) <==> IsBelow(db, child, user, target) {
        ChildrenAreBelow(db, found.value, user, target, child);
      }
      var db' := DirUnmade(db, user, cwd, arg);
      assert forall id :: At(db', id, user, target) ==> At(db, id, user, target) && id == found.value;
    }
  }

  lemma ParentIsStored(db: Db, id: nat, parts: seq<string>)
    requires TreeOk(db) && id in db.paths && Paths.Clean(parts) &&
      db.paths[id].path == Paths.Render(parts) && parts != []
    ensures var row := db.paths[id];
      row.parent.Some? && At(db, row.parent.value, row.user, Paths.Render(parts[..|parts| - 1])) &&
      db.paths[row.parent.value].isDir
  {
    hide Paths.Canonical, Paths.Parent, Paths.Render;
    Paths.ParentOfRendered(parts);
    Paths.TokensOfRendered(parts);
    Paths.TokensOfRendered([]);
    RenderOfNone();
    assert RowOk(db, id);
  }

  /** In the directory `cwd`, the payload `arg` is about the entry `name` of the directory with
      these parts: it is the name itself, given there, or the whole path, given anywhere. */
  ghost predicate Means(cwd: string, arg: string, parts: seq<string>, name: string) {
    && Paths.Clean(parts) && Paths.CleanPart(name)
    && |arg| < NAME_MAX && |Paths.Slashed(parts + [name])| < PATH_MAX
    && ((cwd == Paths.Render(parts) && arg == name) || arg == Paths.Render(parts + [name]))
  }

  lemma MeaningIsTarget(cwd: string, arg: string, parts: seq<string>, name: string)
    requires Means(cwd, arg, parts, name)
    ensures Target(cwd, arg) == Some(Paths.Render(parts + [name])) && Short(name) == name
    ensures var path := Paths.Render(parts + [name]);
      path != "/" && Paths.Parent(path) == Paths.Render(parts) && Paths.BaseName(path) == name
  {
    hide Paths.Norm, Paths.Render, Paths.Parent, Paths.BaseName;
    var all := parts + [name];
    assert Paths.Clean(all) && all[..|all| - 1] == parts;
    Paths.ParentOfRendered(all);
    RenderedIs(all);
    if arg == Paths.Render(all) {
      assert Paths.Canonical(arg);
      Paths.CanonicalIsFixed(cwd, arg);
    } else {
      Paths.NameGoesDown(parts, name);
    }
  }

  lemma RenderedIs(parts: seq<string>)
    requires Paths.Clean(parts) && parts != []
    ensures Paths.Render(parts) == Paths.Slashed(parts) && Paths.Render(parts) != "/"
    ensures |parts[|parts| - 1]| < |Paths.Render(parts)|
  {
    Paths.SlashedIsLonger(parts);
    Paths.ParentOfRendered(parts);
  }

  /** There is a directory with this id at the path. */
  predicate IsDirAt(db: Db, id: nat, user: nat, path: string) {
    At(db, id, user, path) && db.paths[id].isDir
  }

  ghost predicate IsFree(db: Db, user: nat, path: string) {
    forall id :: !At(db, id, user, path)
  }

  /** `mkdir` of an entry adds one row for it, below the directory's row, if the directory is
      there and the entry is not; otherwise it changes nothing. */
  lemma MkdirMakesEntry(db: Db, user: nat, cwd: string, arg: string, parts: seq<string>, name: string)
    requires Ok(db) && Means(cwd, arg, parts, name)
    ensures var path, db' := Paths.Render(parts + [name]), DirMade(db, user, cwd, arg);
      && (forall dir :: IsDirAt(db, dir, user, Paths.Render(parts)) && IsFree(db, user, path) ==>
            db' == db.(paths := db.paths[db.nextPath := PathRow(user, path, None, Some(dir), name, true)],
                       nextPath := db.nextPath + 1))
      && (!(exists dir :: IsDirAt(db, dir, user, Paths.Render(parts))) || !IsFree(db, user, path) ==> db' == db)
  {
    hide Paths.Norm, Paths.Render, Paths.Parent, Paths.BaseName, CountsOk, Target, Short;
    MeaningIsTarget(cwd, arg, parts, name);
    var found := DirAt(db, user, Paths.Render(parts));
    assert found.Some? ==> IsDirAt(db, found.value, user, Paths.Render(parts));
  }

  /** `rmdir` of an entry takes its row away if it is a directory in which no path lies;
      otherwise it changes nothing. */
  lemma RmdirRemovesEntry(db: Db, user: nat, cwd: string, arg: string, parts: seq<string>, name: string)
    requires Ok(db) && TreeOk(db) && Means(cwd, arg, parts, name)
    ensures var path, db' := Paths.Render(parts + [name]), DirUnmade(db, user, cwd, arg);
      && (forall id :: IsDirAt(db, id, user, path) ==>
            if exists child :: IsBelow(db, child, user, path) then db' == db
            else db' == db.(paths := db.paths - {id}))
      && (!(exists id :: IsDirAt(db, id, user, path)) ==> db' == db)
  {
    hide TreeOk, Paths.Norm, Paths.Render, Paths.Parent, CountsOk, Target;
    MeaningIsTarget(cwd, arg, parts, name);
    var path := Paths.Render(parts + [name]);
    var found := DirAt(db, user, path);
    if found.Some? {
      assert IsDirAt(db, found.value, user, path);
      forall child ensures HasChild(db, user, found.value, child) <==> IsBelow(db, child, user, path) {
        ChildrenAreBelow(db, found.value, user, path, child);
      }
    }
  }

  /** `high` is the parent of `low`: a directory of the same user, with a shorter path. */
  ghost predicate IsParent(db: Db, high: nat, low: nat) {
    && high in db.paths && low in db.paths && db.paths[low].parent == Some(high)
    && db.paths[high].user == db.paths[low].user && db.paths[high].isDir
    && |db.paths[high].path| < |db.paths[low].path|
  }

  /** Following the parents of a row ends at the root of its owner; so no row is above itself. */
  lemma {:induction false} ParentsLeadToRoot(db: Db, id: nat) returns (chain: seq<nat>)
    requires TreeOk(db) && id in db.paths
    ensures chain != [] && chain[0] == id && forall i :: 0 < i < |chain| ==> IsParent(db, chain[i], chain[i - 1])
    ensures At(db, chain[|chain| - 1], db.paths[id].user, "/")
    decreases |db.paths[id].path|
  {
    hide Paths.Canonical, Paths.Parent, NameOf;
    var row := db.paths[id];
    assert RowOk(db, id);
    if row.path == "/" {
      chain := [id];
    } else {
      Paths.ParentIsCanonical(row.path);
      var above := ParentsLeadToRoot(db, row.parent.value);
      chain := [id] + above;
      forall i | 0 < i < |chain| ensures IsParent(db, chain[i], chain[i - 1]) {
        assert i > 1 ==> IsParent(db, above[i - 1], above[i - 2]);
      }
    }
  }

  lemma RenderOfNone()
    ensures Paths.Render([]) == "/"
  {
  }

  /** Every directory on the way to a stored path is stored. */
  lemma {:induction false} AncestorsAreStored(db: Db, id: nat, parts: seq<string>, k: nat)
    requires TreeOk(db) && id in db.paths && Paths.Clean(parts) && db.paths[id].path == Paths.Render(parts)
    requires k < |parts|
    ensures exists i :: At(db, i, db.paths[id].user, Paths.Render(parts[..k])) && db.paths[i].isDir
    decreases |parts|
  {
    hide TreeOk, Paths.Render;
    ParentIsStored(db, id, parts);
    var front, parent := parts[..|parts| - 1], db.paths[id].parent.value;
    if k == |parts| - 1 {
      assert parts[..k] == front;
    } else {
      assert front[..k] == parts[..k];
      AncestorsAreStored(db, parent, front, k);
    }
  }
}

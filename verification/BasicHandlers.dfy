/** `handle_mkdir`, `handle_rmdir` and `handle_rm`, step by step, over the data access
    functions. */
module BasicHandlers {
  import opened Basics
  import opened Tables
  import opened MetadataDao
  import opened PathTree
  import Drive
  import Paths
  import Uploads

  datatype Reply =
    Acknowledged | BadRequest | NotThere | WrongKind | AlreadyThere | NotEmpty | IoError | DatabaseError | OtherError

  /** Which database statements fail: the lookup of a path, the listing of a directory, the
      change. */
  datatype Faults = Faults(find: bool, list: bool, change: bool)

  /** `copy_payload` and `normalize_cd_path`. */
  method ReadTarget(cwd: string, arg: string) returns (target: Option<string>)
    ensures target == Target(cwd, arg)
  {
    if |arg| >= NAME_MAX {
      return None;
    }
    target := Paths.NormalizeCdPath(cwd, arg, PATH_MAX);
  }

  method Mkdir(db: Database, user: nat, cwd: string, arg: string, faults: Faults) returns (reply: Reply)
    requires Ok(db.View())
    modifies db
    ensures db.View() ==
      if faults.find || faults.change then old(db.View()) else DirMade(old(db.View()), user, cwd, arg)
    ensures reply.Acknowledged? <==> db.View() != old(db.View())
    ensures reply.BadRequest? <==> Target(cwd, arg) in {None, Some("/")}
    ensures !reply.BadRequest? ==>
      var was, target := old(db.View()), Target(cwd, arg).value;
      var inDir := DirAt(was, user, Paths.Parent(target)).Some?;
      && (reply.OtherError? <==> faults.find || (inDir && faults.change))
      && (reply.NotThere? <==> !faults.find && Lookup(was, user, Paths.Parent(target)).None?)
      && (reply.AlreadyThere? <==> !faults.find && inDir && !faults.change && Lookup(was, user, target).Some?)
  {
    var target := ReadTarget(cwd, arg);
    if target.None? || target.value == "/" {
      return BadRequest;
    }
    if faults.find {
      return OtherError;
    }
    var parent := db.GetNodeId(user, Paths.Parent(target.value));
    if parent.None? {
      return NotThere;
    }
    if !db.paths[parent.value].isDir {
      return WrongKind;
    }
    if faults.change {
      return OtherError;
    }
    var ok := db.InsertPath(PathRow(user, target.value, None, parent, Short(Paths.BaseName(target.value)), true));
    reply := if ok then Acknowledged else AlreadyThere;
  }

  method Rmdir(db: Database, user: nat, cwd: string, arg: string, faults: Faults) returns (reply: Reply)
    requires Ok(db.View())
    modifies db
    ensures db.View() ==
      if faults.find || faults.list || faults.change then old(db.View()) else DirUnmade(old(db.View()), user, cwd, arg)
    ensures reply.Acknowledged? <==> db.View() != old(db.View())
    ensures reply.BadRequest? <==> Target(cwd, arg) in {None, Some("/")}
    ensures !reply.BadRequest? ==>
      var was, target := old(db.View()), Target(cwd, arg).value;
      var dir := DirAt(was, user, target);
      var full := dir.Some? && HasChildren(was, user, dir.value);
      && (reply.OtherError? <==> faults.find || (dir.Some? && (faults.list || (!full && faults.change))))
      && (reply.NotThere? <==> !faults.find && Lookup(was, user, target).None?)
      && (reply.NotEmpty? <==> !faults.find && !faults.list && full)
  {
    var target := ReadTarget(cwd, arg);
    if target.None? || target.value == "/" {
      return BadRequest;
    }
    if faults.find {
      return OtherError;
    }
    var found := db.GetNodeId(user, target.value);
    if found.None? {
      return NotThere;
    }
    if !db.paths[found.value].isDir {
      return WrongKind;
    }
    if faults.list {
      return OtherError;
    }
    if child :| child in db.paths && db.paths[child].user == user && db.paths[child].parent == found {
      assert HasChild(db.View(), user, found.value, child);
      return NotEmpty;
    }
    assert !HasChildren(db.View(), user, found.value);
    if faults.change {
      return OtherError;
    }
    db.paths := db.paths - {found.value};
    reply := Acknowledged;
  }

  /** `unlinks` says whether taking the object off the disk succeeds. If it does not, the
      client gets two replies, an error and then the acknowledgement. */
  method Rm(db: Database, disk: Uploads.Disk, user: nat, cwd: string, arg: string, faults: Faults, unlinks: bool)
      returns (replies: seq<Reply>, disk': Uploads.Disk)
    requires Ok(db.View())
    modifies db
    ensures Drive.World(db.View(), disk') ==
      if faults.find || faults.change then Drive.World(old(db.View()), disk)
      else Drive.Unlinked(Drive.World(old(db.View()), disk), user, cwd, arg, unlinks)
    ensures Acknowledged in replies <==> db.View() != old(db.View())
    ensures if db.View() == old(db.View()) then |replies| == 1
      else replies == if db.files.Keys == old(db.files.Keys) || unlinks then [Acknowledged] else [IoError, Acknowledged]
    ensures replies == [BadRequest] <==> Target(cwd, arg).None?
    ensures replies == [OtherError] <==> Target(cwd, arg).Some? && faults.find
    ensures Target(cwd, arg).Some? && !faults.find ==>
      (replies == [WrongKind] <==> DirAt(old(db.View()), user, Target(cwd, arg).value).Some?)
  {
    disk' := disk;
    var target := ReadTarget(cwd, arg);
    if target.None? {
      return [BadRequest], disk';
    }
    if faults.find {
      return [OtherError], disk';
    }
    var found := db.GetNodeId(user, target.value);
    if found.None? {
      return [NotThere], disk';
    }
    if db.paths[found.value].isDir {
      return [WrongKind], disk';
    }
    var status := db.RmFile(user, found.value, faults.change);
    match status
    case Missing => return [NotThere], disk';
    case DbError => return [DatabaseError], disk';
    case LastReference(sha) =>
      if unlinks {
        disk' := disk.(objects := disk.objects - {sha});
        replies := [Acknowledged];
      } else {
        replies := [IoError, Acknowledged];
      }
    case Done => replies := [Acknowledged];
  }
}

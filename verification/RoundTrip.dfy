/** What a user may count on across commands: where a transfer goes, and what comes back. */
module RoundTrip {
  import opened Basics
  import opened FileStream
  import opened Tables
  import opened PathTree
  import opened Drive
  import Paths
  import Sessions = SessionSpec
  import Uploads
  import DownloadRuns
  import Recovery
  import Downloads

  /** A transfer's remote target is settled when it is submitted: whatever directory changes
      and other session calls follow, the server resolves it to the path the client computed. */
  lemma TargetIsSettled(cwd: string, arg: string, calls: seq<Sessions.Call>,
      fd: int, id: Sessions.SessionId, memory: bool)
    requires Paths.Norm(cwd, arg).Some?
    ensures var target := Paths.Norm(cwd, arg).value;
      var context := Sessions.Authorize(Sessions.After(calls), fd, id, memory).1;
      && Paths.Norm("/", target) == Some(target)
      && (context.Some? ==> Paths.Norm(context.value.cwd, target) == Some(target))
  {
    Paths.Idempotent(cwd, arg, "/");
    var context := Sessions.Authorize(Sessions.After(calls), fd, id, memory).1;
    if context.Some? {
      Paths.Idempotent(cwd, arg, context.value.cwd);
    }
  }

  /** The row leads to an object with this content. */
  ghost predicate Holds(hash: Hash, w: World, id: nat, content: Bytes) {
    && id in w.db.paths && w.db.paths[id].file.Some? && w.db.paths[id].file.value in w.db.files
    && var file := w.db.files[w.db.paths[id].file.value];
      && file.sha == hash(content) && file.size == |content|
      && file.sha in w.disk.objects && w.disk.objects[file.sha] == content
  }

  /** A `puts` that is acknowledged has put the content at its path. */
  lemma PutStores(hash: Hash, w: World, up: Upload, content: Bytes)
    requires Inv(hash, w) && IsDigest(hash) && |up.ios| >= 2 && Ack in Attempt(hash, w, up).replies
    requires hash(content) == Lower(up.sha)
    ensures var w' := Uploaded(hash, w, up);
      && Destination(w.db, up).Some? && At(w'.db, w.db.nextPath, up.user, Destination(w.db, up).value.0)
      && Holds(hash, w', w.db.nextPath, content)
  {
    hide TreeOk, CountsOk, KeysOk, Destination, Existing, Uploads.Attempt, Paths.Norm;
    PutKeepsInv(hash, w, up);
    var w' := Uploaded(hash, w, up);
    if Plan(w.db, up).Linked? {
      LinkWorks(w.db, up);
      var file := Existing(w.db, up.sha, up.size).value;
      assert Stored(hash, w'.disk.objects, w'.db.files[file]);
    } else if Plan(w.db, up).Absent? {
      CreateWorks(w.db, up);
      UpsertedIsPending(w.db, Lower(up.sha), up.size);
      var file := Upserted(w.db, Lower(up.sha), up.size).1;
      assert Stored(hash, w'.disk.objects, w'.db.files[file]);
    } else {
      Uploads.RefusedIsNotAcknowledged(hash, w.disk, up.size, up.sha, Plan(w.db, up), up.packets, up.ios);
    }
  }

  /** With two honest ends and no failure, a `puts` is acknowledged exactly if the path is free
      in an existing directory, and the content is there already or what is kept of its part
      is a beginning of it. */
  lemma PutSucceedsIff(hash: Hash, w: World, up: Upload, content: Bytes, bodies: seq<Body>)
    requires Inv(hash, w) && IsDigest(hash) && IsSha(hash(content)) && up.sha == hash(content) && up.size == |content|
    requires up.queryOk && up.linkOk && up.packets == Recovery.Mine(bodies)
    requires Recovery.AllSmoothUp(up.ios) && |up.ios| >= |bodies| + 2
    requires var kept := Recovery.Kept(Uploads.Part(w.disk, up.sha), |content|);
      if |kept| == |content| then bodies == [] else Recovery.Sends(bodies, content, |kept|)
    ensures Ack in Attempt(hash, w, up).replies <==>
      Destination(w.db, up).Some?
      && (Existing(w.db, up.sha, up.size).Some? || Recovery.Kept(Uploads.Part(w.disk, up.sha), |content|) <= content)
  {
    hide Inv, Destination, Existing, Uploads.Attempt, Recovery.Sends;
    var plan := Plan(w.db, up);
    if plan.Linked? {
      Uploads.LinkIsAcknowledged(hash, w.disk, up.size, up.sha, up.packets, up.ios);
    } else if plan.Absent? {
      Recovery.UploadSucceedsIff(hash, w.disk, content, bodies, up.ios);
    } else {
      Uploads.RefusedIsNotAcknowledged(hash, w.disk, up.size, up.sha, plan, up.packets, up.ios);
    }
  }

  /** The same in terms of what is stored: an upload to an entry is acknowledged exactly if its
      name fits, its directory is there and the entry is not, and a file of that digest and size
      is there or what is kept of the part is a beginning of it. */
  lemma PutOfEntrySucceedsIff(
    hash: Hash, w: World, up: Upload, content: Bytes, bodies: seq<Body>, parts: seq<string>, name: string)
    requires Inv(hash, w) && IsDigest(hash) && IsSha(hash(content)) && up.sha == hash(content) && up.size == |content|
    requires up.queryOk && up.linkOk && up.packets == Recovery.Mine(bodies)
    requires Recovery.AllSmoothUp(up.ios) && |up.ios| >= |bodies| + 2
    requires var kept := Recovery.Kept(Uploads.Part(w.disk, up.sha), |content|);
      if |kept| == |content| then bodies == [] else Recovery.Sends(bodies, content, |kept|)
    requires Paths.Clean(parts) && Paths.CleanPart(name)
    requires Paths.Absolute(up.remote) && Paths.Norm("/", up.remote) == Some(Paths.Render(parts + [name]))
    ensures Ack in Attempt(hash, w, up).replies <==>
      && |name| < NAME_MAX && (exists dir :: IsDirAt(w.db, dir, up.user, Paths.Render(parts)))
      && IsFree(w.db, up.user, Paths.Render(parts + [name]))
      && ((exists file :: HasSha(w.db, file, up.sha) && w.db.files[file].size == |content|)
          || Recovery.Kept(Uploads.Part(w.disk, up.sha), |content|) <= content)
  {
    hide Attempt, Destination, Existing, Recovery.Sends, Recovery.Mine, Recovery.Kept, Paths.Norm, Paths.Render, TreeOk;
    PutSucceedsIff(hash, w, up, content, bodies);
    forall dir: nat {
      DestinationIs(w.db, up, parts, name, dir);
    }
    ExistingIff(w.db, up.sha, up.size);
  }

  lemma ExistingIff(db: Db, sha: string, size: nat)
    requires KeysOk(db) && Lower(sha) == sha
    ensures Existing(db, sha, size).Some? <==> exists file :: HasSha(db, file, sha) && db.files[file].size == size
  {
  }

  /** Two drives with the same paths and the same files, counts aside, have the same counts. */
  lemma SameFiles(hash: Hash, w: World, w': World)
    requires Inv(hash, w) && Inv(hash, w') && w'.db.paths == w.db.paths
    requires forall f :: f in w.db.files && f in w'.db.files ==> SameFile(w.db.files[f], w'.db.files[f])
    ensures w'.db.files == w.db.files
  {
    hide TreeOk, KeysOk, Stored, IdsOk;
    forall f ensures f in w.db.files <==> f in w'.db.files {
      assert Names(w.db, f) == Names(w'.db, f);
      NamedIffThere(hash, w, f);
      NamedIffThere(hash, w', f);
    }
    forall f | f in w.db.files ensures w'.db.files[f] == w.db.files[f] {
      assert Names(w.db, f) == Names(w'.db, f);
      assert CountOk(w.db, f, None) && CountOk(w'.db, f, None);
    }
  }

  /** A file is in its table exactly if some path names it. */
  lemma NamedIffThere(hash: Hash, w: World, f: nat)
    requires Inv(hash, w)
    ensures f in w.db.files <==> Names(w.db, f) != {}
  {
    hide TreeOk, KeysOk, IdsOk, Stored;
    assert f in w.db.files ==> CountOk(w.db, f, None);
    assert forall id :: id in Names(w.db, f) ==> w.db.paths[id].file == Some(f);
  }

  lemma LinkAddsRow(hash: Hash, w: World, up: Upload, path: string)
    requires Inv(hash, w) && Destination(w.db, up).Some? && Existing(w.db, up.sha, up.size).Some?
    requires Paths.Norm("/", up.remote) == Some(path)
    ensures LinkedDb(w.db, up).Some?
    ensures var put, file := LinkedDb(w.db, up).value, Existing(w.db, up.sha, up.size).value;
      NamesFile(w.db, put, up.user, path, file) && put.users == w.db.users && HasSha(put, file, Lower(up.sha))
  {
    hide TreeOk, CountsOk, KeysOk, IdsOk, Destination, Existing, Paths.Norm, Agree;
    LinkWorks(w.db, up);
  }

  lemma CreationAddsRow(hash: Hash, w: World, up: Upload, path: string)
    requires Inv(hash, w) && Destination(w.db, up).Some? && Paths.Norm("/", up.remote) == Some(path)
    ensures CreatedDb(w.db, up).Some?
    ensures var put, file := CreatedDb(w.db, up).value, Upserted(w.db, Lower(up.sha), up.size).1;
      NamesFile(w.db, put, up.user, path, file) && put.users == w.db.users && HasSha(put, file, Lower(up.sha))
  {
    hide TreeOk, CountsOk, KeysOk, IdsOk, Destination, Paths.Norm, Agree;
    CreateWorks(w.db, up);
    UpsertedIsPending(w.db, Lower(up.sha), up.size);
  }

  /** An acknowledged `puts` adds one row, which names the file of the content. */
  lemma PutAddsRow(hash: Hash, w: World, up: Upload, content: Bytes, path: string) returns (file: nat)
    requires Inv(hash, w) && IsDigest(hash) && |up.ios| >= 2 && Ack in Attempt(hash, w, up).replies
    requires hash(content) == Lower(up.sha) && Paths.Norm("/", up.remote) == Some(path)
    ensures var put := Uploaded(hash, w, up);
      && NamesFile(w.db, put.db, up.user, path, file) && put.db.users == w.db.users
      && HasSha(put.db, file, hash(content))
  {
    hide Inv, Destination, Existing, LinkedDb, CreatedDb, NamesFile, Uploads.Attempt, Paths.Norm;
    if Plan(w.db, up).Linked? {
      LinkAddsRow(hash, w, up, path);
      file := Existing(w.db, up.sha, up.size).value;
    } else if Plan(w.db, up).Absent? {
      CreationAddsRow(hash, w, up, path);
      file := Upserted(w.db, Lower(up.sha), up.size).1;
    } else {
      Uploads.RefusedIsNotAcknowledged(hash, w.disk, up.size, up.sha, Plan(w.db, up), up.packets, up.ios);
      assert false;
    }
  }

  /** The new row is the only one with its content exactly if no file had it before. */
  lemma OnlyName(hash: Hash, w: World, put: World, user: nat, path: string, file: nat, sha: string)
    requires Inv(hash, w) && Inv(hash, put) && NamesFile(w.db, put.db, user, path, file) && HasSha(put.db, file, sha)
    ensures Names(put.db, file) == {w.db.nextPath} <==> FileOf(w.db, sha).None?
  {
    hide TreeOk, CountsOk, IdsOk, Stored;
    var id := w.db.nextPath;
    assert Names(put.db, file) == Names(w.db, file) + {id} && id !in Names(w.db, file);
    NamedIffThere(hash, w, file);
    assert file in w.db.files ==> HasSha(w.db, file, sha);
    if FileOf(w.db, sha).Some? {
      assert HasSha(put.db, FileOf(w.db, sha).value, sha);
    }
  }

  lemma RemoveKeepsUsers(w: World, user: nat, cwd: string, arg: string, unlinks: bool)
    ensures Unlinked(w, user, cwd, arg, unlinks).db.users == w.db.users
  {
  }

  /** `rm` of an entry with a new row undoes the row. */
  lemma RmLeadsBack(
    hash: Hash, w: World, put: World, user: nat, cwd: string, arg: string, unlinks: bool,
    parts: seq<string>, name: string, file: nat, sha: string)
    requires Inv(hash, w) && Inv(hash, put) && Means(cwd, arg, parts, name) && HasSha(put.db, file, sha)
    requires NamesFile(w.db, put.db, user, Paths.Render(parts + [name]), file)
    ensures var end := Unlinked(put, user, cwd, arg, unlinks);
      && Inv(hash, end) && end.db.paths == w.db.paths && end.db.users == put.db.users
      && (forall f :: f in w.db.files && f in end.db.files ==> SameFile(w.db.files[f], end.db.files[f]))
      && end.disk.objects ==
           if unlinks && FileOf(w.db, sha).None? then put.disk.objects - {sha} else put.disk.objects
  {
    hide TreeOk, KeysOk, CountsOk, IdsOk, Agree, Means, Paths.Render, Unlinked;
    OnlyName(hash, w, put, user, Paths.Render(parts + [name]), file, sha);
    RmRemovesEntry(hash, put, user, cwd, arg, unlinks, parts, name, w.db.nextPath);
    RemoveKeepsInv(hash, put, user, cwd, arg, unlinks);
    RemoveKeepsUsers(put, user, cwd, arg, unlinks);
    assert put.db.paths - {w.db.nextPath} == w.db.paths;
  }

  /** `puts` and then `rm` of an entry leads back: the same paths and files with the same counts.
      The object goes exactly if it was the only path with its content. */
  lemma PutThenRm(
    hash: Hash, w: World, up: Upload, content: Bytes, cwd: string, arg: string, unlinks: bool,
    parts: seq<string>, name: string)
    requires Inv(hash, w) && IsDigest(hash) && |up.ios| >= 2 && Ack in Attempt(hash, w, up).replies
    requires hash(content) == Lower(up.sha) && Means(cwd, arg, parts, name)
    requires Paths.Norm("/", up.remote) == Some(Paths.Render(parts + [name]))
    ensures var put := Drive.After(hash, w, Put(up));
      var end := Drive.After(hash, put, Remove(up.user, cwd, arg, unlinks));
      && end.db.paths == w.db.paths && end.db.files == w.db.files && end.db.users == w.db.users
      && end.disk.objects ==
           if unlinks && FileOf(w.db, hash(content)).None? then put.disk.objects - {hash(content)} else put.disk.objects
  {
    hide Attempt, Uploaded, Inv, Means, Paths.Norm, Paths.Render, Unlinked, NamesFile, FileOf;
    var put := Uploaded(hash, w, up);
    var file := PutAddsRow(hash, w, up, content, Paths.Render(parts + [name]));
    PutKeepsInv(hash, w, up);
    RmLeadsBack(hash, w, put, up.user, cwd, arg, unlinks, parts, name, file, hash(content));
    SameFiles(hash, w, Unlinked(put, up.user, cwd, arg, unlinks));
  }

  /** It stays there as long as the row does, whatever else is uploaded, linked or removed. */
  lemma HeldStays(hash: Hash, worlds: seq<World>, requests: seq<Request>, m: nat, n: nat, id: nat, content: Bytes)
    requires Drive.IsRun(hash, worlds, requests) && IsDigest(hash) && m <= n < |worlds|
    requires Holds(hash, worlds[m], id, content) && id in worlds[n].db.paths
    ensures Holds(hash, worlds[n], id, content) && worlds[n].db.paths[id] == worlds[m].db.paths[id]
  {
    hide Drive.IsRun, TreeOk, CountsOk, KeysOk;
    RunsKeepInv(hash, worlds, requests, m);
    RunsKeepInv(hash, worlds, requests, n);
    RunLasts(hash, worlds, requests, m, n);
    var file := worlds[n].db.paths[id].file.value;
    assert Stored(hash, worlds[n].disk.objects, worlds[n].db.files[file]);
  }

  /** The setting of a download of a path: what the server finds when it looks the path up. */
  ghost predicate Serves(u: DownloadRuns.Setting, hash: Hash, w: World, user: nat, path: string) {
    && Lookup(w.db, user, path).Some?
    && var row := w.db.paths[Lookup(w.db, user, path).value];
      && row.file.Some? && row.file.value in w.db.files
      && var file := w.db.files[row.file.value];
        && file.sha in w.disk.objects
        && u.hash == hash && u.stored == w.disk.objects[file.sha] && u.size == file.size && u.sha == file.sha
  }

  /** The upload and the path it went to. */
  ghost predicate Stores(hash: Hash, w: World, request: Request, content: Bytes, user: nat, path: string) {
    && request.Put? && |request.upload.ios| >= 2 && request.upload.user == user
    && Paths.Norm("/", request.upload.remote) == Some(path)
    && hash(content) == Lower(request.upload.sha) && Ack in Attempt(hash, w, request.upload).replies
  }

  /** From `puts` to `gets`: once an upload of some content to a path is acknowledged, a download
      of this path that succeeds, after any further requests during which the path stays in
      place and over any number of interrupted attempts, yields exactly this content. */
  lemma GetsReturnsWhatPutsStored(
    hash: Hash, worlds: seq<World>, requests: seq<Request>, m: nat, n: nat, content: Bytes, user: nat, path: string,
    u: DownloadRuns.Setting, downloads: seq<DownloadRuns.World>, steps: seq<DownloadRuns.Step>, k: nat)
    requires Drive.IsRun(hash, worlds, requests) && IsDigest(hash) && m < n < |worlds|
    requires Stores(hash, worlds[m], requests[m], content, user, path)
    requires forall i :: m < i <= n ==> Lookup(worlds[i].db, user, path).Some?
    requires Serves(u, hash, worlds[n], user, path)
    requires DownloadRuns.IsRun(u, downloads, steps) && k < |downloads| && downloads[k].client == Downloads.Ended(true)
    ensures downloads[k].local.target == Some(content)
  {
    hide Attempt, Uploaded, Inv, Destination, Paths.Norm;
    hide DownloadRuns.Enabled, DownloadRuns.After, DownloadRuns.Init;
    RunsKeepInv(hash, worlds, requests, m);
    PutStores(hash, worlds[m], requests[m].upload, content);
    assert worlds[m + 1] == Drive.After(hash, worlds[m], requests[m]);
    var id := worlds[m].db.nextPath;
    PathKeepsItsRow(hash, worlds, requests, m + 1, n, user, path, id);
    HeldStays(hash, worlds, requests, m + 1, n, id, content);
    DownloadRuns.DownloadIsExact(u, downloads, steps, k);
  }
}

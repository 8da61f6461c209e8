/** The temporary files and directories of a build with cache: who creates them, who hands them to
    removal, and what needs them in between. */
module TempPaths {
  import opened Models

  /** Work done on temporary paths. */
  datatype Task = Download | Unarchive | List | Archive | Upload | Solve

  datatype Work = Work(task: Task, paths: set<nat>)

  /** Paths are numbered as they are created. */
  class TempDir {
    var next: nat
    /** the work done so far */
    ghost var done: seq<Work>
    /** created and not yet passed to removal */
    var held: set<nat>

    ghost predicate Valid() reads this {
      forall p :: p in held ==> p < next
    }

    constructor ()
      ensures Valid() && held == {} && done == []
    {
      next, held, done := 0, {}, [];
    }

    /** ioutil.TempFile and ioutil.TempDir. */
    method Create(ok: bool) returns (p: Option<nat>)
      requires Valid()
      modifies this`next, this`held
      ensures Valid() && (p.Some? <==> ok)
      ensures ok ==> p.value !in old(held) && held == old(held) + {p.value}
      ensures !ok ==> held == old(held)
    {
      if !ok {
        return None;
      }
      p := Some(next);
      held, next := held + {next}, next + 1;
    }

    /** os.Remove and os.RemoveAll; nothing is removed twice. */
    method Remove(p: nat)
      requires Valid() && p in held
      modifies this`held
      ensures Valid() && held == old(held) - {p}
    {
      held := held - {p};
    }

    /** Anything that works on paths needs them not to have been removed. */
    method Use(task: Task, paths: set<nat>)
      requires paths <= held
      modifies this`done
      ensures done == old(done) + [Work(task, paths)]
    {
      done := done + [Work(task, paths)];
    }
  }

  // ---------- s3.CacheManager ----------

  datatype FetchDeps = FetchDeps(clientOk: bool, fileOk: bool, downloadOk: bool, dirOk: bool, unarchiveOk: bool)

  predicate Fetches(d: FetchDeps) {
    d.clientOk && d.fileOk && d.downloadOk && d.dirOk && d.unarchiveOk
  }

  /** Fetch leaves behind the directory it returns, into which it has unpacked what it downloaded, and
      nothing else. */
  method Fetch(fs: TempDir, d: FetchDeps) returns (dir: Option<nat>)
    requires fs.Valid()
    modifies fs
    ensures fs.Valid() && (dir.Some? <==> Fetches(d))
    ensures dir.Some? <==> d.clientOk && d.fileOk && d.downloadOk && d.dirOk && d.unarchiveOk
    ensures old(fs.done) <= fs.done && NoTask(fs.done[|old(fs.done)|..], Solve) && NoTask(fs.done[|old(fs.done)|..], Upload)
    ensures dir.Some? ==>
              exists f: nat :: fs.done == old(fs.done) + [Work(Download, {f}), Work(Unarchive, {f, dir.value})]
    ensures dir.Some? ==> dir.value !in old(fs.held) && fs.held == old(fs.held) + {dir.value}
    ensures dir.None? ==> fs.held == old(fs.held)
  {
    if !d.clientOk {
      return None;
    }
    var f := fs.Create(d.fileOk);
    if f.None? {
      return None;
    }
    fs.Use(Download, {f.value});
    if !d.downloadOk {
      fs.Remove(f.value); // deferred
      return None;
    }
    dir := fs.Create(d.dirOk);
    if dir.None? {
      fs.Remove(f.value); // deferred
      return None;
    }
    fs.Use(Unarchive, {f.value, dir.value});
    if !d.unarchiveOk {
      fs.Remove(dir.value);
      dir := None;
    }
    fs.Remove(f.value); // deferred
  }

  datatype SaveDeps = SaveDeps(clientOk: bool, fileOk: bool, listOk: bool, archiveOk: bool, openOk: bool, uploadOk: bool)

  predicate Saves(d: SaveDeps) {
    d.clientOk && d.fileOk && d.listOk && d.archiveOk && d.openOk && d.uploadOk
  }

  /** The work is of other kinds. */
  predicate NoTask(ws: seq<Work>, task: Task) {
    forall w :: w in ws ==> w.task != task
  }

  function Optional(p: Option<nat>): set<nat> {
    if p.Some? then {p.value} else {}
  }

  /** Save leaves nothing behind, and the cache where it was; it succeeds if it could list, pack and
      upload it. */
  method Save(fs: TempDir, path: nat, d: SaveDeps) returns (err: bool)
    requires fs.Valid() && path in fs.held
    modifies fs
    ensures fs.Valid() && fs.held == old(fs.held) && (err <==> !Saves(d))
    ensures !err <==> d.clientOk && d.fileOk && d.listOk && d.archiveOk && d.openOk && d.uploadOk
    ensures old(fs.done) <= fs.done && NoTask(fs.done[|old(fs.done)|..], Solve)
    ensures !err ==>
              exists f: nat :: fs.done == old(fs.done) + [Work(List, {path}), Work(Archive, {path, f}), Work(Upload, {f})]
  {
    if !d.clientOk {
      return true;
    }
    var f := fs.Create(d.fileOk);
    if f.None? {
      return true;
    }
    err := true;
    fs.Use(List, {path});
    if d.listOk {
      fs.Use(Archive, {path, f.value});
      if d.archiveOk && d.openOk {
        fs.Use(Upload, {f.value});
        err := !d.uploadOk;
      }
    }
    fs.Remove(f.value); // deferred
  }

  // ---------- buildkit.BuildSolver ----------

  datatype CacheType = Disabled | S3 | Inline

  datatype LoadDeps = LoadDeps(getOk: bool, exportDirOk: bool, fetch: FetchDeps)

  /** What loadCache returns and configures: the paths its clean-up function removes, the export path
      (none is the empty string), an error, and the local directories the solver exports to and
      imports from. */
  datatype Cache = Cache(
    cleanup: seq<nat>,
    expath: Option<nat>,
    err: bool,
    exports: Option<nat>,
    imports: Option<nat>)

  function Paths(ps: seq<nat>): set<nat> {
    set p | p in ps
  }

  /** The export path is set as soon as its directory exists, even if the fetch then fails. The
      clean-up function knows every path created here, each of them once. */
  method LoadCache(fs: TempDir, t: CacheType, d: LoadDeps) returns (c: Cache)
    requires fs.Valid()
    modifies fs
    ensures fs.Valid() && fs.held == old(fs.held) + Paths(c.cleanup) && old(fs.held) !! Paths(c.cleanup)
    ensures forall i, j :: 0 <= i < j < |c.cleanup| ==> c.cleanup[i] != c.cleanup[j]
    ensures c.expath == c.exports && (c.exports.Some? <==> t.S3? && d.getOk && d.exportDirOk)
    ensures c.exports.Some? ==> c.exports.value in c.cleanup
    ensures c.imports.Some? ==> c.imports.value in c.cleanup && c.imports != c.exports
    ensures c.imports.Some? <==> c.exports.Some? && Fetches(d.fetch)
    ensures c.err <==> !d.getOk || (t.S3? && c.imports.None?)
    ensures old(fs.done) <= fs.done && NoTask(fs.done[|old(fs.done)|..], Solve) && NoTask(fs.done[|old(fs.done)|..], Upload)
    ensures c.imports.Some? ==> exists f: nat :: fs.done[|old(fs.done)|..] == [Work(Download, {f}), Work(Unarchive, {f, c.imports.value})]
  {
    if !d.getOk {
      return Cache([], None, true, None, None);
    }
    if t.S3? {
      var exportpath := fs.Create(d.exportDirOk);
      if exportpath.None? {
        return Cache([], None, true, None, None);
      }
      var path := Fetch(fs, d.fetch);
      if path.None? {
        assert Paths([exportpath.value]) == {exportpath.value};
        return Cache([exportpath.value], exportpath, true, exportpath, None);
      }
      assert Paths([exportpath.value, path.value]) == {exportpath.value, path.value};
      return Cache([exportpath.value, path.value], exportpath, false, exportpath, path);
    }
    return Cache([], None, false, None, None);
  }

  /** The clean-up function. */
  method CleanUp(fs: TempDir, paths: seq<nat>)
    requires fs.Valid() && Paths(paths) <= fs.held
    requires forall i, j :: 0 <= i < j < |paths| ==> paths[i] != paths[j]
    modifies fs`held
    ensures fs.Valid() && fs.held == old(fs.held) - Paths(paths)
  {
    for i := 0 to |paths|
      invariant fs.Valid() && fs.held == old(fs.held) - Paths(paths[..i])
    {
      assert paths[i] in Paths(paths) && paths[i] !in Paths(paths[..i]);
      assert Paths(paths[..i + 1]) == Paths(paths[..i]) + {paths[i]} by {
        assert paths[..i + 1] == paths[..i] + [paths[i]];
      }
      fs.Remove(paths[i]);
    }
    assert paths[..|paths|] == paths;
  }

  /** saveCache */
  method SaveCache(fs: TempDir, t: CacheType, getOk: bool, expath: Option<nat>, d: SaveDeps) returns (err: bool)
    requires fs.Valid() && (expath.Some? ==> expath.value in fs.held)
    modifies fs
    ensures fs.Valid() && fs.held == old(fs.held)
    ensures err <==> !getOk || (t.S3? && (expath.None? || !Saves(d)))
    ensures old(fs.done) <= fs.done && NoTask(fs.done[|old(fs.done)|..], Solve)
    ensures t.S3? && !err ==>
              exists f: nat :: fs.done == old(fs.done) + [Work(List, {expath.value}), Work(Archive, {expath.value, f}), Work(Upload, {f})]
    ensures !t.S3? ==> fs.done == old(fs.done)
  {
    if !getOk {
      return true;
    }
    if t.S3? {
      if expath.None? {
        return true;
      }
      err := Save(fs, expath.value, d);
      return err;
    }
    return false;
  }

  datatype BuildDeps = BuildDeps(
    getOk: bool, load: LoadDeps, socketOk: bool, solveOk: bool, saveGetOk: bool, save: SaveDeps)

  /** Whatever fails, Build has passed every temporary path to removal when it returns, the solver and
      Save find theirs in place, and trouble with the cache alone never fails a build. saved says that
      the exported cache was uploaded; before and after are the work done around the call of the solver,
      and dirs the directories it was given. */
  method Build(fs: TempDir, t: CacheType, d: BuildDeps)
    returns (err: bool, saved: bool, ghost before: seq<Work>, ghost dirs: set<nat>, ghost after: seq<Work>)
    requires fs.Valid()
    modifies fs
    ensures fs.Valid() && fs.held == old(fs.held)
    ensures err <==> !(d.getOk && d.socketOk && d.solveOk)
    ensures saved <==> !err && t.S3? && d.load.getOk && d.load.exportDirOk && d.saveGetOk && Saves(d.save)
    // the solver is called once, exactly when the build was read and the socket found
    ensures fs.done == old(fs.done) + before + (if d.getOk && d.socketOk then [Work(Solve, dirs)] else []) + after
    ensures NoTask(before, Solve) && NoTask(after, Solve)
    // it is given the export directory and, if the fetch succeeded, the import directory
    ensures d.getOk && d.socketOk ==>
              |dirs| == (if t.S3? && d.load.getOk && d.load.exportDirOk
                         then (if d.load.fetch.clientOk && d.load.fetch.fileOk && d.load.fetch.downloadOk
                                  && d.load.fetch.dirOk && d.load.fetch.unarchiveOk then 2 else 1)
                         else 0)
    // what was saved was uploaded, after the build
    ensures saved ==> !NoTask(after, Upload)
  {
    saved, before, dirs, after := false, [], {}, [];
    if !d.getOk {
      assert fs.done == old(fs.done) + before + [] + after;
      return true, saved, before, dirs, after;
    }
    var c := LoadCache(fs, t, d.load);
    before := fs.done[|old(fs.done)|..];
    assert fs.done == old(fs.done) + before;
    if !d.socketOk {
      CleanUp(fs, c.cleanup); // deferred
      assert fs.done == old(fs.done) + before + [] + after;
      return true, saved, before, dirs, after;
    }
    dirs := Optional(c.exports) + Optional(c.imports);
    fs.Use(Solve, Optional(c.exports) + Optional(c.imports));
    ghost var solved := fs.done;
    if !d.solveOk {
      CleanUp(fs, c.cleanup); // deferred
      assert fs.done == old(fs.done) + before + [Work(Solve, dirs)] + after;
      return true, saved, before, dirs, after;
    }
    var saveErr := SaveCache(fs, t, d.saveGetOk, c.expath, d.save);
    saved := !saveErr && t.S3?;
    after := fs.done[|solved|..];
    Uploaded(solved, fs.done, saved);
    CleanUp(fs, c.cleanup); // deferred
    assert fs.done == old(fs.done) + before + [Work(Solve, dirs)] + after;
    return false, saved, before, dirs, after;
  }

  lemma {:induction false} Uploaded(ws: seq<Work>, more: seq<Work>, saved: bool)
    requires ws <= more
    requires saved ==> exists p: nat, f: nat :: more == ws + [Work(List, {p}), Work(Archive, {p, f}), Work(Upload, {f})]
    ensures saved ==> !NoTask(more[|ws|..], Upload)
  {
    if saved {
      assert more[|more| - 1].task == Upload && more[|more| - 1] in more[|ws|..];
    }
  }
}

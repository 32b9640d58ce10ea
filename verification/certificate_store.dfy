/** The certificate store as an object over a file system it changes step by step. */
module CertificateStoreObject {
  import opened Wrappers
  import opened CertificateFiles
  import opened CertificateRegister

  class FileSystem {
    var current: Option<Gid>
    var dirs: map<Gid, Dir>
    var alive: bool
    var script: seq<Outcome>

    ghost function View(): Fs
      reads this
    {
      Fs(Image(current, dirs), alive, script)
    }

    constructor ()
      ensures View() == Fs(Image(None, map[]), true, [])
    {
      current, dirs, alive, script := None, map[], true, [];
    }

    /** Carry out one change, or fail, or lose power around it. */
    method Do(ch: Change) returns (ok: bool)
      modifies this
      ensures (View(), ok) == Step(old(View()), ch)
    {
      if !alive { return false; }
      var o := Done;
      if script != [] { o, script := script[0], script[1..]; }
      var img := Image(current, dirs);
      match o {
        case Done =>
          ok := Possible(img, ch);
          img := Apply(img, ch);
        case Failed(leavesTmp) =>
          ok := false;
          img := Leave(img, ch, leavesTmp);
        case PowerLostBefore =>
          ok, alive := false, false;
        case PowerLostAfter =>
          ok, alive := false, false;
          img := Apply(img, ch);
      }
      current, dirs := img.current, img.dirs;
    }
  }

  class CertificateStore {
    const files: FileSystem
    var currentGeneration: Option<Generation>
    var recovered: bool

    ghost function View(): Store
      reads this, files
    {
      Store(files.View(), currentGeneration, recovered)
    }

    constructor (files: FileSystem)
      ensures this.files == files && currentGeneration == None && !recovered
    {
      this.files := files;
      currentGeneration, recovered := None, false;
    }

    method Load(gid: Gid) returns (g: Option<Generation>)
      ensures g == LoadGeneration(files.View().img, gid)
    {
      if gid !in files.dirs { return None; }
      var d := files.dirs[gid];
      if d.manifest.None? { return None; }
      var m := d.manifest.value;
      if m.gid != gid { return None; }
      var chain := if d.chain.Some? then d.chain.value else "";
      if chain != m.chain { return None; }
      if d.cert != Some(m.cert) { return None; }
      if chain == "" || !m.cert.Object? { return None; }
      g := Some(Generation(gid, m.previous, m.version, m.state, m.chain, m.cert));
    }

    method Write(g: Generation) returns (ok: bool)
      modifies files
      ensures (files.View(), ok) == WriteGeneration(old(files.View()), g)
    {
      ok := files.Do(MakeDir(g.gid));
      if !ok { return; }
      ok := files.Do(Put(g.gid, ChainText(g.chain)));
      if !ok { return; }
      ok := files.Do(Put(g.gid, CertText(g.cert)));
      if !ok { return; }
      ok := files.Do(Put(g.gid, ManifestText(ManifestOf(g))));
      if !ok { return; }
      ok := files.Do(SyncDir);
    }

    method Drop(gid: Gid)
      modifies files
      ensures files.View() == DropCandidate(old(files.View()), gid)
    {
      var ignored := files.Do(Remove(gid, ManifestFile));
      ignored := files.Do(Remove(gid, ChainFile));
      ignored := files.Do(Remove(gid, CertFile));
      ignored := files.Do(RemoveDir(gid));
    }

    method Switch(gid: Gid) returns (ok: bool)
      modifies files
      ensures (files.View(), ok) == SwitchCurrent(old(files.View()), gid)
    {
      ok := files.Do(PutCurrent(gid));
      if ok { ok := files.Do(SyncDir); }
    }

    method RemoveWhole(gid: Gid)
      modifies files
      ensures files.View() == RemoveGeneration(old(files.View()), gid)
    {
      var ignored := files.Do(Remove(gid, ManifestFile));
      ignored := files.Do(Remove(gid, ChainFile));
      ignored := files.Do(Remove(gid, CertFile));
      ignored := files.Do(RemoveTmp(gid, ManifestFile));
      ignored := files.Do(RemoveTmp(gid, ChainFile));
      ignored := files.Do(RemoveTmp(gid, CertFile));
      ignored := files.Do(RemoveDir(gid));
    }

    /** Walk the directory listing and remove all but the two generations to keep; CURRENT and
        the kept ones are untouched however the walk ends. */
    method Cleanup(names: seq<Gid>, keepA: Gid, keepB: Gid)
      modifies files
      ensures files.View() == CleanupOrphans(old(files.View()), names, keepA, keepB)
      ensures files.current == old(files.current)
      ensures SameDir(old(files.View().img), files.View().img, keepA)
      ensures SameDir(old(files.View().img), files.View().img, keepB)
    {
      ghost var start := files.View();
      CleanupKeeps(start, names, keepA, keepB);
      var i := 0;
      while i < |names|
        invariant 0 <= i <= |names|
        invariant CleanupOrphans(files.View(), names[i..], keepA, keepB) == CleanupOrphans(start, names, keepA, keepB)
      {
        assert names[i..][0] == names[i] && names[i..][1..] == names[i + 1..];
        if names[i] != keepA && names[i] != keepB && names[i] in files.dirs {
          RemoveWhole(names[i]);
        }
        i := i + 1;
      }
    }

    /** Follow the predecessor links from `start` to the first whole generation. */
    method FollowBack(start: Gid) returns (g: Option<Generation>)
      requires !WalkBack(files.View().img, start, {}).Endless?
      ensures WalkBack(files.View().img, start, {}) == if g.Some? then Found(g.value) else Exhausted
    {
      ghost var img := files.View().img;
      var prev := start;
      ghost var seen: set<Gid> := {};
      while prev != ""
        invariant WalkBack(img, prev, seen) == WalkBack(img, start, {})
        decreases if prev == "" then 0 else 1, files.dirs.Keys - seen
      {
        g := Load(prev);
        if g.Some? { return; }
        seen := seen + {prev};
        prev := if prev in files.dirs && files.dirs[prev].manifest.Some?
                then files.dirs[prev].manifest.value.previous else "";
      }
      g := None;
    }

    /** Any disk on which the source's walk ends (`WalkEndlessExactly`); on a disk only crashes
        have touched, the value of the register is adopted. */
    method OpenAndRecover(names: seq<Gid>) returns (ok: bool)
      requires WalkEnds(files.View().img)
      modifies this, files
      ensures (View(), ok) == CertificateFiles.OpenAndRecover(old(files.View()), names)
      ensures old(DiskSound(files.View().img)) ==>
        Sound(View()) && Value(files.View().img) == old(Value(files.View().img))
        && (ok ==> currentGeneration == Value(files.View().img))
    {
      ghost var start := files.View();
      ok := OpenSteps(names);
      if DiskSound(start.img) { OpenYieldsValue(start, names); }
    }

    method OpenSteps(names: seq<Gid>) returns (ok: bool)
      requires WalkEnds(files.View().img)
      modifies this, files
      ensures (View(), ok) == CertificateFiles.OpenAndRecover(old(files.View()), names)
    {
      hide CleanupOrphans, LoadGeneration, WalkBack, SameDir, Step;
      StepTouches(files.View(), MakeRoot);
      currentGeneration, recovered := None, false;
      ok := files.Do(MakeRoot);
      if !ok { return; }
      if files.current.None? {
        Cleanup(names, "", "");
        recovered := true;
        return true;
      }
      var gid := files.current.value;
      var found := Load(gid);
      if found.None? {
        var prev := if gid in files.dirs && files.dirs[gid].manifest.Some?
                    then files.dirs[gid].manifest.value.previous else "";
        found := FollowBack(prev);
      }
      if found.Some? {
        currentGeneration := found;
        Cleanup(names, found.value.gid, found.value.previous);
        recovered := true;
        return true;
      }
      Cleanup(names, "", "");
      ok := false;
    }

    method Commit(c: CommitData, gid: Gid, names: seq<Gid>) returns (rc: Code)
      requires Sound(View()) && files.alive && gid != "" && gid !in files.dirs
      modifies this, files
      ensures (View(), rc) == CertificateFiles.Commit(old(View()), c, gid, names)
      ensures Sound(View())
      ensures Value(files.View().img) == old(Value(files.View().img))
        || (Publishable(c) && Publishes(Value(files.View().img), c, gid, old(currentGeneration)))
      ensures rc == Success ==> Publishable(c) && Value(files.View().img) == currentGeneration
      ensures rc == Success ==> Publishes(currentGeneration, c, gid, old(currentGeneration))
      ensures rc != Success ==> currentGeneration == old(currentGeneration)
    {
      CommitIsAtomic(View(), c, gid, names);
      rc := CommitSteps(c, gid, names);
    }

    method CommitSteps(c: CommitData, gid: Gid, names: seq<Gid>) returns (rc: Code)
      modifies this, files
      ensures (View(), rc) == CertificateFiles.Commit(old(View()), c, gid, names)
    {
      hide CleanupOrphans, WriteGeneration, SwitchCurrent, DropCandidate, LoadGeneration;
      if !recovered { return StorageCorruption; }
      if c.chain == "" { return InvalidParameter; }
      if c.cert.None? { return InvalidParameter; }
      var previous := if currentGeneration.Some? then currentGeneration.value.gid else "";
      var g := Generation(gid, previous, c.version, c.state, c.chain, c.cert.value);
      var ok := Write(g);
      if !ok {
        Drop(gid);
        return StorageWriteFailed;
      }
      var check := Load(gid);
      if check.None? { return StorageWriteFailed; }
      ok := Switch(gid);
      if !ok { return StorageWriteFailed; }
      currentGeneration := Some(g);
      Cleanup(names, g.gid, g.previous);
      rc := Success;
    }
  }
}

/** Whole runs of the certificate store, and what it does outside the crash-only world. */
module CertificateRuns {
  import opened Wrappers
  import opened CertificateFiles
  import opened CertificateRegister

  // ---- when nothing fails ----

  ghost predicate Healthy(fs: Fs) { fs.alive && fs.script == [] }

  lemma HealthyRemove(fs: Fs, gid: Gid)
    requires Healthy(fs) && gid in fs.img.dirs
    ensures RemoveGeneration(fs, gid) == Fs(Image(fs.img.current, fs.img.dirs - {gid}), true, [])
  {
    var fs1 := Step(fs, Remove(gid, ManifestFile)).0;
    var fs2 := Step(fs1, Remove(gid, ChainFile)).0;
    var fs3 := Step(fs2, Remove(gid, CertFile)).0;
    var fs4 := Step(fs3, RemoveTmp(gid, ManifestFile)).0;
    var fs5 := Step(fs4, RemoveTmp(gid, ChainFile)).0;
    var fs6 := Step(fs5, RemoveTmp(gid, CertFile)).0;
    var d := fs.img.dirs[gid];
    assert fs3.img.dirs[gid] == Dir(None, None, None, d.tmps);
    assert fs6.img.dirs[gid].tmps == d.tmps - {ManifestFile} - {ChainFile} - {CertFile};
    forall f | f in d.tmps ensures f in {ManifestFile} + {ChainFile} + {CertFile} {
      match f case ManifestFile => case ChainFile => case CertFile =>
    }
    assert fs6.img.dirs[gid].tmps == {};
    assert fs6.img.dirs - {gid} == fs.img.dirs - {gid};
  }

  function Listed(names: seq<Gid>, keepA: Gid, keepB: Gid): set<Gid> {
    set n | n in names && n != keepA && n != keepB
  }

  lemma HealthyCleanup(fs: Fs, names: seq<Gid>, keepA: Gid, keepB: Gid)
    requires Healthy(fs)
    ensures var t := CleanupOrphans(fs, names, keepA, keepB);
            Healthy(t) && t.img == Image(fs.img.current, fs.img.dirs - Listed(names, keepA, keepB))
    decreases |names|
  {
    if names == [] {
      assert fs.img.dirs - Listed(names, keepA, keepB) == fs.img.dirs;
    } else {
      var n := names[0];
      var keep := n == keepA || n == keepB || n !in fs.img.dirs;
      if !keep { HealthyRemove(fs, n); }
      var fs1 := if keep then fs else RemoveGeneration(fs, n);
      hide RemoveGeneration;
      HealthyCleanup(fs1, names[1..], keepA, keepB);
      assert forall g :: g in names <==> g == n || g in names[1..];
      assert fs1.img.dirs - Listed(names[1..], keepA, keepB) == fs.img.dirs - Listed(names, keepA, keepB);
    }
  }

  /** After an undisturbed opening of a crash-only disk only CURRENT's generation and its
      predecessor are left. */
  lemma OpeningLeavesNoOrphans(fs: Fs, names: seq<Gid>)
    requires Healthy(fs) && DiskSound(fs.img) && forall g :: g in fs.img.dirs ==> g in names
    ensures var t := OpenAndRecover(fs, names).0;
            && t.mem == Value(fs.img)
            && t.fs.img.dirs.Keys == (if t.mem.None? then {}
               else fs.img.dirs.Keys * {t.mem.value.gid, t.mem.value.previous})
  {
    OpenYieldsValue(fs, names);
    var v := Value(fs.img);
    if v.Some? {
      HealthyCleanup(fs, names, v.value.gid, v.value.previous);
    } else {
      HealthyCleanup(fs, names, "", "");
    }
    hide CleanupOrphans;
  }

  lemma HealthyWrite(fs: Fs, g: Generation)
    requires Healthy(fs)
    ensures WriteGeneration(fs, g).1 && Healthy(WriteGeneration(fs, g).0)
  {
    var fs1 := Step(fs, MakeDir(g.gid)).0;
    assert Healthy(fs1) && g.gid in fs1.img.dirs;
    var fs2 := Step(fs1, Put(g.gid, ChainText(g.chain))).0;
    assert Healthy(fs2) && g.gid in fs2.img.dirs;
    var fs3 := Step(fs2, Put(g.gid, CertText(g.cert))).0;
    assert Healthy(fs3) && g.gid in fs3.img.dirs;
  }

  /** When nothing fails, a commit succeeds exactly on a recovered store with a nonempty
      chain and a certificate record that is a JSON object. */
  lemma HealthyCommitSucceeds(s: Store, c: CommitData, gid: Gid, names: seq<Gid>)
    requires Healthy(s.fs)
    ensures Commit(s, c, gid, names).1 == Success <==> s.recovered && Publishable(c)
  {
    if s.recovered && c.chain != "" && c.cert.Some? {
      var g := CandidateOf(c, gid, s.mem);
      HealthyWrite(s.fs, g);
      WrittenReadsBack(s.fs, g);
      hide WriteGeneration, DropCandidate, CleanupOrphans;
    }
  }

  /** After an undisturbed commit only the new generation and the one it replaces are left. */
  lemma CommitLeavesNoOrphans(s: Store, c: CommitData, gid: Gid, names: seq<Gid>)
    requires Healthy(s.fs) && Commit(s, c, gid, names).1 == Success
    requires gid in names && forall g :: g in s.fs.img.dirs ==> g in names
    ensures var t := Commit(s, c, gid, names).0;
            && t.mem.Some? && t.fs.img.current == Some(gid)
            && forall g :: g in t.fs.img.dirs ==> g == gid || g == t.mem.value.previous
  {
    var g := CandidateOf(c, gid, s.mem);
    HealthyWrite(s.fs, g);
    WriteTouches(s.fs, g);
    var fs1 := WriteGeneration(s.fs, g).0;
    HealthySwitch(fs1, gid);
    var fs2 := SwitchCurrent(fs1, gid).0;
    hide WriteGeneration, DropCandidate, SwitchCurrent, CleanupOrphans, LoadGeneration;
    HealthyCleanup(fs2, names, g.gid, g.previous);
    assert forall h :: h in fs2.img.dirs ==> h == gid || SameDir(s.fs.img, fs1.img, h);
  }

  lemma HealthySwitch(fs: Fs, gid: Gid)
    requires Healthy(fs)
    ensures SwitchCurrent(fs, gid) == (fs.(img := fs.img.(current := Some(gid))), true)
  {
  }

  lemma DropRemoves(fs: Fs, gid: Gid)
    requires Healthy(fs) && gid in fs.img.dirs && fs.img.dirs[gid].tmps == {}
    ensures DropCandidate(fs, gid) == Fs(Image(fs.img.current, fs.img.dirs - {gid}), true, [])
  {
    var fs1 := Step(fs, Remove(gid, ManifestFile)).0;
    var fs2 := Step(fs1, Remove(gid, ChainFile)).0;
    var fs3 := Step(fs2, Remove(gid, CertFile)).0;
    assert fs3.img.dirs[gid] == EMPTY_DIR;
    assert fs3.img.dirs - {gid} == fs.img.dirs - {gid};
  }

  lemma DropNothing(fs: Fs, gid: Gid)
    requires Healthy(fs) && gid !in fs.img.dirs
    ensures DropCandidate(fs, gid) == fs
  {
  }

  /** A commit whose write fails in one of its five steps, all others being done and no temporary
      file left, takes its candidate back: the disk is as it was. */
  lemma FailedWriteLeavesNothing(s: Store, c: CommitData, gid: Gid, names: seq<Gid>, k: nat)
    requires s.recovered && c.chain != "" && c.cert.Some? && gid !in s.fs.img.dirs && k < 5
    requires s.fs.alive && s.fs.script == seq(k, _ => Done) + [Failed(false)]
    ensures var (t, rc) := Commit(s, c, gid, names);
            rc == StorageWriteFailed && t.fs.img == s.fs.img && t.mem == s.mem && t.fs.alive
  {
    hide WriteGeneration, LoadGeneration, SwitchCurrent, CleanupOrphans, DropCandidate, Step;
    var g := CandidateOf(c, gid, s.mem);
    var fs1, ok := FailingWrite(s.fs, g, k);
    if gid in fs1.img.dirs {
      DropRemoves(fs1, gid);
    } else {
      DropNothing(fs1, gid);
    }
  }

  /** The disk with a candidate begun: its directory without a temporary file, all else as before. */
  ghost predicate Begun(before: Image, after: Image, gid: Gid) {
    && after.current == before.current && gid in after.dirs && after.dirs - {gid} == before.dirs
    && after.dirs[gid].tmps == {}
  }

  ghost predicate FailsIn(fs: Fs, k: nat) { fs.alive && fs.script == seq(k, _ => Done) + [Failed(false)] }

  /** One step of the write on the way to the failing one, or that one. */
  lemma OneOfWrite(img: Image, fs: Fs, gid: Gid, content: Content, k: nat)
    requires Begun(img, fs.img, gid) && FailsIn(fs, k)
    ensures var (t, ok) := Step(fs, Put(gid, content));
            && Begun(img, t.img, gid) && ok == (k > 0)
            && (if k > 0 then FailsIn(t, k - 1) else Healthy(t))
  {
    if k > 0 {
      assert fs.script[0] == Done && fs.script[1..] == seq(k - 1, _ => Done) + [Failed(false)];
    } else {
      assert fs.script == [Failed(false)];
    }
  }

  lemma FirstOfWrite(fs: Fs, gid: Gid, k: nat)
    requires FailsIn(fs, k) && gid !in fs.img.dirs
    ensures var (t, ok) := Step(fs, MakeDir(gid));
            && ok == (k > 0)
            && (if k > 0 then FailsIn(t, k - 1) && Begun(fs.img, t.img, gid) else Healthy(t) && t.img == fs.img)
  {
    if k > 0 {
      assert fs.script[0] == Done && fs.script[1..] == seq(k - 1, _ => Done) + [Failed(false)];
    } else {
      assert fs.script == [Failed(false)];
    }
  }

  lemma LastOfWrite(img: Image, fs: Fs, gid: Gid)
    requires Begun(img, fs.img, gid) && FailsIn(fs, 0)
    ensures var (t, ok) := Step(fs, SyncDir); Begun(img, t.img, gid) && !ok && Healthy(t)
  {
    assert fs.script == [Failed(false)];
  }

  /** The write that fails in step `k`: its directory, if made, has no temporary file. */
  lemma FailingWrite(fs: Fs, g: Generation, k: nat) returns (fs1: Fs, ok: bool)
    requires FailsIn(fs, k) && g.gid !in fs.img.dirs && k < 5
    ensures (fs1, ok) == WriteGeneration(fs, g) && !ok && Healthy(fs1)
    ensures if k == 0 then fs1.img == fs.img else Begun(fs.img, fs1.img, g.gid)
  {
    hide Step, Begun, FailsIn, Healthy;
    fs1, ok := WriteGeneration(fs, g).0, WriteGeneration(fs, g).1;
    var t1 := Step(fs, MakeDir(g.gid)).0;
    FirstOfWrite(fs, g.gid, k);
    if k > 0 {
      var t2 := Step(t1, Put(g.gid, ChainText(g.chain))).0;
      OneOfWrite(fs.img, t1, g.gid, ChainText(g.chain), k - 1);
      if k > 1 {
        var t3 := Step(t2, Put(g.gid, CertText(g.cert))).0;
        OneOfWrite(fs.img, t2, g.gid, CertText(g.cert), k - 2);
        if k > 2 {
          var t4 := Step(t3, Put(g.gid, ManifestText(ManifestOf(g)))).0;
          OneOfWrite(fs.img, t3, g.gid, ManifestText(ManifestOf(g)), k - 3);
          if k > 3 { LastOfWrite(fs.img, t4, g.gid); }
        }
      }
    }
  }

  // ---- a failed commit may have switched ----

  lemma OldValueIsOther(s: Store, gid: Gid)
    requires gid !in s.fs.img.dirs
    ensures Value(s.fs.img).Some? ==> Value(s.fs.img).value.gid != gid
  {
  }

  /** The next `n` steps of a live disk all get done. */
  ghost predicate AllDone(fs: Fs, n: nat) {
    forall i :: 0 <= i < n && i < |fs.script| ==> fs.script[i] == Done
  }

  function Later(fs: Fs, n: nat): seq<Outcome> { if n <= |fs.script| then fs.script[n..] else [] }

  /** One possible step: it succeeds exactly when its outcome is Done. */
  lemma StepDone(fs: Fs, ch: Change)
    requires fs.alive && Possible(fs.img, ch)
    ensures var (t, ok) := Step(fs, ch);
            && (ok <==> AllDone(fs, 1)) && t.script == Later(fs, 1)
            && (ok ==> t.alive && t.img == Apply(fs.img, ch))
  {
  }

  lemma OneMoreDone(fs: Fs, t: Fs, n: nat)
    requires t.script == Later(fs, 1) && AllDone(fs, 1)
    ensures AllDone(fs, n + 1) <==> AllDone(t, n)
    ensures Later(t, n) == Later(fs, n + 1)
  {
    forall i | 0 <= i < n && i < |t.script| ensures t.script[i] == fs.script[i + 1] {}
    if AllDone(t, n) {
      forall i | 0 <= i < n + 1 && i < |fs.script| ensures fs.script[i] == Done {
        if i > 0 { assert t.script[i - 1] == fs.script[i]; }
      }
    }
  }

  lemma NotDone(fs: Fs, n: nat)
    requires n >= 1 && !AllDone(fs, 1)
    ensures !AllDone(fs, n)
  {
  }

  /** A candidate is written exactly when its five steps get done. */
  lemma WritesExactly(fs: Fs, g: Generation)
    requires fs.alive
    ensures var (t, ok) := WriteGeneration(fs, g);
            (ok <==> AllDone(fs, 5)) && (ok ==> t.alive && t.script == Later(fs, 5))
  {
    hide Step, AllDone, Later;
    var (fs1, ok1) := Step(fs, MakeDir(g.gid));
    StepDone(fs, MakeDir(g.gid));
    if !ok1 { NotDone(fs, 5); } else {
      OneMoreDone(fs, fs1, 4);
      var (fs2, ok2) := Step(fs1, Put(g.gid, ChainText(g.chain)));
      StepDone(fs1, Put(g.gid, ChainText(g.chain)));
      if !ok2 { NotDone(fs1, 4); } else {
        OneMoreDone(fs1, fs2, 3);
        var (fs3, ok3) := Step(fs2, Put(g.gid, CertText(g.cert)));
        StepDone(fs2, Put(g.gid, CertText(g.cert)));
        if !ok3 { NotDone(fs2, 3); } else {
          OneMoreDone(fs2, fs3, 2);
          var (fs4, ok4) := Step(fs3, Put(g.gid, ManifestText(ManifestOf(g))));
          StepDone(fs3, Put(g.gid, ManifestText(ManifestOf(g))));
          if !ok4 { NotDone(fs3, 2); } else {
            OneMoreDone(fs3, fs4, 1);
            StepDone(fs4, SyncDir);
          }
        }
      }
    }
  }

  /** What a switch that fails on a live disk has done: everything, exactly when the rename
      got done and the sync failed. */
  lemma SwitchFailsExactly(fs: Fs, gid: Gid)
    requires fs.alive
    ensures var (t, ok) := SwitchCurrent(fs, gid);
            !ok && t.alive ==>
              t.img == if AllDone(fs, 1) then fs.img.(current := Some(gid)) else fs.img
    ensures var (t, ok) := SwitchCurrent(fs, gid);
            !ok && t.alive && AllDone(fs, 1) ==> |fs.script| >= 2 && fs.script[1].Failed?
    ensures var (t, ok) := SwitchCurrent(fs, gid);
            ok ==> AllDone(fs, 2)
  {
  }

  /** The sync after the rename is the one to fail. */
  ghost predicate RootSyncFails(fs: Fs) { AllDone(fs, 6) && |fs.script| > 6 && fs.script[6].Failed? }

  lemma SyncFailsLater(fs: Fs, t: Fs)
    requires AllDone(fs, 5) && t.script == Later(fs, 5)
    ensures RootSyncFails(fs) <==> AllDone(t, 1) && |t.script| >= 2 && t.script[1].Failed?
  {
    assert |fs.script| > 5 ==> t.script[0] == fs.script[5];
    assert |fs.script| > 6 ==> t.script[1] == fs.script[6];
  }

  /** Exactly when a commit that did not answer SUCCESS, with the power still on, has moved the
      register all the same: when it had something to publish, its first six steps were done
      and the seventh, the sync of the root directory, failed. Then the register holds the
      whole new generation while the process goes on serving the old one. */
  lemma FailedCommitSwitchesExactly(s: Store, c: CommitData, gid: Gid, names: seq<Gid>)
    requires Sound(s) && s.fs.alive && gid != "" && gid !in s.fs.img.dirs
    requires var (t, rc) := Commit(s, c, gid, names); rc != Success && t.fs.alive
    ensures var t := Commit(s, c, gid, names).0;
            && (Value(t.fs.img) != Value(s.fs.img) <==> s.recovered && Publishable(c) && RootSyncFails(s.fs))
            && (Value(t.fs.img) != Value(s.fs.img) ==>
                  Publishes(Value(t.fs.img), c, gid, s.mem) && t.mem == s.mem)
  {
    CommitIsAtomic(s, c, gid, names);
    OldValueIsOther(s, gid);
    if s.recovered && c.chain != "" && c.cert.Some? {
      var g := CandidateOf(c, gid, s.mem);
      var (fs1, written) := WriteGeneration(s.fs, g);
      WriteTouches(s.fs, g);
      WritesExactly(s.fs, g);
      TouchedSound(s.fs.img, fs1.img, gid);
      if !written {
        UnwrittenKeeps(s, fs1, gid);
        FewerDone(s.fs);
      } else {
        WrittenReadsBack(s.fs, g);
        SwitchFailsExactly(fs1, gid);
        SyncFailsLater(s.fs, fs1);
        if LoadGeneration(fs1.img, gid).Some? { SwitchedSound(fs1.img, g); }
      }
      hide WriteGeneration, DropCandidate, CleanupOrphans, SwitchCurrent, LoadGeneration, DiskSound, AllDone,
           RootSyncFails;
    }
  }

  lemma UnwrittenKeeps(s: Store, fs1: Fs, gid: Gid)
    requires DiskSound(s.fs.img) && OnlyTouches(s.fs.img, fs1.img, gid) && gid != "" && gid !in s.fs.img.dirs
    ensures Value(DropCandidate(fs1, gid).img) == Value(s.fs.img)
  {
    DropTouches(fs1, gid);
    TouchesTwice(s.fs.img, fs1.img, DropCandidate(fs1, gid).img, gid);
    TouchedSound(s.fs.img, DropCandidate(fs1, gid).img, gid);
  }

  lemma FewerDone(fs: Fs)
    ensures RootSyncFails(fs) ==> AllDone(fs, 5)
  {
  }

  lemma SyncFailureStaysLive(fs: Fs, gid: Gid)
    requires fs.alive && AllDone(fs, 1) && |fs.script| >= 2 && fs.script[1].Failed?
    ensures var (t, ok) := SwitchCurrent(fs, gid); !ok && t.alive
  {
  }

  /** Every failing sync of the root directory after the rename: the call answers
      STORAGE_WRITE_FAILED and the process keeps serving the old generation, while the disk,
      and so the next start, has the new one. */
  lemma FailedCommitMayHaveSwitched(s: Store, c: CommitData, gid: Gid, names: seq<Gid>, later: seq<Gid>)
    requires Sound(s) && s.fs.alive && s.recovered && Publishable(c) && gid != "" && gid !in s.fs.img.dirs
    requires RootSyncFails(s.fs)
    ensures var (t, rc) := Commit(s, c, gid, names);
            && rc == StorageWriteFailed && t.fs.alive && t.mem == s.mem
            && Publishes(Value(t.fs.img), c, gid, s.mem) && Value(t.fs.img) != Value(s.fs.img)
            && Publishes(OpenAndRecover(t.fs.(script := []), later).0.mem, c, gid, s.mem)
  {
    var g := CandidateOf(c, gid, s.mem);
    var fs1 := WriteGeneration(s.fs, g).0;
    FewerDone(s.fs);
    WritesExactly(s.fs, g);
    WrittenReadsBack(s.fs, g);
    SyncFailsLater(s.fs, fs1);
    SyncFailureStaysLive(fs1, gid);
    hide WriteGeneration, DropCandidate, CleanupOrphans, SwitchCurrent, LoadGeneration, DiskSound, AllDone,
         RootSyncFails, Recover;
    FailedCommitSwitchesExactly(s, c, gid, names);
    CommitIsAtomic(s, c, gid, names);
    OpenYieldsValue(Commit(s, c, gid, names).0.fs.(script := []), later);
  }

  // ---- file corruption ----

  ghost predicate AllListed(img: Image, names: seq<Gid>) { forall g :: g in img.dirs ==> g in names }

  lemma HealthyOpen(fs: Fs, names: seq<Gid>)
    requires Healthy(fs)
    ensures OpenAndRecover(fs, names) == Recover(fs, names)
  {
    assert Step(fs, MakeRoot) == (fs, true);
    hide Recover;
  }

  /** What an undisturbed clean-up of a fully listed directory leaves. */
  lemma CleanupLeaves(fs: Fs, names: seq<Gid>, keepA: Gid, keepB: Gid)
    requires Healthy(fs) && AllListed(fs.img, names)
    ensures var t := CleanupOrphans(fs, names, keepA, keepB);
            && Healthy(t) && t.img.current == fs.img.current
            && t.img.dirs.Keys == fs.img.dirs.Keys * {keepA, keepB}
            && SameDir(fs.img, t.img, keepA) && SameDir(fs.img, t.img, keepB)
            && AllListed(t.img, names)
            && forall others :: AllListed(fs.img, others) ==> AllListed(t.img, others)
  {
    HealthyCleanup(fs, names, keepA, keepB);
    hide CleanupOrphans;
  }

  lemma WalkFindsWhole(img: Image, prev: Gid, seen: set<Gid>)
    requires WalkBack(img, prev, seen).Found?
    ensures var g := WalkBack(img, prev, seen).g; LoadGeneration(img, g.gid) == Some(g) && prev != ""
    decreases img.dirs.Keys - seen
  {
    hide LoadGeneration;
    if LoadGeneration(img, prev).None? {
      WalkFindsWhole(img, PreviousOf(img, prev), seen + {prev});
    } else {
      LoadedName(img, prev);
    }
  }

  lemma LoadedName(img: Image, gid: Gid)
    requires Whole(img, gid)
    ensures LoadGeneration(img, gid).value.gid == gid && gid in img.dirs
    ensures LoadGeneration(img, gid).value.previous == PreviousOf(img, gid)
  {
  }

  // ---- when the walk ends ----

  /** The generation `n` predecessor links from `prev`. */
  function Follow(img: Image, prev: Gid, n: nat): Gid {
    if n == 0 then prev else PreviousOf(img, Follow(img, prev, n - 1))
  }

  /** The walk of the source goes on past the generation `gid`. */
  ghost predicate GoesOn(img: Image, gid: Gid) { gid != "" && !Whole(img, gid) }

  /** No number of links leads from `prev` to either exit of the loop. */
  ghost predicate NeverLeaves(img: Image, prev: Gid) { forall n: nat :: GoesOn(img, Follow(img, prev, n)) }

  /** The loop over predecessor links goes on for ever if and only if no number of links leads to
      "" or to a whole generation. */
  lemma WalkEndlessExactly(img: Image, prev: Gid)
    ensures WalkBack(img, prev, {}).Endless? <==> NeverLeaves(img, prev)
  {
    hide WalkBack, GoesOn;
    if WalkBack(img, prev, {}).Endless? {
      var i, m := EndlessRepeats(img, prev, {}, 0);
      forall n: nat ensures GoesOn(img, Follow(img, prev, n)) { var j := RepeatBounds(img, prev, i, m, n); }
    }
    hide NeverLeaves;
    if NeverLeaves(img, prev) { GoingOnIsEndless(img, prev, {}); }
  }

  lemma FollowShift(img: Image, prev: Gid, n: nat)
    ensures Follow(img, PreviousOf(img, prev), n) == Follow(img, prev, n + 1)
  {
    if n > 0 { FollowShift(img, prev, n - 1); }
  }

  lemma {:induction false} GoingOnIsEndless(img: Image, prev: Gid, seen: set<Gid>)
    requires NeverLeaves(img, prev)
    ensures WalkBack(img, prev, seen).Endless?
    decreases img.dirs.Keys - seen
  {
    assert GoesOn(img, Follow(img, prev, 0)) && GoesOn(img, Follow(img, prev, 1));
    hide LoadGeneration;
    if prev !in seen {
      forall n: nat ensures GoesOn(img, Follow(img, PreviousOf(img, prev), n)) { FollowShift(img, prev, n); }
      GoingOnIsEndless(img, PreviousOf(img, prev), seen + {prev});
    }
  }

  ghost predicate Passed(img: Image, start: Gid, k: nat, g: Gid) {
    exists j: nat :: j < k && Follow(img, start, j) == g
  }

  /** An endless walk that has followed `k` links comes back to a generation it has passed. */
  lemma {:induction false} EndlessRepeats(img: Image, start: Gid, seen: set<Gid>, k: nat) returns (i: nat, m: nat)
    requires WalkBack(img, Follow(img, start, k), seen).Endless?
    requires forall j: nat :: j < k ==> GoesOn(img, Follow(img, start, j))
    requires forall g :: g in seen ==> Passed(img, start, k, g)
    ensures i < m && Follow(img, start, i) == Follow(img, start, m)
    ensures forall j: nat :: j < m ==> GoesOn(img, Follow(img, start, j))
    decreases img.dirs.Keys - seen
  {
    hide LoadGeneration;
    var prev := Follow(img, start, k);
    if prev in seen {
      m := k;
      i :| i < k && Follow(img, start, i) == prev;
    } else {
      forall g | g in seen + {prev} ensures Passed(img, start, k + 1, g) {
        assert g == prev || Passed(img, start, k, g);
      }
      i, m := EndlessRepeats(img, start, seen + {prev}, k + 1);
    }
  }

  lemma {:induction false} RepeatBounds(img: Image, start: Gid, i: nat, m: nat, n: nat) returns (j: nat)
    requires i < m && Follow(img, start, i) == Follow(img, start, m)
    ensures j < m && Follow(img, start, n) == Follow(img, start, j)
  {
    j := 0;
    if n > 0 {
      var k := RepeatBounds(img, start, i, m, n - 1);
      j := if k + 1 == m then i else k + 1;
    }
  }

  /** The walk goes on past the first `n` generations on the links from `prev`. */
  ghost predicate PassesBy(img: Image, prev: Gid, n: nat) {
    forall j: nat :: j < n ==> GoesOn(img, Follow(img, prev, j))
  }

  lemma PassesByOneMore(img: Image, prev: Gid, n: nat)
    requires GoesOn(img, prev)
    ensures PassesBy(img, prev, n + 1) <==> PassesBy(img, PreviousOf(img, prev), n)
  {
    hide GoesOn, PreviousOf;
    if PassesBy(img, prev, n + 1) {
      forall j: nat | j < n ensures GoesOn(img, Follow(img, PreviousOf(img, prev), j)) { FollowShift(img, prev, j); }
    }
    if PassesBy(img, PreviousOf(img, prev), n) {
      forall j: nat | j < n + 1 ensures GoesOn(img, Follow(img, prev, j)) {
        if j > 0 { FollowShift(img, prev, j - 1); }
      }
    }
  }

  /** Where a walk that ends has got to: the first generation on the links that is whole, or the
      end of the links without one. */
  lemma {:induction false} WalkEndsAt(img: Image, prev: Gid, seen: set<Gid>) returns (n: nat)
    requires !WalkBack(img, prev, seen).Endless?
    ensures PassesBy(img, prev, n) && !GoesOn(img, Follow(img, prev, n))
    ensures WalkBack(img, prev, seen) ==
              if Follow(img, prev, n) == "" then Exhausted
              else Found(LoadGeneration(img, Follow(img, prev, n)).value)
    decreases img.dirs.Keys - seen
  {
    hide LoadGeneration;
    n := 0;
    if GoesOn(img, prev) {
      if prev in img.dirs {
        var k := WalkEndsAt(img, PreviousOf(img, prev), seen + {prev});
        FollowShift(img, prev, k);
        PassesByOneMore(img, prev, k);
        n := k + 1;
      } else {
        n := 1;
        assert Follow(img, prev, 1) == PreviousOf(img, Follow(img, prev, 0));
      }
    }
  }

  /** What an undisturbed start serves, whatever has happened to the files, if it returns at all:
      nothing without CURRENT; otherwise the first whole generation on the links from the one
      CURRENT names, itself included, CURRENT left alone; and if there is none it fails. */
  lemma OpenServesExactly(fs: Fs, names: seq<Gid>) returns (n: nat)
    requires Healthy(fs) && WalkEnds(fs.img) && "" !in fs.img.dirs
    ensures var (t, ok) := OpenAndRecover(fs, names);
            && t.fs.img.current == fs.img.current
            && (fs.img.current.None? ==> ok && t.mem == None)
            && (fs.img.current.Some? ==>
                  var last := Follow(fs.img, fs.img.current.value, n);
                  && PassesBy(fs.img, fs.img.current.value, n) && !GoesOn(fs.img, last)
                  && (if last == "" then !ok && t.mem == None
                      else ok && t.mem.Some? && t.mem == LoadGeneration(fs.img, last)))
  {
    hide CleanupOrphans, Step, LoadGeneration, WalkBack, GoesOn, PassesBy;
    HealthyOpen(fs, names);
    n := 0;
    CleanupKeeps(fs, names, "", "");
    if fs.img.current.Some? {
      var gid := fs.img.current.value;
      NothingPassed(fs.img, gid);
      if Whole(fs.img, gid) {
        LoadedName(fs.img, gid);
        var g := LoadGeneration(fs.img, gid).value;
        CleanupKeeps(fs, names, g.gid, g.previous);
      } else {
        n := FallbackServes(fs, names, gid);
      }
    }
  }

  lemma NothingPassed(img: Image, gid: Gid)
    ensures PassesBy(img, gid, 0) && (Whole(img, gid) ==> !GoesOn(img, gid))
  {
  }

  lemma FallbackServes(fs: Fs, names: seq<Gid>, gid: Gid) returns (n: nat)
    requires Healthy(fs) && fs.img.current == Some(gid) && !Whole(fs.img, gid) && "" !in fs.img.dirs
    requires WalkEnds(fs.img)
    ensures var (t, ok) := OpenAndRecover(fs, names);
            var last := Follow(fs.img, gid, n);
            && PassesBy(fs.img, gid, n) && !GoesOn(fs.img, last) && t.fs.img.current == fs.img.current
            && (if last == "" then !ok && t.mem == None
                else ok && t.mem.Some? && t.mem == LoadGeneration(fs.img, last))
  {
    hide CleanupOrphans, Step, LoadGeneration, WalkBack, PassesBy;
    HealthyOpen(fs, names);
    var prev := PreviousOf(fs.img, gid);
    var k := WalkEndsAt(fs.img, prev, {});
    if gid == "" {
      n := 0;
      NothingPassed(fs.img, gid);
      NoGenerationIsEmpty(fs.img);
    } else {
      n := k + 1;
      PassesByOneMore(fs.img, gid, k);
      FollowShift(fs.img, gid, k);
    }
    match WalkBack(fs.img, prev, {})
    case Found(g) => CleanupKeeps(fs, names, g.gid, g.previous);
    case _ => CleanupKeeps(fs, names, "", "");
  }

  lemma NoGenerationIsEmpty(img: Image)
    requires "" !in img.dirs
    ensures PreviousOf(img, "") == "" && WalkBack(img, "", {}) == Exhausted
  {
  }

  /** What a commit answered SUCCESS about is what the next start serves, field by field. */
  lemma SuccessIsServedNext(s: Store, c: CommitData, gid: Gid, names: seq<Gid>, script: seq<Outcome>, later: seq<Gid>)
    requires Sound(s) && s.fs.alive && gid != "" && gid !in s.fs.img.dirs
    requires Commit(s, c, gid, names).1 == Success
    ensures var t := Commit(s, c, gid, names).0;
            var (u, ok) := OpenAndRecover(Fs(t.fs.img, true, script), later);
            Publishes(t.mem, c, gid, s.mem) && (ok ==> Publishes(u.mem, c, gid, s.mem))
  {
    hide Commit, OpenAndRecover, Step;
    CommitIsAtomic(s, c, gid, names);
    OpenYieldsValue(Fs(Commit(s, c, gid, names).0.fs.img, true, script), later);
  }

  // ---- the start after corruption ----

  lemma SelfLinkIsEndless(img: Image, gid: Gid)
    requires !Whole(img, gid) && PreviousOf(img, gid) == gid
    ensures !WalkBack(img, gid, {}).Found?
  {
    if gid in img.dirs && gid != "" { assert !WalkBack(img, gid, {gid}).Found?; }
  }

  /** A start finds CURRENT absent or whole, or nothing to fall back to, or falls back to the
      direct predecessor, which names CURRENT as its own predecessor and so keeps it alive. */
  ghost predicate StartRepeats(img: Image) {
    img.current.None? || Whole(img, img.current.value) ||
    var prev := PreviousOf(img, img.current.value);
    var walk := WalkBack(img, prev, {});
    walk.Exhausted? || (walk.Found? && walk.g.gid == prev && walk.g.previous == img.current.value)
  }

  /** After file corruption of any kind that lets the first start end: the second undisturbed
      start ends too, and it gives the same memory and the same answer if and only if
      `StartRepeats`. Otherwise the first start has fallen back to an earlier generation without
      moving CURRENT, and the second loses every generation, the good one included. */
  lemma FallbackRepeatsExactly(fs: Fs, names: seq<Gid>, later: seq<Gid>)
    requires Healthy(fs) && "" !in fs.img.dirs && AllListed(fs.img, names) && AllListed(fs.img, later)
    requires WalkEnds(fs.img)
    ensures var (first, ok1) := OpenAndRecover(fs, names);
            var (second, ok2) := OpenAndRecover(first.fs, later);
            && WalkEnds(first.fs.img)
            && (second.mem == first.mem && ok2 == ok1 <==> StartRepeats(fs.img))
            && (!StartRepeats(fs.img) ==>
                  ok1 && first.mem.Some? && !ok2 && second.mem == None && second.fs.img.dirs == map[])
  {
    hide Step, CleanupOrphans, LoadGeneration, OpenAndRecover, WalkBack, StartRepeats;
    HealthyOpen(fs, names);
    if fs.img.current.None? {
      NoCurrentRepeats(fs, names, later);
    } else if Whole(fs.img, fs.img.current.value) {
      WholeRepeats(fs, names, later);
    } else if !WalkBack(fs.img, PreviousOf(fs.img, fs.img.current.value), {}).Found? {
      NothingRepeats(fs, names, later);
    } else {
      FoundRepeatsExactly(fs, names, later);
    }
  }

  lemma NoCurrentRepeats(fs: Fs, names: seq<Gid>, later: seq<Gid>)
    requires Healthy(fs) && AllListed(fs.img, names) && fs.img.current.None?
    ensures StartRepeats(fs.img)
    ensures var first := OpenAndRecover(fs, names);
            var second := OpenAndRecover(first.0.fs, later);
            WalkEnds(first.0.fs.img) && second.0.mem == first.0.mem && second.1 == first.1
  {
    hide CleanupOrphans, Step;
    HealthyOpen(fs, names);
    CleanupLeaves(fs, names, "", "");
    HealthyOpen(OpenAndRecover(fs, names).0.fs, later);
  }

  lemma WholeRepeats(fs: Fs, names: seq<Gid>, later: seq<Gid>)
    requires Healthy(fs) && AllListed(fs.img, names)
    requires fs.img.current.Some? && Whole(fs.img, fs.img.current.value)
    ensures StartRepeats(fs.img)
    ensures var first := OpenAndRecover(fs, names);
            var second := OpenAndRecover(first.0.fs, later);
            WalkEnds(first.0.fs.img) && second.0.mem == first.0.mem && second.1 == first.1
  {
    hide CleanupOrphans, Step, LoadGeneration, WalkBack;
    var gid := fs.img.current.value;
    var g := LoadGeneration(fs.img, gid).value;
    LoadedName(fs.img, gid);
    HealthyOpen(fs, names);
    CleanupLeaves(fs, names, g.gid, g.previous);
    var first := OpenAndRecover(fs, names).0;
    SameLoad(fs.img, first.fs.img, gid);
    HealthyOpen(first.fs, later);
  }

  /** A start that cannot load CURRENT and finds no generation to follow removes everything. */
  lemma NothingToFollow(fs: Fs, names: seq<Gid>)
    requires Healthy(fs) && AllListed(fs.img, names) && "" !in fs.img.dirs && fs.img.current.Some?
    requires !Whole(fs.img, fs.img.current.value)
    requires !WalkBack(fs.img, PreviousOf(fs.img, fs.img.current.value), {}).Found?
    ensures var (t, ok) := OpenAndRecover(fs, names);
            !ok && t.mem == None && t.fs.img.dirs == map[] && Healthy(t.fs) && t.fs.img.current == fs.img.current
  {
    hide CleanupOrphans, Step, LoadGeneration, WalkBack;
    HealthyOpen(fs, names);
    CleanupLeaves(fs, names, "", "");
    assert OpenAndRecover(fs, names).0.fs.img.dirs.Keys == {};
  }

  lemma GoneIsNotFollowed(img: Image, gid: Gid)
    requires gid !in img.dirs || PreviousOf(img, gid) !in img.dirs
    requires "" !in img.dirs
    ensures WalkBack(img, PreviousOf(img, gid), {}) == Exhausted
  {
  }

  lemma NothingRepeats(fs: Fs, names: seq<Gid>, later: seq<Gid>)
    requires Healthy(fs) && AllListed(fs.img, names) && "" !in fs.img.dirs && fs.img.current.Some?
    requires !Whole(fs.img, fs.img.current.value)
    requires WalkBack(fs.img, PreviousOf(fs.img, fs.img.current.value), {}).Exhausted?
    ensures StartRepeats(fs.img)
    ensures var first := OpenAndRecover(fs, names);
            var second := OpenAndRecover(first.0.fs, later);
            WalkEnds(first.0.fs.img) && second.0.mem == first.0.mem && second.1 == first.1
  {
    hide CleanupOrphans, Step, WalkBack, OpenAndRecover;
    NothingToFollow(fs, names);
    var first := OpenAndRecover(fs, names).0;
    GoneIsNotFollowed(first.fs.img, fs.img.current.value);
    NothingToFollow(first.fs, later);
  }

  lemma FoundRepeatsExactly(fs: Fs, names: seq<Gid>, later: seq<Gid>)
    requires Healthy(fs) && AllListed(fs.img, names) && AllListed(fs.img, later) && "" !in fs.img.dirs
    requires fs.img.current.Some? && !Whole(fs.img, fs.img.current.value)
    requires WalkBack(fs.img, PreviousOf(fs.img, fs.img.current.value), {}).Found?
    ensures var (first, ok1) := OpenAndRecover(fs, names);
            var (second, ok2) := OpenAndRecover(first.fs, later);
            && ok1 && first.mem.Some? && WalkEnds(first.fs.img)
            && (if StartRepeats(fs.img) then second.mem == first.mem && ok2
                else !ok2 && second.mem == None && second.fs.img.dirs == map[])
  {
    hide CleanupOrphans, Step, LoadGeneration, WalkBack;
    var gid := fs.img.current.value;
    var prev := PreviousOf(fs.img, gid);
    var g := WalkBack(fs.img, prev, {}).g;
    WalkFindsWhole(fs.img, prev, {});
    LoadedName(fs.img, g.gid);
    if prev == gid { SelfLinkIsEndless(fs.img, gid); }
    HealthyOpen(fs, names);
    CleanupLeaves(fs, names, g.gid, g.previous);
    var first := OpenAndRecover(fs, names).0;
    assert first.fs.img.dirs.Keys == fs.img.dirs.Keys * {g.gid, g.previous};
    if g.gid == prev && g.previous == gid {
      SameLoad(fs.img, first.fs.img, gid);
      SameLoad(fs.img, first.fs.img, prev);
      WholeIsFound(first.fs.img, prev);
      HealthyOpen(first.fs, later);
    } else {
      if g.previous == gid { SameLoad(fs.img, first.fs.img, gid); } else { GoneIsNotWhole(first.fs.img, gid); }
      GoneIsNotFollowed(first.fs.img, gid);
      NothingToFollow(first.fs, later);
    }
  }

  lemma WholeIsFound(img: Image, gid: Gid)
    requires Whole(img, gid) && gid != ""
    ensures WalkBack(img, gid, {}) == Found(LoadGeneration(img, gid).value)
  {
  }

  lemma GoneIsNotWhole(img: Image, gid: Gid)
    requires gid !in img.dirs
    ensures !Whole(img, gid)
  {
  }

  // ---- runs ----

  datatype Op =
    | DoCommit(data: CommitData, gid: Gid, names: seq<Gid>, script: seq<Outcome>)
    | DoOpen(names: seq<Gid>, script: seq<Outcome>)

  /** Generation ids are fresh; a start is always possible and powers the device on. */
  ghost predicate Enabled(s: Store, op: Op) {
    op.DoCommit? ==> s.fs.alive && op.gid != "" && op.gid !in s.fs.img.dirs
  }

  function Take(s: Store, op: Op): (r: (Store, Code)) {
    match op
    case DoCommit(c, gid, names, script) => Commit(s.(fs := s.fs.(script := script)), c, gid, names)
    case DoOpen(names, script) =>
      var (t, ok) := OpenAndRecover(Fs(s.fs.img, true, script), names);
      (t, if ok then Success else StorageCorruption)
  }

  ghost predicate Feasible(s: Store, ops: seq<Op>)
    decreases |ops|
  {
    ops == [] || (Enabled(s, ops[0]) && Feasible(Take(s, ops[0]).0, ops[1..]))
  }

  /** The store before operation `i`; after all of them for `i == |ops|`. */
  ghost function At(s: Store, ops: seq<Op>, i: nat): Store
    requires i <= |ops|
    decreases i
  {
    if i == 0 then s else At(Take(s, ops[0]).0, ops[1..], i - 1)
  }

  /** Operation `i` was a commit whose caller saw SUCCESS. */
  ghost predicate Acknowledged(s: Store, ops: seq<Op>, i: nat)
    requires i < |ops|
  {
    ops[i].DoCommit? && Take(At(s, ops, i), ops[i]).1 == Success
  }

  /** What operation `i` tried to publish. */
  ghost predicate Attempted(s: Store, ops: seq<Op>, i: nat, v: Option<Generation>)
    requires i < |ops|
  {
    ops[i].DoCommit? && Publishable(ops[i].data)
    && Publishes(v, ops[i].data, ops[i].gid, At(s, ops, i).mem)
  }

  /** `v` is the value from before the run or what some commit of the run tried to publish,
      and no commit after that one was acknowledged. */
  ghost predicate LastOf(s: Store, ops: seq<Op>, v: Option<Generation>, i: int)
    requires -1 <= i < |ops|
  {
    && (if i < 0 then v == Value(s.fs.img) else Attempted(s, ops, i, v))
    && forall j :: i < j < |ops| ==> !Acknowledged(s, ops, j)
  }

  lemma TakeIsAtomic(s: Store, op: Op)
    requires Sound(s) && Enabled(s, op)
    ensures var (t, rc) := Take(s, op);
            && Sound(t)
            && (op.DoOpen? ==> Value(t.fs.img) == Value(s.fs.img))
            && (op.DoCommit? && Value(t.fs.img) != Value(s.fs.img) ==>
                  Publishable(op.data) && Publishes(Value(t.fs.img), op.data, op.gid, s.mem))
            && (op.DoCommit? && rc == Success ==>
                  Publishable(op.data) && Publishes(Value(t.fs.img), op.data, op.gid, s.mem))
  {
    hide Commit, OpenAndRecover;
    match op
    case DoCommit(c, gid, names, script) => CommitIsAtomic(s.(fs := s.fs.(script := script)), c, gid, names);
    case DoOpen(names, script) => OpenYieldsValue(Fs(s.fs.img, true, script), names);
  }

  /** Over every run of commits and restarts, with any step failing or losing power, the
      register holds the last acknowledged commit or a later attempted one, whole. */
  lemma {:induction false} RegisterHoldsLastCommit(s: Store, ops: seq<Op>) returns (i: int)
    requires Sound(s) && Feasible(s, ops)
    ensures Sound(At(s, ops, |ops|)) && -1 <= i < |ops| && LastOf(s, ops, Value(At(s, ops, |ops|).fs.img), i)
    decreases |ops|
  {
    if ops == [] {
      i := -1;
    } else {
      var (t, rc) := Take(s, ops[0]);
      TakeIsAtomic(s, ops[0]);
      hide Take, Enabled, Sound, Value;
      var k := RegisterHoldsLastCommit(t, ops[1..]);
      var v := Value(At(s, ops, |ops|).fs.img);
      ShiftAt(s, ops, t);
      if k >= 0 {
        i := k + 1;
      } else if (ops[0].DoCommit? && rc == Success) || v != Value(s.fs.img) {
        i := 0;
      } else {
        i := -1;
      }
      forall j | i < j < |ops| ensures !Acknowledged(s, ops, j) {
        if j > 0 { assert !Acknowledged(t, ops[1..], j - 1); }
      }
    }
  }

  lemma ShiftAt(s: Store, ops: seq<Op>, t: Store)
    requires ops != [] && t == Take(s, ops[0]).0
    ensures forall j :: 0 < j <= |ops| ==> At(s, ops, j) == At(t, ops[1..], j - 1)
  {
  }

  const FRESH := Store(Fs(Image(None, map[]), true, []), None, false)

  /** A start after any run serves the last acknowledged commit or a later attempted one;
      nothing else, and never a mixture. */
  lemma StartServesLastCommit(ops: seq<Op>, names: seq<Gid>, script: seq<Outcome>) returns (i: int)
    requires Feasible(FRESH, ops)
    requires Take(At(FRESH, ops, |ops|), DoOpen(names, script)).1 == Success
    ensures -1 <= i < |ops|
    ensures LastOf(FRESH, ops, Take(At(FRESH, ops, |ops|), DoOpen(names, script)).0.mem, i)
  {
    assert Sound(FRESH);
    i := RegisterHoldsLastCommit(FRESH, ops);
    var s := At(FRESH, ops, |ops|);
    hide Feasible, At, LastOf, OpenAndRecover;
    OpenYieldsValue(Fs(s.fs.img, true, script), names);
  }
}

/** The certificate store refines an atomic register: whatever crashes and fails, the value
    CURRENT stands for is one whole committed snapshot. */
module CertificateRegister {
  import opened Wrappers
  import opened CertificateFiles

  /** The register's value. */
  function Value(img: Image): Option<Generation> {
    if img.current.None? then None else LoadGeneration(img, img.current.value)
  }

  ghost predicate Whole(img: Image, gid: Gid) { LoadGeneration(img, gid).Some? }

  /** CURRENT names a whole generation, and so does that generation's predecessor link. */
  ghost predicate DiskSound(img: Image) {
    && "" !in img.dirs
    && (img.current.Some? ==>
          (Whole(img, img.current.value)
           && (Value(img).value.previous == "" || Whole(img, Value(img).value.previous))))
  }

  /** A running process remembers a generation that is whole on the disk. */
  ghost predicate Sound(s: Store) {
    DiskSound(s.fs.img)
    && (s.fs.alive && s.mem.Some? ==> LoadGeneration(s.fs.img, s.mem.value.gid) == s.mem)
  }

  // ---- steps touch one directory ----

  ghost predicate SameDir(a: Image, b: Image, g: Gid) {
    (g in a.dirs <==> g in b.dirs) && (g in a.dirs ==> a.dirs[g] == b.dirs[g])
  }

  ghost predicate OnlyTouches(a: Image, b: Image, gid: Gid) {
    b.current == a.current && forall g :: g != gid ==> SameDir(a, b, g)
  }

  function GidOf(ch: Change): Gid {
    match ch
    case MakeRoot | SyncDir => ""
    case MakeDir(g) => g
    case Put(g, _) => g
    case PutCurrent(g) => g
    case Remove(g, _) => g
    case RemoveTmp(g, _) => g
    case RemoveDir(g) => g
  }

  lemma StepTouches(fs: Fs, ch: Change)
    requires !ch.PutCurrent?
    ensures var (t, ok) := Step(fs, ch); OnlyTouches(fs.img, t.img, GidOf(ch)) && (t.alive ==> fs.alive)
    ensures var (t, ok) := Step(fs, ch);
            ok ==> t.img == Apply(fs.img, ch) && Possible(fs.img, ch) && t.alive && fs.alive
    ensures ch == SyncDir || ch == MakeRoot ==> Step(fs, ch).0.img == fs.img
  {
  }

  lemma SameLoad(a: Image, b: Image, g: Gid)
    requires SameDir(a, b, g)
    ensures LoadGeneration(b, g) == LoadGeneration(a, g)
  {
  }

  lemma TouchesTwice(a: Image, b: Image, c: Image, gid: Gid)
    requires OnlyTouches(a, b, gid) && OnlyTouches(b, c, gid)
    ensures OnlyTouches(a, c, gid)
  {
    forall g | g != gid ensures SameDir(a, c, g) {
      assert SameDir(a, b, g) && SameDir(b, c, g);
    }
  }

  lemma WriteTouches(fs: Fs, g: Generation)
    ensures var (t, ok) := WriteGeneration(fs, g);
            && OnlyTouches(fs.img, t.img, g.gid) && (t.alive ==> fs.alive) && (ok ==> t.alive)
  {
    hide Step, OnlyTouches;
    var (fs1, ok1) := Step(fs, MakeDir(g.gid));
    StepTouches(fs, MakeDir(g.gid));
    if ok1 {
      var (fs2, ok2) := Step(fs1, Put(g.gid, ChainText(g.chain)));
      StepTouches(fs1, Put(g.gid, ChainText(g.chain)));
      TouchesTwice(fs.img, fs1.img, fs2.img, g.gid);
      if ok2 {
        var (fs3, ok3) := Step(fs2, Put(g.gid, CertText(g.cert)));
        StepTouches(fs2, Put(g.gid, CertText(g.cert)));
        TouchesTwice(fs.img, fs2.img, fs3.img, g.gid);
        if ok3 {
          var fs4 := Step(fs3, Put(g.gid, ManifestText(ManifestOf(g)))).0;
          StepTouches(fs3, Put(g.gid, ManifestText(ManifestOf(g))));
          TouchesTwice(fs.img, fs3.img, fs4.img, g.gid);
          StepTouches(fs4, SyncDir);
        }
      }
    }
  }

  /** A candidate that was fully written passes the self-check exactly when it has a chain
      and an object for its certificate record; then it reads back as it was. */
  lemma WrittenReadsBack(fs: Fs, g: Generation)
    requires WriteGeneration(fs, g).1
    ensures LoadGeneration(WriteGeneration(fs, g).0.img, g.gid) ==
            if g.chain != "" && g.cert.Object? then Some(g) else None
  {
    var fs1 := Step(fs, MakeDir(g.gid)).0;
    var fs2 := Step(fs1, Put(g.gid, ChainText(g.chain))).0;
    var fs3 := Step(fs2, Put(g.gid, CertText(g.cert))).0;
    var fs4 := Step(fs3, Put(g.gid, ManifestText(ManifestOf(g)))).0;
    StepTouches(fs, MakeDir(g.gid));
    StepTouches(fs1, Put(g.gid, ChainText(g.chain)));
    StepTouches(fs2, Put(g.gid, CertText(g.cert)));
    StepTouches(fs3, Put(g.gid, ManifestText(ManifestOf(g))));
    StepTouches(fs4, SyncDir);
    hide Step;
  }

  /** Whatever has happened to the files of a generation, if its manifest is the one written for
      `g`, then it loads as `g` or, when the chain or the record is not the one the manifest
      lists, not at all. */
  lemma LoadsAsWrittenExactly(img: Image, g: Generation)
    requires g.gid in img.dirs
    requires img.dirs[g.gid].manifest == Some(Manifest(g.gid, g.previous, g.version, g.state, g.chain, g.cert))
    requires g.chain != "" && g.cert.Object?
    ensures var d := img.dirs[g.gid];
            LoadGeneration(img, g.gid) ==
              if d.chain == Some(g.chain) && d.cert == Some(g.cert) then Some(g) else None
  {
  }

  /** What loads under an id is what some manifest of that id lists, both files included. */
  lemma LoadedIsListed(img: Image, gid: Gid)
    ensures LoadGeneration(img, gid).Some? <==>
      && gid in img.dirs && img.dirs[gid].manifest.Some?
      && var (d, m) := (img.dirs[gid], img.dirs[gid].manifest.value);
         m.gid == gid && m.chain != "" && m.cert.Object? && d.chain == Some(m.chain) && d.cert == Some(m.cert)
    ensures LoadGeneration(img, gid).Some? ==>
      var (g, m) := (LoadGeneration(img, gid).value, img.dirs[gid].manifest.value);
      g == Generation(gid, m.previous, m.version, m.state, m.chain, m.cert)
  {
  }

  lemma StepThenTouches(a: Image, fs: Fs, ch: Change)
    requires OnlyTouches(a, fs.img, GidOf(ch)) && !ch.PutCurrent?
    ensures OnlyTouches(a, Step(fs, ch).0.img, GidOf(ch)) && (Step(fs, ch).0.alive ==> fs.alive)
  {
    StepTouches(fs, ch);
    TouchesTwice(a, fs.img, Step(fs, ch).0.img, GidOf(ch));
  }

  lemma DropTouches(fs: Fs, gid: Gid)
    ensures OnlyTouches(fs.img, DropCandidate(fs, gid).img, gid) && (DropCandidate(fs, gid).alive ==> fs.alive)
  {
    hide Step, OnlyTouches;
    StepTouches(fs, Remove(gid, ManifestFile));
    var fs1 := Step(fs, Remove(gid, ManifestFile)).0;
    StepThenTouches(fs.img, fs1, Remove(gid, ChainFile));
    var fs2 := Step(fs1, Remove(gid, ChainFile)).0;
    StepThenTouches(fs.img, fs2, Remove(gid, CertFile));
    var fs3 := Step(fs2, Remove(gid, CertFile)).0;
    StepThenTouches(fs.img, fs3, RemoveDir(gid));
  }

  lemma RemoveTouches(fs: Fs, gid: Gid)
    ensures OnlyTouches(fs.img, RemoveGeneration(fs, gid).img, gid) && (RemoveGeneration(fs, gid).alive ==> fs.alive)
  {
    hide Step, OnlyTouches;
    StepTouches(fs, Remove(gid, ManifestFile));
    var fs1 := Step(fs, Remove(gid, ManifestFile)).0;
    StepThenTouches(fs.img, fs1, Remove(gid, ChainFile));
    var fs2 := Step(fs1, Remove(gid, ChainFile)).0;
    StepThenTouches(fs.img, fs2, Remove(gid, CertFile));
    var fs3 := Step(fs2, Remove(gid, CertFile)).0;
    StepThenTouches(fs.img, fs3, RemoveTmp(gid, ManifestFile));
    var fs4 := Step(fs3, RemoveTmp(gid, ManifestFile)).0;
    StepThenTouches(fs.img, fs4, RemoveTmp(gid, ChainFile));
    var fs5 := Step(fs4, RemoveTmp(gid, ChainFile)).0;
    StepThenTouches(fs.img, fs5, RemoveTmp(gid, CertFile));
    var fs6 := Step(fs5, RemoveTmp(gid, CertFile)).0;
    StepThenTouches(fs.img, fs6, RemoveDir(gid));
  }

  /** Clean-up keeps CURRENT and the two generations it is told to keep, wherever it fails. */
  lemma CleanupKeeps(fs: Fs, names: seq<Gid>, keepA: Gid, keepB: Gid)
    ensures var t := CleanupOrphans(fs, names, keepA, keepB);
            && t.img.current == fs.img.current
            && SameDir(fs.img, t.img, keepA) && SameDir(fs.img, t.img, keepB)
            && ("" !in fs.img.dirs ==> "" !in t.img.dirs)
            && (t.alive ==> fs.alive)
    decreases |names|
  {
    if names != [] && names[0] != keepA && names[0] != keepB && names[0] in fs.img.dirs {
      var fs1 := RemoveGeneration(fs, names[0]);
      RemoveTouches(fs, names[0]);
      hide RemoveGeneration;
      assert SameDir(fs.img, fs1.img, keepA) && SameDir(fs.img, fs1.img, keepB);
      assert names[0] != "" ==> SameDir(fs.img, fs1.img, "");
      CleanupKeeps(fs1, names[1..], keepA, keepB);
    } else if names != [] {
      CleanupKeeps(fs, names[1..], keepA, keepB);
    }
  }

  lemma CleanupKeepsSound(fs: Fs, names: seq<Gid>, keepA: Gid, keepB: Gid)
    requires DiskSound(fs.img)
    requires fs.img.current.Some? ==> fs.img.current == Some(keepA) && Value(fs.img).value.previous == keepB
    ensures var t := CleanupOrphans(fs, names, keepA, keepB);
            DiskSound(t.img) && Value(t.img) == Value(fs.img)
            && LoadGeneration(t.img, keepA) == LoadGeneration(fs.img, keepA)
  {
    var t := CleanupOrphans(fs, names, keepA, keepB);
    CleanupKeeps(fs, names, keepA, keepB);
    SameLoad(fs.img, t.img, keepA);
    SameLoad(fs.img, t.img, keepB);
  }

  // ---- one call ----

  ghost predicate Publishable(c: CommitData) { c.chain != "" && c.cert.Some? && c.cert.value.Object? }

  /** `v` is what the commit was asked to publish, field by field, with the generation that was
      served before as its predecessor. */
  ghost predicate Publishes(v: Option<Generation>, c: CommitData, gid: Gid, served: Option<Generation>) {
    && v.Some? && v.value.gid == gid && v.value.version == c.version && v.value.state == c.state
    && v.value.chain == c.chain && Some(v.value.cert) == c.cert
    && v.value.previous == (match served case Some(g) => g.gid case None => "")
  }

  lemma TouchedSound(a: Image, b: Image, gid: Gid)
    requires DiskSound(a) && OnlyTouches(a, b, gid) && gid != "" && gid !in a.dirs
    ensures DiskSound(b) && Value(b) == Value(a)
    ensures forall g :: Whole(a, g) ==> LoadGeneration(b, g) == LoadGeneration(a, g)
  {
    forall g | Whole(a, g) ensures LoadGeneration(b, g) == LoadGeneration(a, g) {
      SameLoad(a, b, g);
    }
    assert SameDir(a, b, "");
  }

  lemma SwitchEither(fs: Fs, gid: Gid)
    ensures var (t, ok) := SwitchCurrent(fs, gid);
            && (t.img == fs.img || t.img == fs.img.(current := Some(gid)))
            && (ok ==> t.img == fs.img.(current := Some(gid)) && t.alive)
            && (t.alive ==> fs.alive)
  {
  }

  lemma SwitchedSound(img: Image, g: Generation)
    requires DiskSound(img) && LoadGeneration(img, g.gid) == Some(g)
    requires g.previous == "" || Whole(img, g.previous)
    ensures DiskSound(img.(current := Some(g.gid))) && Value(img.(current := Some(g.gid))) == Some(g)
    ensures forall h :: LoadGeneration(img.(current := Some(g.gid)), h) == LoadGeneration(img, h)
  {
  }

  /** A commit, with any step failing or losing power: the register holds the old value or
      the whole new one, the new one if the call answered SUCCESS; a call that did not leaves
      the process's memory as it was, and one that was refused leaves the disk too. */
  lemma CommitIsAtomic(s: Store, c: CommitData, gid: Gid, names: seq<Gid>)
    requires Sound(s) && s.fs.alive && gid != "" && gid !in s.fs.img.dirs
    ensures var (t, rc) := Commit(s, c, gid, names);
            && Sound(t) && (t.fs.alive ==> s.fs.alive)
            && (Value(t.fs.img) == Value(s.fs.img)
                || (Publishable(c) && Publishes(Value(t.fs.img), c, gid, s.mem)))
            && (rc == Success ==>
                  (s.recovered && Publishable(c) && t.recovered && Publishes(t.mem, c, gid, s.mem)
                   && Value(t.fs.img) == t.mem))
            && (rc != Success ==> t.mem == s.mem && t.recovered == s.recovered)
            && (rc == StorageCorruption <==> !s.recovered)
            && (rc == InvalidParameter <==> s.recovered && (c.chain == "" || c.cert.None?))
            && (rc == InvalidParameter || rc == StorageCorruption ==> t == s)
  {
    if s.recovered && c.chain != "" && c.cert.Some? {
      var g := CandidateOf(c, gid, s.mem);
      var (fs1, written) := WriteGeneration(s.fs, g);
      WriteTouches(s.fs, g);
      TouchedSound(s.fs.img, fs1.img, gid);
      if !written {
        var fs2 := DropCandidate(fs1, gid);
        DropTouches(fs1, gid);
        TouchesTwice(s.fs.img, fs1.img, fs2.img, gid);
        TouchedSound(s.fs.img, fs2.img, gid);
      } else {
        WrittenReadsBack(s.fs, g);
        SwitchingIsAtomic(s, fs1, g, names);
      }
    }
  }

  lemma SwitchingIsAtomic(s: Store, fs1: Fs, g: Generation, names: seq<Gid>)
    requires Sound(s) && s.fs.alive && DiskSound(fs1.img) && Value(fs1.img) == Value(s.fs.img)
    requires s.mem.Some? ==> LoadGeneration(fs1.img, s.mem.value.gid) == s.mem
    requires g.previous == if s.mem.Some? then s.mem.value.gid else ""
    requires LoadGeneration(fs1.img, g.gid).Some? ==> LoadGeneration(fs1.img, g.gid) == Some(g)
    ensures Sound(s.(fs := fs1))
    ensures LoadGeneration(fs1.img, g.gid).Some? ==>
              var (fs2, ok) := SwitchCurrent(fs1, g.gid);
              && Sound(s.(fs := fs2)) && (Value(fs2.img) == Value(s.fs.img) || Value(fs2.img) == Some(g))
              && (ok ==> var fs3 := CleanupOrphans(fs2, names, g.gid, g.previous);
                         Sound(Store(fs3, Some(g), true)) && Value(fs3.img) == Some(g))
  {
    if LoadGeneration(fs1.img, g.gid).Some? {
      SwitchEither(fs1, g.gid);
      SwitchedSound(fs1.img, g);
      var (fs2, ok) := SwitchCurrent(fs1, g.gid);
      hide SwitchCurrent, CleanupOrphans;
      if ok { CleanupKeepsSound(fs2, names, g.gid, g.previous); }
    }
  }

  /** Opening a disk that only crashes have touched: the process adopts exactly the register's
      value, the value stays, and the fallback over predecessor links is never taken. Only a
      failure to create the root makes the call fail. */
  lemma OpenYieldsValue(fs: Fs, names: seq<Gid>)
    requires DiskSound(fs.img)
    ensures var (t, ok) := OpenAndRecover(fs, names);
            && Sound(t) && Value(t.fs.img) == Value(fs.img) && t.fs.img.current == fs.img.current
            && (ok <==> Step(fs, MakeRoot).1) && ok == t.recovered
            && (ok ==> t.mem == Value(fs.img))
  {
    var (fs1, ok1) := Step(fs, MakeRoot);
    StepTouches(fs, MakeRoot);
    hide Step, CleanupOrphans;
    if ok1 {
      var v := Value(fs1.img);
      if v.None? {
        CleanupKeeps(fs1, names, "", "");
      } else {
        CleanupKeepsSound(fs1, names, v.value.gid, v.value.previous);
      }
    }
  }
}

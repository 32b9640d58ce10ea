/** The certificate store on disk: immutable generation directories and one CURRENT pointer.
    A temp-file write with its rename and directory sync is one step. Each step consults a
    script: it is done, it fails (a failed write may leave its temporary file), or the power
    goes just before or just after it. After a power loss nothing changes any more. */
module CertificateFiles {
  import opened Wrappers

  /** A parsed JSON document, told apart only by whether it is an object. */
  datatype Json = Object(text: string) | NotObject(text: string)

  /** "" stands for no generation. */
  type Gid = string

  /** The file list of a manifest holds ideal digests: the contents themselves. */
  datatype Manifest = Manifest(gid: Gid, previous: Gid, version: nat, state: string, chain: string, cert: Json)

  datatype File = ChainFile | CertFile | ManifestFile

  datatype Content = ChainText(chain: string) | CertText(cert: Json) | ManifestText(manifest: Manifest)

  datatype Dir = Dir(chain: Option<string>, cert: Option<Json>, manifest: Option<Manifest>, tmps: set<File>)

  const EMPTY_DIR := Dir(None, None, None, {})

  datatype Image = Image(current: Option<Gid>, dirs: map<Gid, Dir>)

  datatype Outcome = Done | Failed(leavesTmp: bool) | PowerLostBefore | PowerLostAfter

  datatype Fs = Fs(img: Image, alive: bool, script: seq<Outcome>)

  datatype Change =
    | MakeRoot
    | MakeDir(gid: Gid)
    | Put(gid: Gid, content: Content)
    | PutCurrent(gid: Gid)
    | SyncDir
    | Remove(gid: Gid, file: File)
    | RemoveTmp(gid: Gid, file: File)
    | RemoveDir(gid: Gid)

  // ---- one step ----

  function FileOf(c: Content): File {
    match c
    case ChainText(_) => ChainFile
    case CertText(_) => CertFile
    case ManifestText(_) => ManifestFile
  }

  function WithFile(d: Dir, c: Content): Dir {
    var d1 := d.(tmps := d.tmps - {FileOf(c)});
    match c
    case ChainText(chain) => d1.(chain := Some(chain))
    case CertText(cert) => d1.(cert := Some(cert))
    case ManifestText(m) => d1.(manifest := Some(m))
  }

  function WithoutFile(d: Dir, f: File): Dir {
    match f
    case ChainFile => d.(chain := None)
    case CertFile => d.(cert := None)
    case ManifestFile => d.(manifest := None)
  }

  predicate Possible(img: Image, ch: Change) {
    match ch
    case Put(g, _) => g in img.dirs
    case RemoveDir(g) => g in img.dirs && img.dirs[g] == EMPTY_DIR
    case Remove(g, _) => g in img.dirs
    case RemoveTmp(g, _) => g in img.dirs
    case _ => true
  }

  function Apply(img: Image, ch: Change): Image {
    if !Possible(img, ch) then img
    else match ch
      case MakeDir(g) => if g in img.dirs then img else img.(dirs := img.dirs[g := EMPTY_DIR])
      case Put(g, c) => img.(dirs := img.dirs[g := WithFile(img.dirs[g], c)])
      case PutCurrent(g) => img.(current := Some(g))
      case MakeRoot | SyncDir => img
      case Remove(g, f) => img.(dirs := img.dirs[g := WithoutFile(img.dirs[g], f)])
      case RemoveTmp(g, f) => img.(dirs := img.dirs[g := img.dirs[g].(tmps := img.dirs[g].tmps - {f})])
      case RemoveDir(g) => img.(dirs := img.dirs - {g})
  }

  /** What a failed step leaves behind. */
  function Leave(img: Image, ch: Change, leavesTmp: bool): Image {
    if leavesTmp && ch.Put? && ch.gid in img.dirs
    then img.(dirs := img.dirs[ch.gid := img.dirs[ch.gid].(tmps := img.dirs[ch.gid].tmps + {FileOf(ch.content)})])
    else img
  }

  function NextOutcome(fs: Fs): Outcome {
    if !fs.alive then Failed(false) else if fs.script == [] then Done else fs.script[0]
  }

  function Step(fs: Fs, ch: Change): (r: (Fs, bool)) {
    var rest := if fs.alive && fs.script != [] then fs.script[1..] else fs.script;
    match NextOutcome(fs)
    case Done => (Fs(Apply(fs.img, ch), fs.alive, rest), Possible(fs.img, ch))
    case Failed(leavesTmp) => (Fs(Leave(fs.img, ch, leavesTmp), fs.alive, rest), false)
    case PowerLostBefore => (Fs(fs.img, false, rest), false)
    case PowerLostAfter => (Fs(Apply(fs.img, ch), false, rest), false)
  }

  // ---- generations ----

  datatype Generation = Generation(gid: Gid, previous: Gid, version: nat, state: string, chain: string, cert: Json)

  function ManifestOf(g: Generation): Manifest {
    Manifest(g.gid, g.previous, g.version, g.state, g.chain, g.cert)
  }

  /** A generation that is whole: its manifest names it, both files are the ones the manifest
      lists, there is a chain and the certificate record is an object. */
  function LoadGeneration(img: Image, gid: Gid): Option<Generation> {
    if gid !in img.dirs || img.dirs[gid].manifest.None? then None
    else
      var d := img.dirs[gid];
      var m := d.manifest.value;
      if m.gid != gid then None
      else if (if d.chain.Some? then d.chain.value else "") != m.chain then None
      else if d.cert != Some(m.cert) then None
      else if m.chain == "" || !m.cert.Object? then None
      else Some(Generation(gid, m.previous, m.version, m.state, m.chain, m.cert))
  }

  function WriteGeneration(fs: Fs, g: Generation): (r: (Fs, bool)) {
    var (fs1, ok1) := Step(fs, MakeDir(g.gid));
    if !ok1 then (fs1, false) else
    var (fs2, ok2) := Step(fs1, Put(g.gid, ChainText(g.chain)));
    if !ok2 then (fs2, false) else
    var (fs3, ok3) := Step(fs2, Put(g.gid, CertText(g.cert)));
    if !ok3 then (fs3, false) else
    var (fs4, ok4) := Step(fs3, Put(g.gid, ManifestText(ManifestOf(g))));
    if !ok4 then (fs4, false) else
    Step(fs4, SyncDir)
  }

  function DropCandidate(fs: Fs, gid: Gid): Fs {
    var fs1 := Step(fs, Remove(gid, ManifestFile)).0;
    var fs2 := Step(fs1, Remove(gid, ChainFile)).0;
    var fs3 := Step(fs2, Remove(gid, CertFile)).0;
    Step(fs3, RemoveDir(gid)).0
  }

  function SwitchCurrent(fs: Fs, gid: Gid): (r: (Fs, bool)) {
    var (fs1, ok) := Step(fs, PutCurrent(gid));
    if !ok then (fs1, false) else Step(fs1, SyncDir)
  }

  /** Remove what a generation directory may hold, then the directory if nothing is left. */
  function RemoveGeneration(fs: Fs, gid: Gid): Fs {
    var fs1 := Step(fs, Remove(gid, ManifestFile)).0;
    var fs2 := Step(fs1, Remove(gid, ChainFile)).0;
    var fs3 := Step(fs2, Remove(gid, CertFile)).0;
    var fs4 := Step(fs3, RemoveTmp(gid, ManifestFile)).0;
    var fs5 := Step(fs4, RemoveTmp(gid, ChainFile)).0;
    var fs6 := Step(fs5, RemoveTmp(gid, CertFile)).0;
    Step(fs6, RemoveDir(gid)).0
  }

  /** Remove every listed generation but the two to keep. */
  function CleanupOrphans(fs: Fs, names: seq<Gid>, keepA: Gid, keepB: Gid): Fs
    decreases |names|
  {
    if names == [] then fs
    else
      var fs1 := if names[0] == keepA || names[0] == keepB || names[0] !in fs.img.dirs then fs
                 else RemoveGeneration(fs, names[0]);
      CleanupOrphans(fs1, names[1..], keepA, keepB)
  }

  // ---- the store ----

  datatype Code = Success | InvalidParameter | StorageWriteFailed | StorageCorruption

  /** The process: its disk, and its memory of the current generation. */
  datatype Store = Store(fs: Fs, mem: Option<Generation>, recovered: bool)

  datatype CommitData = CommitData(chain: string, cert: Option<Json>, state: string, version: nat)

  function CandidateOf(c: CommitData, gid: Gid, mem: Option<Generation>): Generation
    requires c.cert.Some?
  {
    Generation(gid, if mem.Some? then mem.value.gid else "", c.version, c.state, c.chain, c.cert.value)
  }

  /** Publish new material under the id `gid`; `names` is the directory listing the clean-up
      walks over. */
  function Commit(s: Store, c: CommitData, gid: Gid, names: seq<Gid>): (r: (Store, Code)) {
    if !s.recovered then (s, StorageCorruption)
    else if c.chain == "" || c.cert.None? then (s, InvalidParameter)
    else
      var g := CandidateOf(c, gid, s.mem);
      var (fs1, written) := WriteGeneration(s.fs, g);
      if !written then (s.(fs := DropCandidate(fs1, gid)), StorageWriteFailed)
      else if LoadGeneration(fs1.img, gid).None? then (s.(fs := fs1), StorageWriteFailed)
      else
        var (fs2, switched) := SwitchCurrent(fs1, gid);
        if !switched then (s.(fs := fs2), StorageWriteFailed)
        else (Store(CleanupOrphans(fs2, names, g.gid, g.previous), Some(g), true), Success)
  }

  /** Where following the previous-generation links from `prev` leads. On a cycle of broken
      generations the walk of the source never ends. */
  datatype Walk = Found(g: Generation) | Exhausted | Endless

  function PreviousOf(img: Image, gid: Gid): Gid {
    if gid in img.dirs && img.dirs[gid].manifest.Some? then img.dirs[gid].manifest.value.previous else ""
  }

  function WalkBack(img: Image, prev: Gid, seen: set<Gid>): Walk
    decreases img.dirs.Keys - seen
  {
    if prev == "" then Exhausted
    else if LoadGeneration(img, prev).Some? then Found(LoadGeneration(img, prev).value)
    else if prev !in img.dirs then Exhausted
    else if prev in seen then Endless
    else WalkBack(img, PreviousOf(img, prev), seen + {prev})
  }

  /** The walk over predecessor links, where a start has to take it, ends. */
  ghost predicate WalkEnds(img: Image) {
    img.current.Some? && LoadGeneration(img, img.current.value).None? ==>
      !WalkBack(img, PreviousOf(img, img.current.value), {}).Endless?
  }

  function Adopt(fs: Fs, g: Generation, names: seq<Gid>): Store {
    Store(CleanupOrphans(fs, names, g.gid, g.previous), Some(g), true)
  }

  /** What a fresh process makes of the pointer and the generations it finds. */
  function Recover(fs: Fs, names: seq<Gid>): (r: (Store, bool)) {
    if fs.img.current.None? then (Store(CleanupOrphans(fs, names, "", ""), None, true), true)
    else
      var gid := fs.img.current.value;
      var loaded := LoadGeneration(fs.img, gid);
      if loaded.Some? then (Adopt(fs, loaded.value, names), true)
      else
        match WalkBack(fs.img, PreviousOf(fs.img, gid), {})
        case Found(g) => (Adopt(fs, g, names), true)
        case _ => (Store(CleanupOrphans(fs, names, "", ""), None, false), false)
  }

  function OpenAndRecover(fs: Fs, names: seq<Gid>): (r: (Store, bool)) {
    var (fs1, ok) := Step(fs, MakeRoot);
    if !ok then (Store(fs1, None, false), false) else Recover(fs1, names)
  }
}

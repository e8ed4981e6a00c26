/** tools/pack/activation.py as a step machine over durable state.
    One action is one atomic write (a file or directory replaced whole), one read, or one check;
    a crash may fall between any two actions and several installers may interleave. */
module Activation {
  import opened Wrappers

  // ----- durable state -----

  /** The manifest bytes of a verified pack; SHA-256 of them names the generation. */
  datatype Manifest = Manifest(packId: string, packVersion: string, rest: string)

  /** What the protocol takes from elsewhere: SHA-256, compare_versions and the two regular expressions. */
  datatype Platform = Platform(
    sha: Manifest -> string,
    compare: (string, string) -> Result<int>,
    isHex: string -> bool,
    isDigest: string -> bool)

  const DIGEST_PREFIX := "sha256-"

  function Digest(e: Platform, m: Manifest): string { DIGEST_PREFIX + e.sha(m) }

  /** compare_versions(v, v) does not raise. */
  predicate ValidVersion(e: Platform, v: string) { e.compare(v, v).Ok? }

  predicate AtMost(e: Platform, left: string, right: string) {
    e.compare(left, right).Ok? && e.compare(left, right).value <= 0
  }

  /** Version comparison is a total order on valid texts, equal only on the same text. */
  ghost predicate OrderLaw(e: Platform, s: string, t: string, u: string) {
    && (e.compare(s, t).Ok? <==> ValidVersion(e, s) && ValidVersion(e, t))
    && (ValidVersion(e, s) && ValidVersion(e, t) ==>
          && (AtMost(e, s, t) || AtMost(e, t, s))
          && (e.compare(s, t).value < 0 || AtMost(e, t, s))
          && (e.compare(s, t).value == 0 <==> s == t)
          && (AtMost(e, s, t) && AtMost(e, t, s) ==> s == t))
    && (AtMost(e, s, t) && AtMost(e, t, u) ==> AtMost(e, s, u))
  }

  ghost predicate Ordered(e: Platform) {
    forall s, t, u {:trigger OrderLaw(e, s, t, u)} :: OrderLaw(e, s, t, u)
  }

  /** No two manifests have the same SHA-256, and hashes have the expected shape. */
  ghost predicate CollisionFree(e: Platform) {
    && (forall m :: e.isHex(e.sha(m)) && e.isDigest(Digest(e, m)))
    && (forall m, n :: e.sha(m) == e.sha(n) ==> m == n)
  }

  /** generation.json inside a published generation directory. */
  datatype Generation = Generation(id: string, packId: string, packVersion: string, digest: string)

  function Metadata(e: Platform, m: Manifest): Generation {
    Generation(e.sha(m), m.packId, m.packVersion, Digest(e, m))
  }

  predicate ValidMetadata(e: Platform, g: Generation) {
    e.isHex(g.id) && g.packId != "" && ValidVersion(e, g.packVersion) && e.isDigest(g.digest)
  }

  datatype Trusted = Trusted(version: string, digest: string)

  /** runtime-state.json */
  datatype RuntimeState = RuntimeState(active: Option<string>, lkg: Option<string>, highest: map<string, Trusted>)

  const DEFAULT_STATE := RuntimeState(None, None, map[])

  predicate ValidState(e: Platform, s: RuntimeState) {
    && (s.active.Some? ==> e.isHex(s.active.value))
    && (s.lkg.Some? ==> e.isHex(s.lkg.value))
    && forall p :: p in s.highest ==>
         p != "" && e.isDigest(s.highest[p].digest) && ValidVersion(e, s.highest[p].version)
  }

  datatype Disk = Disk(
    lock: Option<nat>,                      // install.lock and the installer that created it
    floor: Option<int>,                     // trusted-time.json
    tufCache: bool,                         // some file under tuf/metadata
    staging: set<nat>,                      // staging directories, by installer
    generations: map<string, Generation>,   // published generation directories
    state: Option<RuntimeState>)            // runtime-state.json

  function Load(d: Disk): RuntimeState {
    if d.state.None? then DEFAULT_STATE else d.state.value
  }

  predicate DurableTrust(d: Disk) {
    d.state.Some? || d.tufCache || d.staging != {} || d.generations != map[]
  }

  // ----- one installer -----

  datatype Job = Job(manifest: Manifest, loaded: RuntimeState, record: Trusted)

  datatype Phase =
    | Idle
    | Entered
    | Guarded
    | Verified(manifest: Manifest)
    | Checked(job: Job)
    | Staging(job: Job)
    | Staged(job: Job)
    | Healthy(job: Job)
    | TrustWritten(job: Job)
    | Activated(job: Job)
    | Confirmed(job: Job)
    | Failed(job: Job)
    | Leaving(ok: bool)
    | Gone(ok: bool)
    | Dead

  predicate Holding(p: Phase) { !p.Idle? && !p.Gone? && !p.Dead? }

  predicate PastGuard(p: Phase) { Holding(p) && !p.Entered? && !p.Leaving? }

  /** What happened to one atomic write: it took effect, it raised without effect,
      or it took effect and then raised. */
  datatype Write = Done | Lost | Raised

  datatype Action =
    | Acquire
    | EnterFails
    | Guard(now: int, w: Write)
    | TouchTuf
    | VerifyPack(manifest: Manifest)
    | CheckRollback
    | BeginStage
    | StageFails(cleaned: bool)
    | Publish(w: Write)
    | PreHealth(healthy: bool)
    | WriteTrust(w: Write)
    | WriteActive(w: Write)
    | PostHealth(healthy: bool)
    | WriteCommit(w: Write)
    | WriteRollback(w: Write)
    | Interrupt
    | Release
    | Crash

  /** What has happened so far, kept for stating properties. */
  datatype History = History(observed: seq<int>, healthy: set<string>, confirmed: set<string>)

  /** The durable state, the history, and where one installer stands. */
  datatype Solo = Solo(disk: Disk, log: History, phase: Phase)

  function RollbackCheck(e: Platform, s: RuntimeState, m: Manifest): Result<Trusted> {
    if m.packId !in s.highest then Ok(Trusted(m.packVersion, Digest(e, m)))
    else
      var top := s.highest[m.packId];
      match e.compare(m.packVersion, top.version)
      case Err(e) => Err(e)
      case Ok(order) =>
        if order < 0 then Err("pack rollback rejected")
        else if order == 0 && Digest(e, m) != top.digest then Err("same version, different manifest bytes")
        else Ok(if order > 0 then Trusted(m.packVersion, Digest(e, m)) else top)
  }

  function Advanced(j: Job): RuntimeState {
    j.loaded.(highest := j.loaded.highest[j.manifest.packId := j.record])
  }

  function Activating(e: Platform, j: Job): RuntimeState { Advanced(j).(active := Some(e.sha(j.manifest))) }

  function Committed(e: Platform, j: Job): RuntimeState { Activating(e, j).(lkg := Some(e.sha(j.manifest))) }

  /** previous_lkg or previous_active */
  function RollbackTarget(j: Job): Option<string> {
    if j.loaded.lkg.Some? then j.loaded.lkg else j.loaded.active
  }

  function RolledBack(j: Job): RuntimeState {
    Advanced(j).(active := RollbackTarget(j), lkg := j.loaded.lkg)
  }

  /** _write_runtime_state: an invalid state raises before anything is written. */
  function WriteState(e: Platform, s: Solo, state: RuntimeState, w: Write, next: Phase): Solo {
    if !ValidState(e, state) || w.Lost? then s.(phase := Leaving(false))
    else if w.Raised? then s.(disk := s.disk.(state := Some(state)), phase := Leaving(false))
    else s.(disk := s.disk.(state := Some(state)), phase := next)
  }

  /** _guard_trusted_time */
  function GuardTime(s: Solo, now: int, w: Write): Solo {
    var floor := s.disk.floor;
    var passed := s.(log := s.log.(observed := s.log.observed + [now]), phase := Guarded);
    var failed := s.(phase := Leaving(false));
    if floor.Some? && now < floor.value then failed
    else if floor.Some? && now == floor.value then passed
    else if floor.None? && DurableTrust(s.disk) then failed
    else match w
      case Lost => failed
      case Raised => failed.(disk := s.disk.(floor := Some(now)))
      case Done => passed.(disk := s.disk.(floor := Some(now)))
  }

  predicate At(a: Action, p: Phase) {
    match a
    case Acquire => p.Idle?
    case EnterFails => p.Entered?
    case Guard(_, _) => p.Entered?
    case TouchTuf => p.Guarded?
    case VerifyPack(_) => p.Guarded?
    case CheckRollback => p.Verified?
    case BeginStage => p.Checked?
    case StageFails(_) => p.Staging?
    case Publish(_) => p.Staging?
    case PreHealth(_) => p.Staged?
    case WriteTrust(_) => p.Healthy?
    case WriteActive(_) => p.TrustWritten?
    case PostHealth(_) => p.Activated?
    case WriteCommit(_) => p.Confirmed?
    case WriteRollback(_) => p.Failed?
    case Interrupt => p.Entered? || PastGuard(p)
    case Release => p.Leaving?
    case Crash => p.Idle? || Holding(p)
  }

  /** os.open with O_EXCL: an existing lock file raises and nothing is touched. */
  function TryLock(i: nat, s: Solo): Solo {
    if s.disk.lock.None? then s.(disk := s.disk.(lock := Some(i)), phase := Entered) else s.(phase := Gone(false))
  }

  function StartInstall(e: Platform, s: Solo): Solo
    requires s.phase.Verified?
  {
    var m := s.phase.manifest;
    match RollbackCheck(e, Load(s.disk), m)
    case Err(_) => s.(phase := Leaving(false))
    case Ok(record) => s.(phase := Checked(Job(m, Load(s.disk), record)))
  }

  /** _stage_generation up to the staging directory: an existing generation is reused. */
  function StartStaging(e: Platform, i: nat, s: Solo): Solo
    requires s.phase.Checked?
  {
    var j, d := s.phase.job, s.disk;
    var id := e.sha(j.manifest);
    if id !in d.generations then s.(disk := d.(staging := d.staging + {i}), phase := Staging(j))
    else if d.generations[id].id == id && d.generations[id].digest == Digest(e, j.manifest) then s.(phase := Staged(j))
    else s.(phase := Leaving(false))
  }

  /** The rename of the staging directory to its generation id. */
  function PublishGeneration(e: Platform, i: nat, s: Solo, w: Write): Solo
    requires s.phase.Staging?
  {
    var j, d := s.phase.job, s.disk;
    var g := Metadata(e, j.manifest);
    var out := d.(staging := d.staging - {i});
    if !ValidMetadata(e, g) || w.Lost? then s.(disk := out, phase := Leaving(false))
    else s.(disk := out.(generations := d.generations[g.id := g]),
        phase := if w.Done? then Staged(j) else Leaving(false))
  }

  /** One action of installer i, at a phase where it applies. */
  function Step(e: Platform, i: nat, a: Action, s: Solo): Solo
    requires At(a, s.phase)
  {
    var d, log := s.disk, s.log;
    match a
    case Acquire => TryLock(i, s)
    // the lock file exists but its payload was not written: __exit__ never runs
    case EnterFails => s.(phase := Dead)
    case Guard(now, w) => GuardTime(s, now, w)
    case TouchTuf => s.(disk := d.(tufCache := true))
    case VerifyPack(m) => s.(disk := d.(tufCache := true), phase := Verified(m))
    case CheckRollback => StartInstall(e, s)
    case BeginStage => StartStaging(e, i, s)
    case StageFails(cleaned) =>
      s.(disk := if cleaned then d.(staging := d.staging - {i}) else d, phase := Leaving(false))
    case Publish(w) => PublishGeneration(e, i, s, w)
    case PreHealth(ok) =>
      var j := s.phase.job;
      if ok then s.(log := log.(healthy := log.healthy + {e.sha(j.manifest)}), phase := Healthy(j))
      else s.(phase := Leaving(false))
    case WriteTrust(w) => WriteState(e, s, Advanced(s.phase.job), w, TrustWritten(s.phase.job))
    case WriteActive(w) => WriteState(e, s, Activating(e, s.phase.job), w, Activated(s.phase.job))
    case PostHealth(ok) =>
      var j := s.phase.job;
      if ok then s.(log := log.(confirmed := log.confirmed + {e.sha(j.manifest)}), phase := Confirmed(j))
      else s.(phase := Failed(j))
    case WriteCommit(w) => WriteState(e, s, Committed(e, s.phase.job), w, Leaving(true))
    case WriteRollback(w) => WriteState(e, s, RolledBack(s.phase.job), w, Leaving(false))
    case Interrupt => s.(phase := Leaving(false))
    case Release => s.(disk := d.(lock := None), phase := Gone(s.phase.ok))
    case Crash => s.(phase := Dead)
  }

  // ----- invariants -----

  ghost predicate Bounded(e: Platform, s: RuntimeState, gens: map<string, Generation>, id: Option<string>) {
    id.Some? ==>
      && id.value in gens
      && var g := gens[id.value];
      && g.packId in s.highest
      && ValidVersion(e, g.packVersion)
      && var top := s.highest[g.packId];
      && AtMost(e, g.packVersion, top.version)
      && (g.packVersion == top.version ==> g.digest == top.digest)
  }

  /** The pointers name published, checked generations that the trust record covers. */
  ghost predicate StateInv(e: Platform, s: RuntimeState, gens: map<string, Generation>, log: History) {
    && ValidState(e, s)
    && Bounded(e, s, gens, s.active)
    && Bounded(e, s, gens, s.lkg)
    && (s.active.Some? ==> s.active.value in log.healthy)
    && (s.lkg.Some? ==> s.lkg.value in log.confirmed)
  }

  ghost predicate DiskInv(e: Platform, d: Disk, log: History) {
    && CollisionFree(e) && Ordered(e)
    && (forall id :: id in d.generations ==>
          d.generations[id].id == id && d.generations[id].digest == DIGEST_PREFIX + id)
    && (forall m :: e.sha(m) in d.generations ==> d.generations[e.sha(m)] == Metadata(e, m))
    && log.confirmed <= log.healthy <= d.generations.Keys
    && StateInv(e, Load(d), d.generations, log)
  }

  ghost predicate JobInv(e: Platform, j: Job, gens: map<string, Generation>, log: History) {
    && RollbackCheck(e, j.loaded, j.manifest) == Ok(j.record)
    && StateInv(e, j.loaded, gens, log)
  }

  /** What a running installer relies on: it owns the lock, and its copy of the state is the one on disk. */
  ghost predicate PhaseInv(e: Platform, i: nat, s: Solo) {
    var d, log, gens := s.disk, s.log, s.disk.generations;
    && (Holding(s.phase) ==> d.lock == Some(i))
    && match s.phase
       case Checked(j) => JobInv(e, j, gens, log) && Load(d) == j.loaded
       case Staging(j) => JobInv(e, j, gens, log) && Load(d) == j.loaded && e.sha(j.manifest) !in d.generations
       case Staged(j) => JobInv(e, j, gens, log) && Load(d) == j.loaded && e.sha(j.manifest) in d.generations
       case Healthy(j) => JobInv(e, j, gens, log) && Load(d) == j.loaded && e.sha(j.manifest) in log.healthy
       case TrustWritten(j) => JobInv(e, j, gens, log) && Load(d) == Advanced(j) && e.sha(j.manifest) in log.healthy
       case Activated(j) => JobInv(e, j, gens, log) && Load(d) == Activating(e, j) && e.sha(j.manifest) in log.healthy
       case Confirmed(j) => JobInv(e, j, gens, log) && Load(d) == Activating(e, j) && e.sha(j.manifest) in log.confirmed
       case Failed(j) => JobInv(e, j, gens, log) && Load(d) == Activating(e, j) && e.sha(j.manifest) in log.healthy
       case _ => true
  }

  /** The recorded versions never go down, and an equal version keeps its digest. */
  ghost predicate HighestGrows(e: Platform, h: map<string, Trusted>, k: map<string, Trusted>) {
    forall p :: p in h ==>
      && p in k
      && AtMost(e, h[p].version, k[p].version)
      && (h[p].version == k[p].version ==> h[p] == k[p])
  }

  /** Published generations stay, unaltered. */
  ghost predicate GenerationsKept(g: map<string, Generation>, h: map<string, Generation>) {
    forall id :: id in g ==> id in h && h[id] == g[id]
  }

  ghost predicate Grows(e: Platform, d: Disk, log: History, d2: Disk, log2: History) {
    && GenerationsKept(d.generations, d2.generations)
    && HighestGrows(e, Load(d).highest, Load(d2).highest)
    && log.healthy <= log2.healthy
    && log.confirmed <= log2.confirmed
    && log.observed <= log2.observed
  }

  // ----- the four states an installer writes -----

  lemma RecordIsThePack(e: Platform, s: RuntimeState, m: Manifest)
    requires Ordered(e) && ValidState(e, s) && RollbackCheck(e, s, m).Ok?
    ensures RollbackCheck(e, s, m).value == Trusted(m.packVersion, Digest(e, m))
    ensures m.packId in s.highest ==>
      && ValidVersion(e, m.packVersion)
      && AtMost(e, s.highest[m.packId].version, m.packVersion)
      && (s.highest[m.packId].version == m.packVersion ==> s.highest[m.packId].digest == Digest(e, m))
  {
    if m.packId in s.highest {
      var v := s.highest[m.packId].version;
      assert OrderLaw(e, m.packVersion, v, v);
      assert OrderLaw(e, v, m.packVersion, v);
    }
  }

  /** What the rollback check lets pass: a pack never seen, a higher version, or the same version with the same
      manifest. */
  predicate MayFollow(e: Platform, s: RuntimeState, m: Manifest) {
    m.packId in s.highest ==>
      var top := s.highest[m.packId];
      && ValidVersion(e, m.packVersion) && AtMost(e, top.version, m.packVersion)
      && (m.packVersion == top.version ==> "sha256-" + e.sha(m) == top.digest)
  }

  lemma RollbackCheckIff(e: Platform, s: RuntimeState, m: Manifest)
    requires Ordered(e) && ValidState(e, s)
    ensures RollbackCheck(e, s, m).Ok? <==> MayFollow(e, s, m)
    ensures RollbackCheck(e, s, m).Ok? ==>
              RollbackCheck(e, s, m).value == Trusted(m.packVersion, "sha256-" + e.sha(m))
  {
    if m.packId in s.highest {
      var v := s.highest[m.packId].version;
      assert OrderLaw(e, m.packVersion, v, v);
      assert OrderLaw(e, v, m.packVersion, v);
    }
  }

  lemma AdvancedGrows(e: Platform, j: Job, d: Disk, log: History)
    requires Ordered(e) && JobInv(e, j, d.generations, log)
    ensures HighestGrows(e, j.loaded.highest, Advanced(j).highest)
  {
    RecordIsThePack(e, j.loaded, j.manifest);
    forall p | p in j.loaded.highest ensures AtMost(e, j.loaded.highest[p].version, j.loaded.highest[p].version) {
      var v := j.loaded.highest[p].version;
      assert OrderLaw(e, v, v, v);
    }
  }

  lemma BoundedGrows(e: Platform, s: RuntimeState, t: RuntimeState, gens: map<string, Generation>, id: Option<string>)
    requires Ordered(e) && ValidState(e, s) && ValidState(e, t) && HighestGrows(e, s.highest, t.highest)
        && Bounded(e, s, gens, id)
    ensures Bounded(e, t, gens, id)
  {
    if id.Some? {
      var g := gens[id.value];
      assert OrderLaw(e, g.packVersion, s.highest[g.packId].version, t.highest[g.packId].version);
      assert OrderLaw(e, s.highest[g.packId].version, t.highest[g.packId].version, g.packVersion);
    }
  }

  /** Every state the protocol writes satisfies the state invariant. */
  lemma WrittenStates(e: Platform, j: Job, d: Disk, log: History)
    requires DiskInv(e, d, log) && JobInv(e, j, d.generations, log)
    requires ValidState(e, Advanced(j)) && e.sha(j.manifest) in log.healthy
    ensures StateInv(e, Advanced(j), d.generations, log)
    ensures StateInv(e, Activating(e, j), d.generations, log)
    ensures StateInv(e, RolledBack(j), d.generations, log)
    ensures e.sha(j.manifest) in log.confirmed ==> StateInv(e, Committed(e, j), d.generations, log)
  {
    RecordIsThePack(e, j.loaded, j.manifest);
    AdvancedGrows(e, j, d, log);
    BoundedGrows(e, j.loaded, Advanced(j), d.generations, j.loaded.active);
    BoundedGrows(e, j.loaded, Advanced(j), d.generations, j.loaded.lkg);
    var v := j.manifest.packVersion;
    assert Advanced(j).highest[j.manifest.packId].version == v;
    assert OrderLaw(e, v, v, v);
    assert d.generations[e.sha(j.manifest)] == Metadata(e, j.manifest);
    assert Bounded(e, Advanced(j), d.generations, Some(e.sha(j.manifest)));
  }

  // ----- every action keeps the invariants -----

  lemma SameGrows(e: Platform, d: Disk, log: History, d2: Disk, log2: History)
    requires Ordered(e) && ValidState(e, Load(d)) && Load(d2) == Load(d)
    requires GenerationsKept(d.generations, d2.generations)
    requires log.healthy <= log2.healthy && log.confirmed <= log2.confirmed && log.observed <= log2.observed
    ensures Grows(e, d, log, d2, log2)
  {
    var h := Load(d).highest;
    forall p | p in h ensures AtMost(e, h[p].version, h[p].version) {
      assert OrderLaw(e, h[p].version, h[p].version, h[p].version);
    }
  }

  /** The invariants of disk and installer, and what one action may change. */
  ghost predicate Keeps(e: Platform, i: nat, s: Solo, t: Solo) {
    DiskInv(e, t.disk, t.log) && PhaseInv(e, i, t) && Grows(e, s.disk, s.log, t.disk, t.log)
  }

  ghost predicate Ready(e: Platform, i: nat, a: Action, s: Solo) {
    DiskInv(e, s.disk, s.log) && PhaseInv(e, i, s) && At(a, s.phase)
  }

  lemma QuietDisk(e: Platform, d: Disk, log: History, d2: Disk, log2: History)
    requires DiskInv(e, d, log) && d2.generations == d.generations && d2.state == d.state
    requires log2.healthy == log.healthy && log2.confirmed == log.confirmed && log.observed <= log2.observed
    ensures DiskInv(e, d2, log2) && Grows(e, d, log, d2, log2)
  {
    SameGrows(e, d, log, d2, log2);
  }

  /** The remaining actions leave generations, pointers and trust record alone. */
  lemma QuietKeeps(e: Platform, i: nat, s: Solo, t: Solo)
    requires DiskInv(e, s.disk, s.log) && PhaseInv(e, i, t)
    requires t.disk.generations == s.disk.generations && t.disk.state == s.disk.state
    requires t.log.(observed := []) == s.log.(observed := []) && s.log.observed <= t.log.observed
    ensures Keeps(e, i, s, t)
  {
    QuietDisk(e, s.disk, s.log, t.disk, t.log);
  }

  /** A state that the disk's generations and the history cover may replace the one on disk. */
  lemma WrittenDisk(e: Platform, d: Disk, log: History, target: RuntimeState)
    requires DiskInv(e, d, log) && StateInv(e, target, d.generations, log)
    requires HighestGrows(e, Load(d).highest, target.highest)
    ensures DiskInv(e, d.(state := Some(target)), log)
    ensures Grows(e, d, log, d.(state := Some(target)), log)
  {
  }

  /** A state write keeps the invariants when the written state is covered by the trust record
      and extends the one on disk. */
  lemma WriteKeeps(e: Platform, i: nat, s: Solo, target: RuntimeState, w: Write, next: Phase)
    requires DiskInv(e, s.disk, s.log) && s.disk.lock == Some(i)
    requires ValidState(e, target) ==>
      && StateInv(e, target, s.disk.generations, s.log)
      && HighestGrows(e, Load(s.disk).highest, target.highest)
      && PhaseInv(e, i, Solo(s.disk.(state := Some(target)), s.log, next))
    ensures Keeps(e, i, s, WriteState(e, s, target, w, next))
  {
    if !ValidState(e, target) || w.Lost? {
      QuietKeeps(e, i, s, s.(phase := Leaving(false)));
    } else {
      WrittenDisk(e, s.disk, s.log, target);
    }
  }

  /** The three writes after the trust record leave the record alone. */
  lemma PointerWriteKeeps(e: Platform, i: nat, s: Solo, target: RuntimeState, w: Write, next: Phase)
    requires DiskInv(e, s.disk, s.log) && s.disk.lock == Some(i)
    requires target.highest == Load(s.disk).highest && StateInv(e, target, s.disk.generations, s.log)
    requires PhaseInv(e, i, Solo(s.disk.(state := Some(target)), s.log, next))
    ensures Keeps(e, i, s, WriteState(e, s, target, w, next))
  {
    SameGrows(e, s.disk, s.log, s.disk, s.log);
    WriteKeeps(e, i, s, target, w, next);
  }

  /** Installer i owns the lock and carries job j over the disk d, whose state it has brought to state. */
  ghost predicate Carries(e: Platform, i: nat, j: Job, d: Disk, log: History, state: RuntimeState) {
    && DiskInv(e, d, log) && JobInv(e, j, d.generations, log)
    && d.lock == Some(i) && Load(d) == state && e.sha(j.manifest) in log.healthy
  }

  lemma WriteTrustKeeps(e: Platform, i: nat, j: Job, d: Disk, log: History, w: Write)
    requires Carries(e, i, j, d, log, j.loaded)
    ensures var s := Solo(d, log, Healthy(j)); Keeps(e, i, s, WriteState(e, s, Advanced(j), w, TrustWritten(j)))
  {
    AdvancedGrows(e, j, d, log);
    if ValidState(e, Advanced(j)) { WrittenStates(e, j, d, log); }
    WriteKeeps(e, i, Solo(d, log, Healthy(j)), Advanced(j), w, TrustWritten(j));
  }

  lemma WriteActiveKeeps(e: Platform, i: nat, j: Job, d: Disk, log: History, w: Write)
    requires Carries(e, i, j, d, log, Advanced(j))
    ensures var s := Solo(d, log, TrustWritten(j)); Keeps(e, i, s, WriteState(e, s, Activating(e, j), w, Activated(j)))
  {
    WrittenStates(e, j, d, log);
    PointerWriteKeeps(e, i, Solo(d, log, TrustWritten(j)), Activating(e, j), w, Activated(j));
  }

  lemma ActivatingIsValid(e: Platform, j: Job, d: Disk, log: History)
    requires DiskInv(e, d, log) && Load(d) == Activating(e, j) && (j.loaded.active.Some? ==>
        e.isHex(j.loaded.active.value))
    ensures ValidState(e, Advanced(j))
  {
  }

  lemma WriteCommitKeeps(e: Platform, i: nat, j: Job, d: Disk, log: History, w: Write)
    requires Carries(e, i, j, d, log, Activating(e, j)) && e.sha(j.manifest) in log.confirmed
    ensures var s := Solo(d, log, Confirmed(j)); Keeps(e, i, s, WriteState(e, s, Committed(e, j), w, Leaving(true)))
  {
    ActivatingIsValid(e, j, d, log);
    WrittenStates(e, j, d, log);
    PointerWriteKeeps(e, i, Solo(d, log, Confirmed(j)), Committed(e, j), w, Leaving(true));
  }

  lemma WriteRollbackKeeps(e: Platform, i: nat, j: Job, d: Disk, log: History, w: Write)
    requires Carries(e, i, j, d, log, Activating(e, j))
    ensures var s := Solo(d, log, Failed(j)); Keeps(e, i, s, WriteState(e, s, RolledBack(j), w, Leaving(false)))
  {
    ActivatingIsValid(e, j, d, log);
    WrittenStates(e, j, d, log);
    PointerWriteKeeps(e, i, Solo(d, log, Failed(j)), RolledBack(j), w, Leaving(false));
  }

  lemma StartKeeps(e: Platform, i: nat, s: Solo)
    requires DiskInv(e, s.disk, s.log) && PhaseInv(e, i, s) && s.phase.Checked?
    ensures Keeps(e, i, s, StartStaging(e, i, s))
  {
    var t := StartStaging(e, i, s);
    QuietKeeps(e, i, s, t);
  }

  lemma PublishKeeps(e: Platform, i: nat, s: Solo, w: Write)
    requires DiskInv(e, s.disk, s.log) && PhaseInv(e, i, s) && s.phase.Staging?
    ensures Keeps(e, i, s, PublishGeneration(e, i, s, w))
  {
    var t := PublishGeneration(e, i, s, w);
    if t.disk.generations == s.disk.generations {
      QuietKeeps(e, i, s, t);
    } else {
      var m := s.phase.job.manifest;
      PublishedDisk(e, s.disk, s.log, m, t.disk);
      StillBounded(e, s.phase.job.loaded, s.disk.generations, t.disk.generations, s.log);
    }
  }

  /** A new generation disturbs no pointer. */
  lemma StillBounded(e: Platform, state: RuntimeState, gens: map<string, Generation>, more: map<string, Generation>,
                     log: History)
    requires StateInv(e, state, gens, log) && GenerationsKept(gens, more)
    ensures StateInv(e, state, more, log)
  {
  }

  lemma PublishedDisk(e: Platform, d: Disk, log: History, m: Manifest, d2: Disk)
    requires DiskInv(e, d, log) && e.sha(m) !in d.generations && d2.state == d.state
    requires d2.generations == d.generations[e.sha(m) := Metadata(e, m)]
    ensures DiskInv(e, d2, log) && Grows(e, d, log, d2, log)
  {
    StillBounded(e, Load(d), d.generations, d2.generations, log);
    SameGrows(e, d, log, d2, log);
  }

  lemma StagingKeeps(e: Platform, i: nat, a: Action, s: Solo)
    requires Ready(e, i, a, s) && (a.BeginStage? || a.Publish? || a.StageFails?)
    ensures Keeps(e, i, s, Step(e, i, a, s))
  {
    match a
    case BeginStage => StartKeeps(e, i, s);
    case Publish(w) => PublishKeeps(e, i, s, w);
    case StageFails(_) => QuietKeeps(e, i, s, Step(e, i, a, s));
  }

  /** Recording a passed check keeps the disk invariant. */
  lemma CheckedDisk(e: Platform, d: Disk, log: History, log2: History)
    requires DiskInv(e, d, log) && log2.observed == log.observed
    requires log.healthy <= log2.healthy <= d.generations.Keys
    requires log.confirmed <= log2.confirmed <= log2.healthy
    ensures DiskInv(e, d, log2) && Grows(e, d, log, d, log2)
  {
    SameGrows(e, d, log, d, log2);
  }

  lemma PreHealthKeeps(e: Platform, i: nat, j: Job, d: Disk, log: History)
    requires DiskInv(e, d, log) && PhaseInv(e, i, Solo(d, log, Staged(j)))
    ensures var log2 := log.(healthy := log.healthy + {e.sha(j.manifest)});
            Keeps(e, i, Solo(d, log, Staged(j)), Solo(d, log2, Healthy(j)))
  {
    CheckedDisk(e, d, log, log.(healthy := log.healthy + {e.sha(j.manifest)}));
  }

  lemma PostHealthKeeps(e: Platform, i: nat, j: Job, d: Disk, log: History)
    requires DiskInv(e, d, log) && PhaseInv(e, i, Solo(d, log, Activated(j)))
    ensures var log2 := log.(confirmed := log.confirmed + {e.sha(j.manifest)});
            Keeps(e, i, Solo(d, log, Activated(j)), Solo(d, log2, Confirmed(j)))
  {
    CheckedDisk(e, d, log, log.(confirmed := log.confirmed + {e.sha(j.manifest)}));
  }

  lemma HealthKeeps(e: Platform, i: nat, a: Action, s: Solo)
    requires Ready(e, i, a, s) && (a.PreHealth? || a.PostHealth?)
    ensures Keeps(e, i, s, Step(e, i, a, s))
  {
    if !a.healthy {
      QuietKeeps(e, i, s, Step(e, i, a, s));
    } else if a.PreHealth? {
      PreHealthKeeps(e, i, s.phase.job, s.disk, s.log);
    } else {
      PostHealthKeeps(e, i, s.phase.job, s.disk, s.log);
    }
  }

  lemma WritesKeep(e: Platform, i: nat, a: Action, s: Solo)
    requires Ready(e, i, a, s) && (a.WriteTrust? || a.WriteActive? || a.WriteCommit? || a.WriteRollback?)
    ensures Keeps(e, i, s, Step(e, i, a, s))
  {
    match a
    case WriteTrust(w) => WriteTrustKeeps(e, i, s.phase.job, s.disk, s.log, w);
    case WriteActive(w) => WriteActiveKeeps(e, i, s.phase.job, s.disk, s.log, w);
    case WriteCommit(w) => WriteCommitKeeps(e, i, s.phase.job, s.disk, s.log, w);
    case WriteRollback(w) => WriteRollbackKeeps(e, i, s.phase.job, s.disk, s.log, w);
  }

  lemma StepKeeps(e: Platform, i: nat, a: Action, s: Solo)
    requires Ready(e, i, a, s)
    ensures Keeps(e, i, s, Step(e, i, a, s))
  {
    if a.WriteTrust? || a.WriteActive? || a.WriteCommit? || a.WriteRollback? {
      WritesKeep(e, i, a, s);
    } else if a.BeginStage? || a.Publish? || a.StageFails? {
      StagingKeeps(e, i, a, s);
    } else if a.PreHealth? || a.PostHealth? {
      HealthKeeps(e, i, a, s);
    } else {
      QuietKeeps(e, i, s, Step(e, i, a, s));
    }
  }
}

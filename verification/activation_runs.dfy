/** Whole runs of the activation protocol: any number of installers, interleaved action by action,
    with crashes, failed writes, an administrator and a lost time floor. */
module ActivationRuns {
  import opened Wrappers
  import opened Activation
  import SemVers

  datatype Event =
    | Act(who: nat, action: Action)
    | AdminUnlock        // explicit recovery: the lock of a dead installer is removed
    | LoseFloor          // trusted-time.json disappears

  datatype Global = Global(disk: Disk, log: History, phases: map<nat, Phase>)

  function PhaseOf(g: Global, i: nat): Phase { if i in g.phases then g.phases[i] else Idle }

  function View(g: Global, i: nat): Solo { Solo(g.disk, g.log, PhaseOf(g, i)) }

  /** An empty runtime root. */
  const START := Global(Disk(None, None, false, {}, map[], None), History([], {}, {}), map[])

  predicate Enabled(g: Global, ev: Event) {
    match ev
    case Act(i, a) => At(a, PhaseOf(g, i))
    case AdminUnlock => g.disk.lock.Some? && PhaseOf(g, g.disk.lock.value).Dead?
    case LoseFloor => true
  }

  function Next(e: Platform, g: Global, ev: Event): Global
    requires Enabled(g, ev)
  {
    match ev
    case Act(i, a) =>
      var s := Step(e, i, a, View(g, i));
      Global(s.disk, s.log, g.phases[i := s.phase])
    case AdminUnlock => g.(disk := g.disk.(lock := None))
    case LoseFloor => g.(disk := g.disk.(floor := None))
  }

  /** The state after a trace of events from g, if every event could happen. */
  function Continue(e: Platform, g: Global, trace: seq<Event>): Option<Global> {
    if trace == [] then Some(g) else
      var last := |trace| - 1;
      var before := Continue(e, g, trace[..last]);
      if before.Some? && Enabled(before.value, trace[last]) then Some(Next(e, before.value, trace[last])) else None
  }

  function Run(e: Platform, trace: seq<Event>): Option<Global> { Continue(e, START, trace) }

  /** The machine allows every fault: any installer that is not done can die between two actions, leaving the disk
      as it is, ... */
  lemma DiesAnywhere(e: Platform, g: Global, i: nat)
    ensures var p := PhaseOf(g, i);
      && (!p.Gone? && !p.Dead? ==>
            Enabled(g, Act(i, Crash)) && Next(e, g, Act(i, Crash)) == g.(phases := g.phases[i := Dead]))
      && (p.Entered? ==>
            Enabled(g, Act(i, EnterFails)) && Next(e, g, Act(i, EnterFails)) == g.(phases := g.phases[i := Dead]))
  {
  }

  /** ... and every atomic write and every check can go any way. */
  lemma FailsAnywhere(p: Phase, now: int, w: Write, ok: bool)
    ensures p.Entered? ==> At(Guard(now, w), p)
    ensures p.Staging? ==> At(StageFails(ok), p) && At(Publish(w), p)
    ensures p.Staged? ==> At(PreHealth(ok), p)
    ensures p.Healthy? ==> At(WriteTrust(w), p)
    ensures p.TrustWritten? ==> At(WriteActive(w), p)
    ensures p.Activated? ==> At(PostHealth(ok), p)
    ensures p.Confirmed? ==> At(WriteCommit(w), p)
    ensures p.Failed? ==> At(WriteRollback(w), p)
  {
  }

  lemma ContinueOn(e: Platform, g: Global, trace: seq<Event>, ev: Event)
    requires Continue(e, g, trace).Some? && Enabled(Continue(e, g, trace).value, ev)
    ensures Continue(e, g, trace + [ev]) == Some(Next(e, Continue(e, g, trace).value, ev))
  {
    assert (trace + [ev])[..|trace|] == trace;
  }

  // ----- one installer by itself -----

  /** The actions of one installer from any standing. */
  function Path(e: Platform, i: nat, s: Solo, acts: seq<Action>): Option<Solo> {
    if acts == [] then Some(s) else
      var last := |acts| - 1;
      var before := Path(e, i, s, acts[..last]);
      if before.Some? && At(acts[last], before.value.phase) then Some(Step(e, i, acts[last], before.value)) else None
  }

  lemma Extend(e: Platform, i: nat, s: Solo, acts: seq<Action>, a: Action, t: Solo)
    requires Path(e, i, s, acts) == Some(t) && At(a, t.phase)
    ensures Path(e, i, s, acts + [a]) == Some(Step(e, i, a, t))
  {
    assert (acts + [a])[..|acts|] == acts;
  }

  // ----- laws of the platform -----

  ghost predicate Lawful(e: Platform) { CollisionFree(e) && Ordered(e) }

  /** The real compare_versions meets the order law, whatever SHA-256 is. */
  lemma RealComparisonIsOrdered(e: Platform)
    requires e.compare == SemVers.CompareVersions
    ensures Ordered(e)
  {
    forall s, t, u ensures OrderLaw(e, s, t, u) {
      if SemVers.ValidVersion(s) && SemVers.ValidVersion(t) {
        SemVers.CompareAntisymmetric(SemVers.Parse(s).value, SemVers.Parse(t).value);
        SemVers.VersionTextOrder(s, t, if SemVers.ValidVersion(u) then u else s);
      }
    }
  }

  // ----- safety -----

  ghost predicate LockInv(g: Global) {
    g.disk.lock.Some? ==> var p := PhaseOf(g, g.disk.lock.value); Holding(p) || p.Dead?
  }

  ghost predicate Safe(e: Platform, g: Global) {
    && DiskInv(e, g.disk, g.log)
    && (forall i: nat :: PhaseInv(e, i, View(g, i)))
    && LockInv(g)
  }

  /** While another installer holds the lock, an action changes nothing durable. */
  lemma OutsiderIsQuiet(e: Platform, i: nat, a: Action, s: Solo)
    requires At(a, s.phase) && !Holding(s.phase) && s.disk.lock.Some?
    ensures var t := Step(e, i, a, s); t.disk == s.disk && t.log == s.log && !Holding(t.phase)
  {
  }

  lemma LockAfterStep(e: Platform, i: nat, a: Action, s: Solo)
    requires At(a, s.phase) && (Holding(s.phase) ==> s.disk.lock == Some(i))
    ensures var t := Step(e, i, a, s);
            && (t.disk.lock.Some? ==> t.disk.lock == s.disk.lock || (t.disk.lock == Some(i) && Holding(t.phase)))
            && (s.disk.lock == Some(i) && Holding(s.phase) && t.disk.lock == Some(i) ==>
                  Holding(t.phase) || t.phase.Dead?)
  {
  }

  lemma ActKeepsPhases(e: Platform, g: Global, i: nat, a: Action, s: Solo)
    requires Safe(e, g) && At(a, PhaseOf(g, i)) && s == Step(e, i, a, View(g, i)) && PhaseInv(e, i, s)
    ensures var h := Global(s.disk, s.log, g.phases[i := s.phase]);
            forall k: nat :: PhaseInv(e, k, View(h, k))
  {
    var h := Global(s.disk, s.log, g.phases[i := s.phase]);
    forall k: nat ensures PhaseInv(e, k, View(h, k)) {
      assert PhaseInv(e, k, View(g, k)) && PhaseInv(e, i, View(g, i));
      if k == i {
        assert View(h, i) == s;
      } else if Holding(PhaseOf(g, k)) {
        OutsiderIsQuiet(e, i, a, View(g, i));
        assert View(h, k) == View(g, k);
      }
    }
  }

  lemma ActKeepsSafe(e: Platform, g: Global, i: nat, a: Action)
    requires Safe(e, g) && At(a, PhaseOf(g, i))
    ensures Safe(e, Next(e, g, Act(i, a)))
    ensures var h := Next(e, g, Act(i, a)); Grows(e, g.disk, g.log, h.disk, h.log)
  {
    assert PhaseInv(e, i, View(g, i));
    StepKeeps(e, i, a, View(g, i));
    ActKeepsPhases(e, g, i, a, Step(e, i, a, View(g, i)));
    LockAfterStep(e, i, a, View(g, i));
  }

  lemma NextKeepsSafe(e: Platform, g: Global, ev: Event)
    requires Safe(e, g) && Enabled(g, ev)
    ensures Safe(e, Next(e, g, ev))
    ensures var h := Next(e, g, ev); Grows(e, g.disk, g.log, h.disk, h.log)
  {
    match ev
    case Act(i, a) => ActKeepsSafe(e, g, i, a);
    case _ =>
      var h := Next(e, g, ev);
      SameGrows(e, g.disk, g.log, h.disk, h.log);
      forall k: nat ensures PhaseInv(e, k, View(h, k)) {
        assert PhaseInv(e, k, View(g, k));
      }
  }

  /** In every run the active and last-known-good pointers name published, unaltered generations that
      passed the health checks and stay within the recorded trust, and the lock has one holder. */
  lemma {:induction false} EveryRunIsSafe(e: Platform, trace: seq<Event>)
    requires Lawful(e) && Run(e, trace).Some?
    ensures Safe(e, Run(e, trace).value)
  {
    if trace != [] {
      var last := |trace| - 1;
      EveryRunIsSafe(e, trace[..last]);
      NextKeepsSafe(e, Run(e, trace[..last]).value, trace[last]);
    }
  }

  lemma {:induction false} RunPrefix(e: Platform, trace: seq<Event>, k: nat)
    requires k <= |trace| && Run(e, trace).Some?
    ensures Run(e, trace[..k]).Some?
    decreases |trace|
  {
    if k < |trace| {
      var last := |trace| - 1;
      RunPrefix(e, trace[..last], k);
      assert trace[..last][..k] == trace[..k];
    } else {
      assert trace[..k] == trace;
    }
  }

  lemma GrowsTransitive(e: Platform, a: Global, b: Global, c: Global)
    requires Ordered(e)
    requires Grows(e, a.disk, a.log, b.disk, b.log) && Grows(e, b.disk, b.log, c.disk, c.log)
    ensures Grows(e, a.disk, a.log, c.disk, c.log)
  {
    var h, k, l := Load(a.disk).highest, Load(b.disk).highest, Load(c.disk).highest;
    forall p | p in h
      ensures p in l && AtMost(e, h[p].version, l[p].version) && (h[p].version == l[p].version ==> h[p] == l[p])
    {
      assert OrderLaw(e, h[p].version, k[p].version, l[p].version);
      assert OrderLaw(e, k[p].version, l[p].version, h[p].version);
      assert OrderLaw(e, h[p].version, k[p].version, h[p].version);
    }
  }

  /** Between any two instants of a run, published generations stay unaltered, recorded versions do not
      go down, and one version keeps one manifest digest. */
  lemma {:induction false} TrustNeverRollsBack(e: Platform, trace: seq<Event>, k: nat)
    requires Lawful(e) && k <= |trace| && Run(e, trace).Some?
    ensures Run(e, trace[..k]).Some?
    ensures var g, h := Run(e, trace[..k]).value, Run(e, trace).value; Grows(e, g.disk, g.log, h.disk, h.log)
    decreases |trace|
  {
    RunPrefix(e, trace, k);
    if k == |trace| {
      assert trace[..k] == trace;
      EveryRunIsSafe(e, trace);
      var g := Run(e, trace).value;
      SameGrows(e, g.disk, g.log, g.disk, g.log);
    } else {
      var last := |trace| - 1;
      assert trace[..last][..k] == trace[..k];
      TrustNeverRollsBack(e, trace[..last], k);
      EveryRunIsSafe(e, trace[..last]);
      NextKeepsSafe(e, Run(e, trace[..last]).value, trace[last]);
      GrowsTransitive(e, Run(e, trace[..k]).value, Run(e, trace[..last]).value, Run(e, trace).value);
    }
  }

  /** No version of a pack is ever trusted with two digests, at any two instants. */
  lemma OneDigestPerVersion(e: Platform, trace: seq<Event>, j: nat, k: nat, pack: string)
    requires Lawful(e) && j <= |trace| && k <= |trace| && Run(e, trace).Some?
    requires Run(e, trace[..j]).Some? && Run(e, trace[..k]).Some?
    requires var g, h := Load(Run(e, trace[..j]).value.disk), Load(Run(e, trace[..k]).value.disk);
             && pack in g.highest && pack in h.highest
             && g.highest[pack].version == h.highest[pack].version
    ensures Load(Run(e, trace[..j]).value.disk).highest[pack] == Load(Run(e, trace[..k]).value.disk).highest[pack]
  {
    if j <= k {
      assert trace[..k][..j] == trace[..j];
      TrustNeverRollsBack(e, trace[..k], j);
    } else {
      assert trace[..j][..k] == trace[..k];
      TrustNeverRollsBack(e, trace[..j], k);
    }
  }

  /** At most one installer is between acquiring and releasing the lock. */
  lemma MutualExclusion(e: Platform, trace: seq<Event>, i: nat, k: nat)
    requires Lawful(e) && Run(e, trace).Some?
    requires Holding(PhaseOf(Run(e, trace).value, i)) && Holding(PhaseOf(Run(e, trace).value, k))
    ensures i == k
  {
    EveryRunIsSafe(e, trace);
    var g := Run(e, trace).value;
    assert PhaseInv(e, i, View(g, i)) && PhaseInv(e, k, View(g, k));
  }

  // ----- a dead lock holder -----

  predicate NoRecovery(trace: seq<Event>) {
    forall k :: 0 <= k < |trace| ==> trace[k].Act?
  }

  /** An installer that died holding the lock blocks all later ones: nothing durable changes until an
      administrator steps in, and nobody who was outside gets in. */
  lemma {:induction false} DeadHolderBlocks(e: Platform, g: Global, trace: seq<Event>)
    requires Safe(e, g) && g.disk.lock.Some? && PhaseOf(g, g.disk.lock.value).Dead?
    requires NoRecovery(trace) && Continue(e, g, trace).Some?
    ensures var h := Continue(e, g, trace).value;
            && h.disk == g.disk && h.log == g.log
            && PhaseOf(h, g.disk.lock.value).Dead?
            && forall i: nat :: !Holding(PhaseOf(h, i))
  {
    if trace == [] {
      forall i: nat ensures !Holding(PhaseOf(g, i)) { assert PhaseInv(e, i, View(g, i)); }
    } else {
      var last := |trace| - 1;
      DeadHolderBlocks(e, g, trace[..last]);
      var h := Continue(e, g, trace[..last]).value;
      var i := trace[last].who;
      OutsiderIsQuiet(e, i, trace[last].action, View(h, i));
      var n := Next(e, h, trace[last]);
      forall k: nat ensures !Holding(PhaseOf(n, k)) {
        assert PhaseOf(n, k) == if k == i then Step(e, i, trace[last].action, View(h, i)).phase else PhaseOf(h, k);
      }
    }
  }

  // ----- runs without crashes and failed writes -----

  predicate CleanWrite(a: Action) {
    match a
    case Guard(_, w) => w.Done?
    case Publish(w) => w.Done?
    case WriteTrust(w) => w.Done?
    case WriteActive(w) => w.Done?
    case WriteCommit(w) => w.Done?
    case WriteRollback(w) => w.Done?
    case _ => true
  }

  /** The trust record is written but the attempt is not settled. */
  predicate Unsettled(p: Phase) { p.TrustWritten? || p.Activated? || p.Confirmed? || p.Failed? }

  /** No crash, no failed write, and no interruption between the trust write and the settling write. */
  predicate Clean(g: Global, ev: Event) {
    ev.Act? ==>
      && CleanWrite(ev.action)
      && !ev.action.Crash? && !ev.action.EnterFails?
      && !(ev.action.Interrupt? && Unsettled(PhaseOf(g, ev.who)))
  }

  ghost predicate CleanRun(e: Platform, trace: seq<Event>) {
    forall k :: 0 <= k < |trace| && Run(e, trace[..k]).Some? ==> Clean(Run(e, trace[..k]).value, trace[k])
  }

  predicate Twin(s: RuntimeState) { s.active == s.lkg }

  /** The pointers may differ only between the active-pointer write and the write that settles it. */
  ghost predicate TwinSolo(s: Solo) {
    && (Unsettled(s.phase) ==> Twin(s.phase.job.loaded))
    && (s.phase.Activated? || s.phase.Confirmed? || s.phase.Failed? || Twin(Load(s.disk)))
  }

  lemma TwinStep(e: Platform, i: nat, a: Action, s: Solo)
    requires DiskInv(e, s.disk, s.log) && PhaseInv(e, i, s) && At(a, s.phase) && TwinSolo(s)
    requires CleanWrite(a) && !a.Crash? && !(a.Interrupt? && Unsettled(s.phase))
    ensures TwinSolo(Step(e, i, a, s))
  {
    if s.phase.Healthy? || Unsettled(s.phase) {
      RecordIsThePack(e, s.phase.job.loaded, s.phase.job.manifest);
    }
  }

  ghost predicate Settled(g: Global) {
    match g.disk.lock
    case None => Twin(Load(g.disk))
    case Some(i) => TwinSolo(View(g, i)) && Holding(PhaseOf(g, i))
  }

  lemma SettledBy(g: Global, i: nat, t: Solo)
    requires TwinSolo(t) && (t.disk.lock.None? || (t.disk.lock == Some(i) && Holding(t.phase)))
    requires t.disk.lock.None? ==> !Unsettled(t.phase)
    ensures Settled(Global(t.disk, t.log, g.phases[i := t.phase]))
  {
  }

  lemma UnlockedMeansOut(e: Platform, i: nat, a: Action, s: Solo)
    requires At(a, s.phase) && !a.Crash? && !a.EnterFails? && (Holding(s.phase) ==> s.disk.lock == Some(i))
    requires Holding(s.phase) || s.disk.lock.None?
    ensures var t := Step(e, i, a, s);
            if t.disk.lock.None? then !Unsettled(t.phase) else t.disk.lock == Some(i) && Holding(t.phase)
  {
  }

  lemma CleanActSettles(e: Platform, g: Global, ev: Event)
    requires Safe(e, g) && Settled(g) && ev.Act? && Enabled(g, ev) && Clean(g, ev)
    requires Holding(PhaseOf(g, ev.who)) || g.disk.lock.None?
    ensures Settled(Next(e, g, ev))
  {
    var i, s := ev.who, View(g, ev.who);
    assert PhaseInv(e, i, s);
    UnlockedMeansOut(e, i, ev.action, s);
    TwinStep(e, i, ev.action, s);
    SettledBy(g, i, Step(e, i, ev.action, s));
  }

  lemma OutsiderSettles(e: Platform, g: Global, ev: Event)
    requires Safe(e, g) && Settled(g) && ev.Act? && Enabled(g, ev)
    requires !Holding(PhaseOf(g, ev.who)) && g.disk.lock.Some?
    ensures Settled(Next(e, g, ev))
  {
    OutsiderIsQuiet(e, ev.who, ev.action, View(g, ev.who));
  }

  lemma CleanNextSettles(e: Platform, g: Global, ev: Event)
    requires Safe(e, g) && Settled(g) && Enabled(g, ev) && Clean(g, ev)
    ensures Settled(Next(e, g, ev))
  {
    if ev.Act? {
      if Holding(PhaseOf(g, ev.who)) || g.disk.lock.None? {
        CleanActSettles(e, g, ev);
      } else {
        OutsiderSettles(e, g, ev);
      }
    }
  }

  /** Without crashes and failed writes, active equals last-known-good whenever no install is in progress:
      a failed activation has been undone. */
  lemma {:induction false} CleanRunsSettle(e: Platform, trace: seq<Event>)
    requires Lawful(e) && Run(e, trace).Some? && CleanRun(e, trace)
    ensures Settled(Run(e, trace).value)
    ensures var d := Run(e, trace).value.disk; d.lock.None? ==> Load(d).active == Load(d).lkg
  {
    if trace != [] {
      var last := |trace| - 1;
      var before := trace[..last];
      assert forall k :: 0 <= k < last ==> before[..k] == trace[..k];
      CleanRunsSettle(e, before);
      EveryRunIsSafe(e, before);
      CleanNextSettles(e, Run(e, before).value, trace[last]);
    }
  }
}

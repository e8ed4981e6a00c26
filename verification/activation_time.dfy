/** The trusted-time floor over whole runs: it only rises, and what its loss means. */
module ActivationTime {
  import opened Wrappers
  import opened Activation
  import opened ActivationRuns

  predicate KeepsFloor(trace: seq<Event>) {
    forall k :: 0 <= k < |trace| ==> !trace[k].LoseFloor?
  }

  ghost predicate TimeInv(g: Global) {
    && (DurableTrust(g.disk) ==> g.disk.floor.Some?)
    && (forall i: nat :: PastGuard(PhaseOf(g, i)) ==> g.disk.floor.Some?)
    && (g.log.observed != [] ==> g.disk.floor.Some?)
    && (forall k :: 0 <= k < |g.log.observed| ==> g.log.observed[k] <= g.disk.floor.value)
    && (forall j, k :: 0 <= j < k < |g.log.observed| ==> g.log.observed[j] <= g.log.observed[k])
  }

  ghost predicate FloorRises(d: Disk, d2: Disk) {
    d.floor.Some? ==> d2.floor.Some? && d.floor.value <= d2.floor.value
  }

  lemma FloorStep(e: Platform, i: nat, a: Action, s: Solo)
    requires At(a, s.phase) && (PastGuard(s.phase) ==> s.disk.floor.Some?)
    requires DurableTrust(s.disk) ==> s.disk.floor.Some?
    ensures var t := Step(e, i, a, s);
            && FloorRises(s.disk, t.disk)
            && (DurableTrust(t.disk) || PastGuard(t.phase) ==> t.disk.floor.Some?)
            && (t.log.observed == s.log.observed
                || (t.disk.floor.Some? && t.log.observed == s.log.observed + [t.disk.floor.value]))
  {
  }

  lemma NextKeepsTime(e: Platform, g: Global, ev: Event)
    requires TimeInv(g) && Enabled(g, ev) && !ev.LoseFloor?
    ensures TimeInv(Next(e, g, ev)) && FloorRises(g.disk, Next(e, g, ev).disk)
  {
    var h := Next(e, g, ev);
    if ev.Act? {
      FloorStep(e, ev.who, ev.action, View(g, ev.who));
      forall k: nat | PastGuard(PhaseOf(h, k)) ensures h.disk.floor.Some? {
        if k != ev.who { assert PastGuard(PhaseOf(g, k)); }
      }
    } else {
      forall k: nat | PastGuard(PhaseOf(h, k)) ensures h.disk.floor.Some? { assert PastGuard(PhaseOf(g, k)); }
    }
  }

  /** The floor never decreases, every passing observation is at least every earlier one, and durable
      trust state exists only once the floor does. */
  lemma {:induction false} TimeNeverRollsBack(e: Platform, trace: seq<Event>, k: nat)
    requires k <= |trace| && Run(e, trace).Some? && KeepsFloor(trace)
    ensures TimeInv(Run(e, trace).value)
    ensures Run(e, trace[..k]).Some? && FloorRises(Run(e, trace[..k]).value.disk, Run(e, trace).value.disk)
    decreases |trace|
  {
    RunPrefix(e, trace, k);
    if trace != [] {
      var last := |trace| - 1;
      var m := if k == |trace| then last else k;
      assert trace[..last][..m] == trace[..m];
      TimeNeverRollsBack(e, trace[..last], m);
      NextKeepsTime(e, Run(e, trace[..last]).value, trace[last]);
    }
    assert trace[..|trace|] == trace;
  }

  // ----- a lost floor -----

  /** The phases after verification, which has stored TUF metadata. */
  predicate HasVerified(p: Phase) { PastGuard(p) && !p.Guarded? }

  ghost predicate TufInv(g: Global) {
    && (g.disk.staging != {} ==> g.disk.tufCache)
    && forall i: nat :: HasVerified(PhaseOf(g, i)) ==> g.disk.tufCache
  }

  lemma TufStep(e: Platform, i: nat, a: Action, s: Solo)
    requires At(a, s.phase) && (HasVerified(s.phase) || s.disk.staging != {} ==> s.disk.tufCache)
    ensures var t := Step(e, i, a, s);
            && (HasVerified(t.phase) || t.disk.staging != {} ==> t.disk.tufCache)
            && (s.disk.tufCache ==> t.disk.tufCache)
  {
  }

  lemma {:induction false} RunKeepsTuf(e: Platform, trace: seq<Event>)
    requires Run(e, trace).Some?
    ensures TufInv(Run(e, trace).value)
  {
    if trace != [] {
      var last := |trace| - 1;
      RunKeepsTuf(e, trace[..last]);
      var g, h, ev := Run(e, trace[..last]).value, Run(e, trace).value, trace[last];
      if ev.Act? { TufStep(e, ev.who, ev.action, View(g, ev.who)); }
      forall k: nat | HasVerified(PhaseOf(h, k)) ensures h.disk.tufCache {
        if !ev.Act? || k != ev.who { assert HasVerified(PhaseOf(g, k)); }
      }
    }
  }

  /** Trust state that no installer removes. */
  predicate Lasting(d: Disk) { d.state.Some? || d.tufCache || d.generations != map[] }

  lemma StrandedStep(e: Platform, i: nat, a: Action, s: Solo)
    requires At(a, s.phase) && s.disk.floor.None? && Lasting(s.disk)
    ensures var t := Step(e, i, a, s);
            && t.disk.floor.None? && Lasting(t.disk)
            && (!PastGuard(s.phase) ==> !PastGuard(t.phase) && t.disk.(lock := None) == s.disk.(lock := None))
  {
  }

  /** Without the floor, over trust state, nobody who is not past the guard gets past it any more, even while
      another install is still in progress. */
  lemma {:induction false} LostFloorRefusesInstalls(e: Platform, g: Global, cont: seq<Event>, i: nat)
    requires g.disk.floor.None? && Lasting(g.disk) && !PastGuard(PhaseOf(g, i)) && Continue(e, g, cont).Some?
    ensures var h := Continue(e, g, cont).value;
            h.disk.floor.None? && Lasting(h.disk) && !PastGuard(PhaseOf(h, i))
  {
    if cont != [] {
      var last := |cont| - 1;
      LostFloorRefusesInstalls(e, g, cont[..last], i);
      var h, ev := Continue(e, g, cont[..last]).value, cont[last];
      if ev.Act? { StrandedStep(e, ev.who, ev.action, View(h, ev.who)); }
    }
  }

  ghost predicate NobodyPast(g: Global) { forall i: nat :: !PastGuard(PhaseOf(g, i)) }

  /** Once nobody is past the guard, nothing but the lock file changes. */
  lemma {:induction false} LostFloorFreezes(e: Platform, g: Global, cont: seq<Event>)
    requires g.disk.floor.None? && Lasting(g.disk) && NobodyPast(g) && Continue(e, g, cont).Some?
    ensures var h := Continue(e, g, cont).value;
            NobodyPast(h) && h.disk.(lock := None) == g.disk.(lock := None)
  {
    forall i: nat ensures !PastGuard(PhaseOf(Continue(e, g, cont).value, i)) { LostFloorRefusesInstalls(e, g, cont,
        i); }
    if cont != [] {
      var last := |cont| - 1;
      LostFloorFreezes(e, g, cont[..last]);
      var h, ev := Continue(e, g, cont[..last]).value, cont[last];
      if ev.Act? {
        assert !PastGuard(PhaseOf(h, ev.who));
        StrandedStep(e, ev.who, ev.action, View(h, ev.who));
      }
    }
  }

  /** Before trust state exists a lost floor goes unnoticed: whoever comes next passes the guard at any time. */
  lemma EarlyLossForgetsTime(e: Platform, g: Global, i: nat, now: int)
    requires g.disk.floor.None? && !DurableTrust(g.disk) && g.disk.lock.None? && PhaseOf(g, i).Idle?
    ensures var h := Continue(e, g, [Act(i, Acquire), Act(i, Guard(now, Done))]);
            h.Some? && Passed(g, h.value, i, now)
  {
    ContinueOn(e, g, [], Act(i, Acquire));
    ContinueOn(e, g, [] + [Act(i, Acquire)], Act(i, Guard(now, Done)));
    assert [] + [Act(i, Acquire)] + [Act(i, Guard(now, Done))] == [Act(i, Acquire), Act(i, Guard(now, Done))];
  }

  predicate Passed(g: Global, h: Global, i: nat, now: int) {
    PastGuard(PhaseOf(h, i)) && h.disk.floor == Some(now) && h.log.observed == g.log.observed + [now]
  }

  /** Whoever holds the lock can be made to give it back, without touching floor or trust state. */
  lemma FreeTheLock(e: Platform, g: Global) returns (cont: seq<Event>)
    requires Safe(e, g) && g.disk.lock.Some? && !PhaseOf(g, g.disk.lock.value).Entered?
    ensures Continue(e, g, cont).Some?
    ensures var h := Continue(e, g, cont).value;
            && h.disk == g.disk.(lock := None) && h.log == g.log
            && forall k: nat :: k != g.disk.lock.value ==> PhaseOf(h, k) == PhaseOf(g, k)
  {
    var i := g.disk.lock.value;
    assert PhaseInv(e, i, View(g, i));
    if PhaseOf(g, i).Dead? {
      cont := [] + [AdminUnlock];
      ContinueOn(e, g, [], AdminUnlock);
    } else if PhaseOf(g, i).Leaving? {
      cont := [] + [Act(i, Release)];
      ContinueOn(e, g, [], Act(i, Release));
    } else {
      cont := [] + [Act(i, Interrupt)] + [Act(i, Release)];
      ContinueOn(e, g, [], Act(i, Interrupt));
      ContinueOn(e, g, [] + [Act(i, Interrupt)], Act(i, Release));
    }
  }

  lemma {:induction false} JoinRuns(e: Platform, g: Global, one: seq<Event>, two: seq<Event>)
    requires Continue(e, g, one).Some? && Continue(e, Continue(e, g, one).value, two).Some?
    ensures Continue(e, g, one + two) == Continue(e, Continue(e, g, one).value, two)
  {
    if two == [] {
      assert one + two == one;
    } else {
      var last := |two| - 1;
      JoinRuns(e, g, one, two[..last]);
      assert one + two == one + two[..last] + [two[last]];
      ContinueOn(e, g, one + two[..last], two[last]);
    }
  }

  /** A number above every installer seen so far. */
  ghost function Fresh(S: set<nat>): (n: nat)
    ensures forall x :: x in S ==> x < n
  {
    if S == {} then 0 else
      var x :| x in S;
      var n := Fresh(S - {x});
      assert forall y :: y in S ==> y == x || y in S - {x};
      if x < n then n else x + 1
  }

  lemma SomebodyPasses(e: Platform, g: Global, now: int) returns (cont: seq<Event>, i: nat)
    requires Safe(e, g) && g.disk.floor.None? && !DurableTrust(g.disk)
    ensures !PastGuard(PhaseOf(g, i)) && Continue(e, g, cont).Some? && Passed(g, Continue(e, g, cont).value, i, now)
  {
    if g.disk.lock.Some? && PhaseOf(g, g.disk.lock.value).Entered? {
      i := g.disk.lock.value;
      cont := [] + [Act(i, Guard(now, Done))];
      ContinueOn(e, g, [], Act(i, Guard(now, Done)));
      return;
    }
    i := Fresh(g.phases.Keys);
    var h := g;
    cont := [];
    if g.disk.lock.Some? {
      assert PhaseInv(e, g.disk.lock.value, View(g, g.disk.lock.value));
      cont := FreeTheLock(e, g);
      h := Continue(e, g, cont).value;
    }
    EarlyLossForgetsTime(e, h, i, now);
    JoinRuns(e, g, cont, [Act(i, Acquire), Act(i, Guard(now, Done))]);
    cont := cont + [Act(i, Acquire), Act(i, Guard(now, Done))];
  }

  /** No continuation takes anybody past the guard who is not past it now. */
  ghost predicate ShutOut(e: Platform, g: Global) {
    forall cont: seq<Event>, i: nat {:trigger PhaseOf(g, i), Continue(e, g, cont)} ::
      Continue(e, g, cont).Some? && !PastGuard(PhaseOf(g, i)) ==> !PastGuard(PhaseOf(Continue(e, g, cont).value, i))
  }

  /** At any point of a run where the floor is missing, later installs are refused exactly when durable trust
      state exists; otherwise an install can pass the guard at any time, however early. */
  lemma FloorLossIff(e: Platform, trace: seq<Event>)
    requires Lawful(e) && Run(e, trace).Some? && Run(e, trace).value.disk.floor.None?
    ensures DurableTrust(Run(e, trace).value.disk) <==> ShutOut(e, Run(e, trace).value)
  {
    var g := Run(e, trace).value;
    RunKeepsTuf(e, trace);
    if DurableTrust(g.disk) {
      forall cont: seq<Event>, i: nat | Continue(e, g, cont).Some? && !PastGuard(PhaseOf(g, i))
        ensures !PastGuard(PhaseOf(Continue(e, g, cont).value, i))
      {
        LostFloorRefusesInstalls(e, g, cont, i);
      }
    } else {
      EveryRunIsSafe(e, trace);
      var cont, i := SomebodyPasses(e, g, 0);
      assert PastGuard(PhaseOf(Continue(e, g, cont).value, i));
    }
  }
}

/** The runtime root as the program mutates it. Every method is one stretch of the installer's code;
    its contract says which actions of the step machine it took. */
module ActivationRuntime {
  import opened Wrappers
  import opened Activation
  import opened ActivationRuns

  /** What the environment decides: which writes fail and what the two health checks say. */
  datatype Weather = Weather(publish: Write, pre: bool, trust: Write, activate: Write, post: bool, settle: Write)

  lemma {:induction false} Follow(e: Platform, i: nat, s: Solo, acts: seq<Action>, t: Solo, more: seq<Action>)
    requires Path(e, i, s, acts) == Some(t) && Path(e, i, t, more).Some?
    ensures Path(e, i, s, acts + more) == Path(e, i, t, more)
  {
    if more == [] {
      assert acts + more == acts;
    } else {
      var last := |more| - 1;
      Follow(e, i, s, acts, t, more[..last]);
      assert (acts + more)[..|acts + more| - 1] == acts + more[..last];
      assert (acts + more)[|acts + more| - 1] == more[last];
    }
  }

  lemma {:induction false} PathKeeps(e: Platform, i: nat, s: Solo, acts: seq<Action>)
    requires DiskInv(e, s.disk, s.log) && PhaseInv(e, i, s) && Path(e, i, s, acts).Some?
    ensures Keeps(e, i, s, Path(e, i, s, acts).value)
  {
    if acts == [] {
      SameGrows(e, s.disk, s.log, s.disk, s.log);
    } else {
      var last := |acts| - 1;
      PathKeeps(e, i, s, acts[..last]);
      var b := Path(e, i, s, acts[..last]).value;
      var t := Path(e, i, s, acts).value;
      StepKeeps(e, i, acts[last], b);
      GrowsTransitive(e, Global(s.disk, s.log, map[]), Global(b.disk, b.log, map[]), Global(t.disk, t.log, map[]));
    }
  }

  lemma CallKeeps(e: Platform, i: nat, s: Solo, acts: seq<Action>)
    requires s.phase.Idle? && Path(e, i, s, acts).Some?
    ensures DiskInv(e, s.disk, s.log) ==> Keeps(e, i, s, Path(e, i, s, acts).value)
  {
    if DiskInv(e, s.disk, s.log) { PathKeeps(e, i, s, acts); }
  }

  // ----- what an undisturbed installer does -----

  /** The actions the code takes inside _install_verified_generation_locked, with the outcomes it was dealt:
      no interruption, no crash. At each phase at most one of them applies, so they fix the whole path. */
  predicate Undisturbed(w: Weather, a: Action) {
    match a
    case CheckRollback => true
    case BeginStage => true
    case Publish(outcome) => outcome == w.publish
    case PreHealth(healthy) => healthy == w.pre
    case WriteTrust(outcome) => outcome == w.trust
    case WriteActive(outcome) => outcome == w.activate
    case PostHealth(healthy) => healthy == w.post
    case WriteCommit(outcome) => outcome == w.settle
    case WriteRollback(outcome) => outcome == w.settle
    case _ => false
  }

  predicate Obeys(w: Weather, acts: seq<Action>) { forall k :: 0 <= k < |acts| ==> Undisturbed(w, acts[k]) }

  /** The two actions that can be taken at one phase are one. */
  lemma OneWay(w: Weather, a: Action, b: Action, p: Phase)
    requires Undisturbed(w, a) && Undisturbed(w, b) && At(a, p) && At(b, p)
    ensures a == b
  {
  }

  lemma NoWayOn(w: Weather, a: Action, p: Phase)
    requires Undisturbed(w, a) && p.Leaving?
    ensures !At(a, p)
  {
  }

  lemma Takes(e: Platform, i: nat, s: Solo, acts: seq<Action>, k: nat)
    requires k < |acts| && Path(e, i, s, acts).Some?
    ensures Path(e, i, s, acts[..k]).Some? && At(acts[k], Path(e, i, s, acts[..k]).value.phase)
  {
    PathPrefix(e, i, s, acts, k + 1);
    assert acts[..k + 1][..k] == acts[..k];
  }

  /** An obedient path stops where it leaves. */
  lemma StopsAt(e: Platform, i: nat, w: Weather, s: Solo, acts: seq<Action>, k: nat)
    requires k <= |acts| && Obeys(w, acts) && Path(e, i, s, acts).Some?
    requires Path(e, i, s, acts[..k]).Some? && Path(e, i, s, acts[..k]).value.phase.Leaving?
    ensures k == |acts|
  {
    if k < |acts| {
      Takes(e, i, s, acts, k);
      NoWayOn(w, acts[k], Path(e, i, s, acts[..k]).value.phase);
    }
  }

  /** Two obedient paths do not part. */
  lemma NeverPart(e: Platform, i: nat, w: Weather, s: Solo, one: seq<Action>, two: seq<Action>, n: nat)
    requires n < |one| && n < |two| && one[..n] == two[..n]
    requires Obeys(w, one) && Obeys(w, two) && Path(e, i, s, one).Some? && Path(e, i, s, two).Some?
    ensures one[n] == two[n]
  {
    Takes(e, i, s, one, n);
    Takes(e, i, s, two, n);
    OneWay(w, one[n], two[n], Path(e, i, s, one[..n]).value.phase);
  }

  /** Obedient actions to the end of an install are the same actions. */
  lemma OnePath(e: Platform, i: nat, w: Weather, s: Solo, one: seq<Action>, two: seq<Action>)
    requires Obeys(w, one) && Obeys(w, two) && Path(e, i, s, one).Some? && Path(e, i, s, two).Some?
    requires Path(e, i, s, one).value.phase.Leaving? && Path(e, i, s, two).value.phase.Leaving?
    ensures one == two
  {
    var n := Shared(one, two);
    if n < |one| && n < |two| {
      NeverPart(e, i, w, s, one, two, n);
    } else if n == |one| {
      assert two[..n] == one;
      StopsAt(e, i, w, s, two, n);
    } else {
      assert one[..n] == two;
      StopsAt(e, i, w, s, one, n);
    }
  }

  /** The length of the longest common prefix. */
  function Shared(a: seq<Action>, b: seq<Action>): (n: nat)
    ensures n <= |a| && n <= |b| && a[..n] == b[..n]
    ensures n < |a| && n < |b| ==> a[n] != b[n]
  {
    if a == [] || b == [] || a[0] != b[0] then 0 else
      var n := Shared(a[1..], b[1..]);
      assert a[..n + 1] == [a[0]] + a[1..][..n] && b[..n + 1] == [b[0]] + b[1..][..n];
      n + 1
  }

  lemma {:induction false} PathPrefix(e: Platform, i: nat, s: Solo, acts: seq<Action>, k: nat)
    requires k <= |acts| && Path(e, i, s, acts).Some?
    ensures Path(e, i, s, acts[..k]).Some?
    decreases |acts|
  {
    if k < |acts| {
      var last := |acts| - 1;
      PathPrefix(e, i, s, acts[..last], k);
      assert acts[..last][..k] == acts[..k];
    } else {
      assert acts[..k] == acts;
    }
  }

  // ----- when an install succeeds -----

  /** Staging finds the generation or manages to publish it. */
  predicate Stages(e: Platform, d: Disk, m: Manifest, w: Weather) {
    e.sha(m) in d.generations || (m.packId != "" && ValidVersion(e, m.packVersion) && w.publish.Done?)
  }

  /** Nothing stands between this pack and the second health check, and the settling write works. */
  predicate Installable(e: Platform, d: Disk, m: Manifest, w: Weather) {
    && MayFollow(e, Load(d), m)
    && m.packId != "" && ValidVersion(e, m.packVersion)
    && (e.sha(m) in d.generations || w.publish.Done?)
    && w.pre && w.trust.Done? && w.activate.Done? && w.settle.Done?
  }

  predicate GuardPasses(d: Disk, now: int, clock: Write) {
    if d.floor.Some? then now == d.floor.value || (now > d.floor.value && clock.Done?)
    else !DurableTrust(d) && clock.Done?
  }

  /** The trust record of m is in place and everything else about it is as before. */
  predicate Recorded(e: Platform, before: RuntimeState, m: Manifest, after: RuntimeState) {
    after.highest == before.highest[m.packId := Trusted(m.packVersion, "sha256-" + e.sha(m))]
  }

  predicate Installed(e: Platform, before: RuntimeState, m: Manifest, after: RuntimeState) {
    Recorded(e, before, m, after) && after.active == after.lkg == Some(e.sha(m))
  }

  /** A failed activation is undone, and the trust record stays advanced. */
  predicate Restored(e: Platform, before: RuntimeState, m: Manifest, after: RuntimeState) {
    && Recorded(e, before, m, after)
    && after.lkg == before.lkg
    && after.active == if before.lkg.Some? then before.lkg else before.active
  }

  /** How an attempt past the guard ends over a sound disk d: the verification and the pack decide whether it gets
      to the second health check, and that check alone between committing and putting the old pointers back. */
  predicate Ends(e: Platform, d: Disk, verified: Option<Manifest>, w: Weather, after: Disk, r: Result<string>,
                 restored: bool)
  {
    var ready := verified.Some? && Installable(e, d, verified.value, w);
    && (r.Ok? <==> ready && w.post)
    && (restored <==> ready && !w.post)
    && (r.Ok? ==> r.value == e.sha(verified.value) && Installed(e, Load(d), verified.value, Load(after)))
    && (restored ==> Restored(e, Load(d), verified.value, Load(after)))
  }

  /** A refused time leaves at most a raised floor; a time that passes becomes the floor. */
  predicate Concludes(e: Platform, d: Disk, now: int, clock: Write, verified: Option<Manifest>, w: Weather,
                      after: Disk, r: Result<string>, restored: bool)
  {
    if GuardPasses(d, now, clock) then after.floor == Some(now) && Ends(e, d, verified, w, after, r, restored)
    else r.Err? && !restored && after == d.(lock := after.lock, floor := after.floor)
  }

  lemma LockIsNoMatter(e: Platform, d: Disk, log: History, now: int, clock: Write, verified: Option<Manifest>,
                       w: Weather,
                       after: Disk, r: Result<string>, restored: bool, one: Option<nat>, two: Option<nat>)
    ensures DiskInv(e, d.(lock := one), log) == DiskInv(e, d, log)
    ensures Concludes(e, d.(lock := one), now, clock, verified, w, after.(lock := two), r, restored)
         == Concludes(e, d, now, clock, verified, w, after, r, restored)
  {
  }

  lemma StatesAreValid(e: Platform, d: Disk, log: History, j: Job)
    requires DiskInv(e, d, log) && j.loaded == Load(d) && RollbackCheck(e, j.loaded, j.manifest) == Ok(j.record)
    ensures j.record == Trusted(j.manifest.packVersion, Digest(e, j.manifest))
    ensures ValidState(e, Advanced(j)) <==> j.manifest.packId != "" && ValidVersion(e, j.manifest.packVersion)
    ensures ValidState(e, Activating(e, j)) <==> ValidState(e, Advanced(j))
    ensures ValidState(e, Committed(e, j)) <==> ValidState(e, Advanced(j))
    ensures ValidState(e, RolledBack(j)) <==> ValidState(e, Advanced(j))
  {
    RecordIsThePack(e, j.loaded, j.manifest);
    assert Advanced(j).highest[j.manifest.packId] == j.record;
    assert j.manifest.packId in Advanced(j).highest;
    assert Activating(e, j).highest == Committed(e, j).highest == RolledBack(j).highest == Advanced(j).highest;
  }

  class RuntimeRoot {
    var lock: Option<nat>
    var floor: Option<int>
    var tufCache: bool
    var staging: set<nat>
    var generations: map<string, Generation>
    var state: Option<RuntimeState>
    ghost var log: History

    ghost function Contents(): Disk
      reads this
    {
      Disk(lock, floor, tufCache, staging, generations, state)
    }

    ghost function At(p: Phase): Solo
      reads this
    {
      Solo(Contents(), log, p)
    }

    constructor ()
      ensures Contents() == START.disk && log == START.log
    {
      lock, floor, tufCache, staging, generations, state := None, None, false, {}, map[], None;
      log := History([], {}, {});
    }

    /** load_runtime_state */
    method LoadState() returns (s: RuntimeState)
      ensures s == Load(Contents())
    {
      match state {
        case None => s := DEFAULT_STATE;
        case Some(v) => s := v;
      }
    }

    /** _write_runtime_state through _atomic_write_json */
    method WriteRuntimeState(e: Platform, s: RuntimeState, w: Write, ghost p: Phase) returns (ok: bool)
      modifies this`state
      ensures At(if ok then p else Leaving(false)) == WriteState(e, old(At(p)), s, w, p)
      ensures ok <==> ValidState(e, s) && w.Done?
    {
      ok := w.Done?;
      if !ValidState(e, s) {
        ok := false;
      } else if !w.Lost? {
        state := Some(s);
      }
    }

    /** RuntimeLock.__enter__ */
    method Enter(me: nat) returns (ok: bool)
      modifies this`lock
      ensures At(if ok then Entered else Gone(false)) == TryLock(me, old(At(Idle)))
      ensures ok <==> old(lock).None?
    {
      ok := lock.None?;
      if ok { lock := Some(me); }
    }

    /** RuntimeLock.__exit__ */
    method Exit()
      modifies this`lock
      ensures Contents() == old(Contents()).(lock := None)
    {
      lock := None;
    }

    method DurableTrustStateExists() returns (b: bool)
      ensures b == DurableTrust(Contents())
    {
      b := state.Some? || tufCache || staging != {} || generations != map[];
    }

    method GuardTrustedTime(now: int, w: Write) returns (ok: bool)
      modifies this`floor, this`log
      ensures At(if ok then Guarded else Leaving(false)) == GuardTime(old(At(Entered)), now, w)
    {
      ghost var passed := log.(observed := log.observed + [now]);
      if floor.Some? {
        if now < floor.value { return false; }
        if now == floor.value {
          log := passed;
          return true;
        }
      } else {
        var durable := DurableTrustStateExists();
        if durable { return false; }
      }
      if w.Lost? { return false; }
      floor := Some(now);
      if w.Raised? { return false; }
      log := passed;
      return true;
    }

    /** _stage_generation: reuse an existing directory, or build one aside and rename it into place. */
    method StageGeneration(e: Platform, me: nat, ghost j: Job, m: Manifest, w: Write)
      returns (ok: bool, ghost acts: seq<Action>)
      requires j.manifest == m
      modifies this`staging, this`generations
      ensures Path(e, me, old(At(Checked(j))), acts) == Some(At(if ok then Staged(j) else Leaving(false)))
      ensures forall weather: Weather :: weather.publish == w ==> Obeys(weather, acts)
      ensures DiskInv(e, old(Contents()), old(log)) ==>
        (ok <==> e.sha(m) in old(generations) || (m.packId != "" && ValidVersion(e, m.packVersion) && w.Done?))
      ensures DiskInv(e, old(Contents()), old(log)) && ok ==>
        generations == old(generations)[e.sha(m) := Generation(e.sha(m), m.packId, m.packVersion, "sha256-" + e.sha(m))]
    {
      ghost var start := At(Checked(j));
      var id := e.sha(m);
      Extend(e, me, start, [], BeginStage, start);
      acts := [] + [BeginStage];
      if id in generations {
        ok := generations[id].id == id && generations[id].digest == Digest(e, m);
        return;
      }
      staging := staging + {me};
      var g := Metadata(e, m);
      Extend(e, me, start, acts, Publish(w), At(Staging(j)));
      acts := acts + [Publish(w)];
      staging := staging - {me};
      if !ValidMetadata(e, g) || w.Lost? { return false, acts; }
      generations := generations[id := g];
      ok := w.Done?;
    }

    /** _install_verified_generation_locked, up to the first health check. */
    method Prepare(e: Platform, me: nat, m: Manifest, weather: Weather)
      returns (r: Result<Job>, ghost acts: seq<Action>)
      modifies this`staging, this`generations, this`log
      ensures Path(e, me, old(At(Verified(m))), acts) == Some(At(if r.Ok? then Healthy(r.value) else Leaving(false)))
      ensures Obeys(weather, acts) && state == old(state)
      ensures r.Ok? ==> weather.pre && RollbackCheck(e, Load(Contents()), m) == Ok(r.value.record)
                        && r.value.manifest == m && r.value.loaded == Load(Contents())
      ensures DiskInv(e, old(Contents()), old(log)) ==>
        (r.Ok? <==> MayFollow(e, Load(Contents()), m) && Stages(e, old(Contents()), m, weather) && weather.pre)
    {
      ghost var start := At(Verified(m));
      var loaded := LoadState();
      Extend(e, me, start, [], CheckRollback, start);
      acts := [] + [CheckRollback];
      var check := RollbackCheck(e, loaded, m);
      if DiskInv(e, old(Contents()), old(log)) { RollbackCheckIff(e, loaded, m); }
      if check.Err? { return Err(check.error), acts; }
      var j := Job(m, loaded, check.value);

      var staged, stageActs := StageGeneration(e, me, j, m, weather.publish);
      Follow(e, me, start, acts, old(At(Checked(j))), stageActs);
      acts := acts + stageActs;
      if !staged { return Err("generation could not be staged"), acts; }

      Extend(e, me, start, acts, PreHealth(weather.pre), At(Staged(j)));
      acts := acts + [PreHealth(weather.pre)];
      if !weather.pre { return Err("health check failed"), acts; }
      log := log.(healthy := log.healthy + {e.sha(m)});
      r := Ok(j);
    }

    /** The trust record first, then the active pointer. */
    method Activate(e: Platform, me: nat, j: Job, weather: Weather) returns (ok: bool, ghost acts: seq<Action>)
      requires Load(Contents()) == j.loaded
      modifies this`state
      ensures Path(e, me, old(At(Healthy(j))), acts) == Some(At(if ok then Activated(j) else Leaving(false)))
      ensures Obeys(weather, acts)
      ensures ok ==> Load(Contents()) == Activating(e, j)
      ensures ok <==> ValidState(e, Advanced(j)) && weather.trust.Done?
                      && ValidState(e, Activating(e, j)) && weather.activate.Done?
    {
      ghost var start := At(Healthy(j));
      Extend(e, me, start, [], WriteTrust(weather.trust), start);
      acts := [] + [WriteTrust(weather.trust)];
      ok := WriteRuntimeState(e, Advanced(j), weather.trust, TrustWritten(j));
      if ok {
        Extend(e, me, start, acts, WriteActive(weather.activate), At(TrustWritten(j)));
        acts := acts + [WriteActive(weather.activate)];
        ok := WriteRuntimeState(e, Activating(e, j), weather.activate, Activated(j));
      }
    }

    /** The second health check decides: commit the last-known-good pointer, or put the old one back. */
    method Settle(e: Platform, me: nat, j: Job, weather: Weather)
      returns (ok: bool, restored: bool, ghost acts: seq<Action>)
      modifies this`state, this`log
      ensures Path(e, me, old(At(Activated(j))), acts) == Some(At(Leaving(ok)))
      ensures Obeys(weather, acts)
      ensures ok <==> weather.post && weather.settle.Done? && ValidState(e, Committed(e, j))
      ensures restored <==> !weather.post && weather.settle.Done? && ValidState(e, RolledBack(j))
      ensures ok ==> Load(Contents()) == Committed(e, j)
      ensures restored ==> Load(Contents()) == RolledBack(j)
    {
      ghost var start := At(Activated(j));
      Extend(e, me, start, [], PostHealth(weather.post), start);
      acts := [] + [PostHealth(weather.post)];
      if !weather.post {
        Extend(e, me, start, acts, WriteRollback(weather.settle), At(Failed(j)));
        acts := acts + [WriteRollback(weather.settle)];
        restored := WriteRuntimeState(e, RolledBack(j), weather.settle, Leaving(false));
        return false, restored, acts;
      }
      log := log.(confirmed := log.confirmed + {e.sha(j.manifest)});
      Extend(e, me, start, acts, WriteCommit(weather.settle), At(Confirmed(j)));
      acts := acts + [WriteCommit(weather.settle)];
      ok := WriteRuntimeState(e, Committed(e, j), weather.settle, Leaving(true));
      restored := false;
    }

    /** _install_verified_generation_locked */
    method InstallVerifiedLocked(e: Platform, me: nat, m: Manifest, weather: Weather)
      returns (r: Result<string>, restored: bool, ghost acts: seq<Action>)
      modifies this`staging, this`generations, this`state, this`log
      // a path of the machine, and the only one that the outcomes dealt leave open
      ensures Path(e, me, old(At(Verified(m))), acts) == Some(At(Leaving(r.Ok?))) && Obeys(weather, acts)
      // the second health check alone decides between committing and putting the old pointers back
      ensures DiskInv(e, old(Contents()), old(log)) ==>
        && (r.Ok? <==> Installable(e, old(Contents()), m, weather) && weather.post)
        && (restored <==> Installable(e, old(Contents()), m, weather) && !weather.post)
        && (r.Ok? ==> r.value == e.sha(m) && Installed(e, old(Load(Contents())), m, Load(Contents())))
        && (restored ==> Restored(e, old(Load(Contents())), m, Load(Contents())))
      ensures r.Ok? ==> r.value == e.sha(m) && Load(Contents()).active == Load(Contents()).lkg == Some(e.sha(m))
      // a refusal before the trust write leaves the runtime state as it was
      ensures !weather.pre ==> r.Err? && state == old(state)
      ensures DiskInv(e, old(Contents()), old(log)) && !MayFollow(e, old(Load(Contents())), m) ==>
        r.Err? && state == old(state)
    {
      ghost var start := At(Verified(m));
      restored := false;
      var prepared;
      prepared, acts := Prepare(e, me, m, weather);
      if prepared.Err? { return Err(prepared.error), false, acts; }
      var j := prepared.value;
      if DiskInv(e, old(Contents()), old(log)) { StatesAreValid(e, old(Contents()), old(log), j); }

      ghost var middle, here := [], At(Healthy(j));
      var ok;
      ok, middle := Activate(e, me, j, weather);
      Follow(e, me, start, acts, here, middle);
      acts := acts + middle;
      if !ok { return Err("state write failed"), false, acts; }

      here := At(Activated(j));
      ok, restored, middle := Settle(e, me, j, weather);
      Follow(e, me, start, acts, here, middle);
      acts := acts + middle;
      r := if ok then Ok(e.sha(m)) else Err("activation was not committed");
    }

    /** install_atlaspack: verified is what extraction and TUF verification made of the archive;
        touched says whether a refused archive got as far as storing TUF metadata. */
    method InstallAtlaspack(e: Platform, me: nat, now: int, clock: Write, touched: bool, verified: Option<Manifest>,
                            weather: Weather)
      returns (r: Result<string>, ghost restored: bool, ghost acts: seq<Action>)
      modifies this
      // the call is one installer of the step machine, from outside the lock to outside the lock
      ensures Path(e, me, old(At(Idle)), acts) == Some(At(Gone(r.Ok?)))
      // so it keeps every invariant of the runtime root and lowers no trust record
      ensures DiskInv(e, old(Contents()), old(log)) ==> Keeps(e, me, old(At(Idle)), At(Gone(r.Ok?)))
      // over a sound disk with the lock free, it concludes as the guard, the pack and the health checks say
      ensures DiskInv(e, old(Contents()), old(log)) && old(lock).None? ==>
        Concludes(e, old(Contents()), now, clock, verified, weather, Contents(), r, restored)
      // a pack that does not verify leaves nothing but the floor and perhaps TUF metadata
      ensures old(lock).None? && GuardPasses(old(Contents()), now, clock) && verified.None? ==>
        Contents() == old(Contents()).(floor := Some(now), tufCache := old(tufCache) || touched)
      ensures old(lock).Some? ==> r.Err? && Contents() == old(Contents())
      ensures old(lock).None? ==> lock.None?
      ensures old(floor).None? && DurableTrust(old(Contents())) ==> r.Err? && Contents() == old(Contents())
      ensures old(floor).Some? && now < old(floor).value ==> r.Err? && Contents() == old(Contents())
    {
      ghost var start := At(Idle);
      Extend(e, me, start, [], Acquire, start);
      acts := [] + [Acquire];
      var ok := Enter(me);
      if !ok {
        r, restored := Err("runtime install lock already exists"), false;
        CallKeeps(e, me, start, acts);
        return;
      }
      r, restored, acts := InstallUnderLock(e, me, now, clock, touched, verified, weather, start, acts);
      Extend(e, me, start, acts, Release, At(Leaving(r.Ok?)));
      acts := acts + [Release];
      Exit();
      LockIsNoMatter(e, old(Contents()), old(log), now, clock, verified, weather, Contents(), r, restored, Some(me),
          Some(me));
      CallKeeps(e, me, start, acts);
    }

    /** The body of the with-statement: time guard, verification, installation. */
    method InstallUnderLock(e: Platform, me: nat, now: int, clock: Write, touched: bool, verified: Option<Manifest>,
                            weather: Weather, ghost start: Solo, ghost before: seq<Action>)
      returns (r: Result<string>, ghost restored: bool, ghost acts: seq<Action>)
      requires Path(e, me, start, before) == Some(At(Entered))
      modifies this`floor, this`tufCache, this`staging, this`generations, this`state, this`log
      ensures Path(e, me, start, acts) == Some(At(Leaving(r.Ok?)))
      ensures DiskInv(e, old(Contents()), old(log)) ==>
        Concludes(e, old(Contents()), now, clock, verified, weather, Contents(), r, restored)
      ensures GuardPasses(old(Contents()), now, clock) && verified.None? ==>
        Contents() == old(Contents()).(floor := Some(now), tufCache := old(tufCache) || touched)
      ensures r.Ok? ==> Load(Contents()).active == Load(Contents()).lkg == Some(r.value)
      ensures old(floor).None? && DurableTrust(old(Contents())) ==> r.Err? && Contents() == old(Contents())
      ensures old(floor).Some? && now < old(floor).value ==> r.Err? && Contents() == old(Contents())
    {
      Extend(e, me, start, before, Guard(now, clock), At(Entered));
      acts := before + [Guard(now, clock)];
      restored := false;
      var ok := GuardTrustedTime(now, clock);
      if !ok { return Err("trusted time refused"), false, acts; }
      if DiskInv(e, old(Contents()), old(log)) { QuietDisk(e, old(Contents()), old(log), Contents(), log); }
      r, restored, acts := VerifyAndInstall(e, me, touched, verified, weather, start, acts);
    }

    /** Verification of the extracted pack, then the installation proper. */
    method VerifyAndInstall(e: Platform, me: nat, touched: bool, verified: Option<Manifest>, weather: Weather,
                            ghost start: Solo, ghost before: seq<Action>)
      returns (r: Result<string>, ghost restored: bool, ghost acts: seq<Action>)
      requires Path(e, me, start, before) == Some(At(Guarded))
      modifies this`tufCache, this`staging, this`generations, this`state, this`log
      ensures Path(e, me, start, acts) == Some(At(Leaving(r.Ok?)))
      ensures DiskInv(e, old(Contents()), old(log)) ==>
        Ends(e, old(Contents()), verified, weather, Contents(), r, restored)
      ensures verified.None? ==> r.Err? && Contents() == old(Contents()).(tufCache := old(tufCache) || touched)
      ensures r.Ok? ==> Load(Contents()).active == Load(Contents()).lkg == Some(r.value)
    {
      acts, restored := before, false;
      // updater.refresh() stores TUF metadata before anything can be verified
      if touched || verified.Some? {
        Extend(e, me, start, acts, TouchTuf, At(Guarded));
        acts := acts + [TouchTuf];
        tufCache := true;
      }
      match verified {
        case None =>
          Extend(e, me, start, acts, Interrupt, At(Guarded));
          acts := acts + [Interrupt];
          r := Err("pack verification failed");
        case Some(m) =>
          Extend(e, me, start, acts, VerifyPack(m), At(Guarded));
          acts := acts + [VerifyPack(m)];
          if DiskInv(e, old(Contents()), old(log)) { QuietDisk(e, old(Contents()), old(log), Contents(), log); }
          ghost var here := At(Verified(m));
          ghost var more;
          r, restored, more := InstallVerifiedLocked(e, me, m, weather);
          Follow(e, me, start, acts, here, more);
          acts := acts + more;
      }
    }
  }
}

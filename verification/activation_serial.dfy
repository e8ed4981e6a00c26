/** Interleaved installs are serialisable: the installers admitted by the lock, each with exactly the actions
    it took, one after another in the order of admission, have the same effect and the same outcomes. */
module ActivationSerial {
  import opened Wrappers
  import opened Ordering
  import opened Activation
  import opened ActivationRuns

  // ----- what a trace says about each installer -----

  function ActionsOf(trace: seq<Event>, i: nat): seq<Action> {
    if trace == [] then [] else
      var ev := trace[|trace| - 1];
      ActionsOf(trace[..|trace| - 1], i) + if ev.Act? && ev.who == i then [ev.action] else []
  }

  predicate Admits(g: Global, ev: Event) { ev.Act? && ev.action.Acquire? && g.disk.lock.None? }

  /** The installers that got the lock, in that order. */
  function Admissions(e: Platform, trace: seq<Event>): seq<nat>
    requires Run(e, trace).Some?
  {
    if trace == [] then [] else
      var front, ev := trace[..|trace| - 1], trace[|trace| - 1];
      Admissions(e, front) + if Admits(Run(e, front).value, ev) then [ev.who] else []
  }

  /** What happened outside the installers: recoveries and losses of the floor. */
  function OutsideEvents(trace: seq<Event>): seq<Event> {
    if trace == [] then [] else
      OutsideEvents(trace[..|trace| - 1]) + if trace[|trace| - 1].Act? then [] else [trace[|trace| - 1]]
  }

  // ----- serial histories -----

  /** One installer from start to end, or one outside event. */
  datatype Block = Install(who: nat, acts: seq<Action>) | Outside(ev: Event)

  /** An install can start only with the lock free, by an installer that has done nothing yet. */
  function Perform(e: Platform, g: Global, b: Block): Option<Global> {
    match b
    case Outside(ev) => if !ev.Act? && Enabled(g, ev) then Some(Next(e, g, ev)) else None
    case Install(i, acts) =>
      if g.disk.lock.Some? || !PhaseOf(g, i).Idle? then None else
        match Path(e, i, View(g, i), acts)
        case None => None
        case Some(s) => Some(Global(s.disk, s.log, g.phases[i := s.phase]))
  }

  function Serial(e: Platform, blocks: seq<Block>): Option<Global> {
    if blocks == [] then Some(START) else
      match Serial(e, blocks[..|blocks| - 1])
      case None => None
      case Some(g) => Perform(e, g, blocks[|blocks| - 1])
  }

  function Whos(blocks: seq<Block>): seq<nat> {
    if blocks == [] then [] else
      var b := blocks[|blocks| - 1];
      Whos(blocks[..|blocks| - 1]) + if b.Install? then [b.who] else []
  }

  function Outsides(blocks: seq<Block>): seq<Event> {
    if blocks == [] then [] else
      var b := blocks[|blocks| - 1];
      Outsides(blocks[..|blocks| - 1]) + if b.Install? then [] else [b.ev]
  }

  // ----- one history against one run -----

  /** A run as far as serialisation is concerned. */
  datatype Seen = Seen(g: Global, admitted: seq<nat>, outside: seq<Event>, acted: nat -> seq<Action>)

  ghost predicate Attributed(w: Seen, blocks: seq<Block>) {
    forall b :: b in blocks && b.Install? ==> b.acts == w.acted(b.who)
  }

  ghost predicate SameOutcomes(g: Global, h: Global, whos: seq<nat>) {
    forall i :: i in whos ==> PhaseOf(h, i) == PhaseOf(g, i)
  }

  /** The blocks are the run's own installers and outside events, and end in the run's state and outcomes. */
  ghost predicate Replays(e: Platform, w: Seen, blocks: seq<Block>) {
    && Whos(blocks) == w.admitted && Outsides(blocks) == w.outside && Attributed(w, blocks)
    && Serial(e, blocks).Some?
    && var h := Serial(e, blocks).value;
       h.disk == w.g.disk && h.log == w.g.log && SameOutcomes(w.g, h, w.admitted)
  }

  predicate Finished(p: Phase) { p.Gone? || p.Dead? }

  ghost predicate AllFinished(g: Global, whos: seq<nat>) { forall i :: i in whos ==> Finished(PhaseOf(g, i)) }

  lemma Append(blocks: seq<Block>, b: Block)
    ensures (blocks + [b])[..|blocks|] == blocks && (blocks + [b])[|blocks|] == b
    ensures Whos(blocks + [b]) == Whos(blocks) + if b.Install? then [b.who] else []
    ensures Outsides(blocks + [b]) == Outsides(blocks) + if b.Install? then [] else [b.ev]
  {
    assert (blocks + [b])[..|blocks|] == blocks;
  }

  lemma AppendSerial(e: Platform, blocks: seq<Block>, b: Block)
    requires Serial(e, blocks).Some?
    ensures Serial(e, blocks + [b]) == Perform(e, Serial(e, blocks).value, b)
  {
    assert (blocks + [b])[..|blocks|] == blocks;
  }

  /** Installers outside the blocks have done nothing. */
  lemma {:induction false} StrangersAreIdle(e: Platform, blocks: seq<Block>, i: nat)
    requires Serial(e, blocks).Some? && i !in Whos(blocks)
    ensures PhaseOf(Serial(e, blocks).value, i).Idle?
  {
    if blocks != [] { StrangersAreIdle(e, blocks[..|blocks| - 1], i); }
  }

  // ----- the install in progress -----

  function Losses(n: nat): seq<Block> { if n == 0 then [] else Losses(n - 1) + [Outside(LoseFloor)] }

  function LossEvents(n: nat): seq<Event> { if n == 0 then [] else LossEvents(n - 1) + [LoseFloor] }

  /** A floor lost while an install is past its guard counts as lost after it. */
  function OpenBlocks(front: seq<Block>, i: nat, acts: seq<Action>, losses: nat): seq<Block> {
    front + [Install(i, acts)] + Losses(losses)
  }

  function Without(d: Disk, losses: nat): Disk { if losses == 0 then d else d.(floor := None) }

  /** Installer i, the last one admitted, has taken acts since front, and the floor was lost meanwhile. */
  ghost predicate InProgress(e: Platform, w: Seen, front: seq<Block>, i: nat, acts: seq<Action>, losses: nat) {
    && Whos(front) + [i] == w.admitted && i !in Whos(front)
    && Outsides(front) + LossEvents(losses) == w.outside
    && Attributed(w, front) && acts == w.acted(i)
    && AllFinished(w.g, Whos(front))
    && Serial(e, front).Some?
    && var f := Serial(e, front).value;
       f.disk.lock.None? && SameOutcomes(w.g, f, Whos(front)) && Reaches(e, f, w.g, i, acts, losses)
  }

  ghost predicate Reaches(e: Platform, f: Global, g: Global, i: nat, acts: seq<Action>, losses: nat) {
    && Path(e, i, View(f, i), acts).Some?
    && var s := Path(e, i, View(f, i), acts).value;
    && s.phase == PhaseOf(g, i) && s.log == g.log && g.disk == Without(s.disk, losses)
    && !s.phase.Idle?
    && (s.phase.Entered? ==> losses == 0 && acts == [Acquire])
  }

  lemma {:induction false} LossesAppend(e: Platform, blocks: seq<Block>, n: nat)
    requires Serial(e, blocks).Some?
    ensures Whos(blocks + Losses(n)) == Whos(blocks)
    ensures Outsides(blocks + Losses(n)) == Outsides(blocks) + LossEvents(n)
    ensures var g := Serial(e, blocks).value; Serial(e, blocks + Losses(n)) == Some(g.(disk := Without(g.disk, n)))
    ensures forall b :: b in Losses(n) ==> !b.Install?
  {
    if n == 0 {
      assert blocks + Losses(0) == blocks;
    } else {
      LossesAppend(e, blocks, n - 1);
      assert blocks + Losses(n) == (blocks + Losses(n - 1)) + [Outside(LoseFloor)];
      Append(blocks + Losses(n - 1), Outside(LoseFloor));
      AppendSerial(e, blocks + Losses(n - 1), Outside(LoseFloor));
    }
  }

  /** An install in progress can be written down as a serial history too. */
  lemma ProgressReplays(e: Platform, w: Seen, front: seq<Block>, i: nat, acts: seq<Action>, losses: nat)
    requires InProgress(e, w, front, i, acts, losses)
    ensures Replays(e, w, OpenBlocks(front, i, acts, losses))
  {
    var f, b := Serial(e, front).value, Install(i, acts);
    StrangersAreIdle(e, front, i);
    Append(front, b);
    AppendSerial(e, front, b);
    LossesAppend(e, front + [b], losses);
    var h := Serial(e, OpenBlocks(front, i, acts, losses)).value;
    forall k | k in w.admitted ensures PhaseOf(h, k) == PhaseOf(w.g, k) {
      if k != i { assert k in Whos(front); }
    }
  }

  // ----- one more event -----

  ghost function Saw(e: Platform, w: Seen, ev: Event): Seen
    requires Enabled(w.g, ev)
  {
    Seen(Next(e, w.g, ev), w.admitted + if Admits(w.g, ev) then [ev.who] else [],
         w.outside + if ev.Act? then [] else [ev],
         (k: nat) => w.acted(k) + if ev.Act? && ev.who == k then [ev.action] else [])
  }

  /** Only the guard reads the floor. */
  lemma FloorUnread(e: Platform, i: nat, a: Action, s: Solo)
    requires At(a, s.phase) && !s.phase.Entered? && !s.phase.Idle?
    ensures var t := Step(e, i, a, s);
            Step(e, i, a, s.(disk := s.disk.(floor := None))) == t.(disk := t.disk.(floor := None))
  {
  }

  lemma NeverIdleAgain(e: Platform, i: nat, a: Action, s: Solo)
    requires At(a, s.phase)
    ensures var t := Step(e, i, a, s); !t.phase.Idle? && (t.phase.Entered? ==> a.Acquire?)
    ensures !Finished(s.phase)
  {
  }

  lemma HolderReaches(e: Platform, f: Global, g: Global, i: nat, acts: seq<Action>, losses: nat, a: Action)
    requires Reaches(e, f, g, i, acts, losses) && At(a, PhaseOf(g, i))
    ensures Reaches(e, f, Next(e, g, Act(i, a)), i, acts + [a], losses)
  {
    var s := Path(e, i, View(f, i), acts).value;
    Extend(e, i, View(f, i), acts, a, s);
    if losses > 0 { FloorUnread(e, i, a, s); }
    NeverIdleAgain(e, i, a, s);
  }

  /** The holder acts: its block grows. */
  lemma HolderActs(e: Platform, w: Seen, front: seq<Block>, i: nat, acts: seq<Action>, losses: nat, a: Action)
    requires InProgress(e, w, front, i, acts, losses) && At(a, PhaseOf(w.g, i))
    ensures InProgress(e, Saw(e, w, Act(i, a)), front, i, acts + [a], losses)
  {
    var f := Serial(e, front).value;
    HolderReaches(e, f, w.g, i, acts, losses, a);
    var v := Saw(e, w, Act(i, a));
    NeverIdleAgain(e, i, a, View(w.g, i));
    forall b | b in front && b.Install? ensures b.acts == v.acted(b.who) { InWhos(front, b); }
  }

  lemma {:induction false} InWhos(blocks: seq<Block>, b: Block)
    requires b in blocks && b.Install?
    ensures b.who in Whos(blocks)
  {
    if blocks[|blocks| - 1] != b { InWhos(blocks[..|blocks| - 1], b); }
  }

  /** Somebody without the lock acts: nothing durable happens. */
  lemma StrangerReaches(e: Platform, f: Global, w: Seen, i: nat, acts: seq<Action>, losses: nat, k: nat, a: Action)
    requires Reaches(e, f, w.g, i, acts, losses) && At(a, PhaseOf(w.g, k)) && k != i
    requires Next(e, w.g, Act(k, a)).disk == w.g.disk && Next(e, w.g, Act(k, a)).log == w.g.log
    ensures Reaches(e, f, Saw(e, w, Act(k, a)).g, i, acts, losses)
  {
  }

  lemma Unblamed(w: Seen, v: Seen, blocks: seq<Block>, k: nat)
    requires Attributed(w, blocks) && k !in Whos(blocks) && forall i :: i != k ==> v.acted(i) == w.acted(i)
    ensures Attributed(v, blocks)
  {
    forall b | b in blocks && b.Install? ensures b.acts == v.acted(b.who) { InWhos(blocks, b); }
  }

  // ----- the induction -----

  /** A serial history of the run so far, perhaps with its last install still in progress. */
  datatype Plan = Closed(blocks: seq<Block>) | Open(front: seq<Block>, who: nat, acts: seq<Action>, losses: nat)

  function BlocksOf(p: Plan): seq<Block> {
    match p
    case Closed(blocks) => blocks
    case Open(front, i, acts, losses) => OpenBlocks(front, i, acts, losses)
  }

  ghost predicate Plans(e: Platform, w: Seen, p: Plan) {
    match p
    case Closed(blocks) => w.g.disk.lock.None? && AllFinished(w.g, w.admitted) && Replays(e, w, blocks)
    case Open(front, i, acts, losses) => w.g.disk.lock == Some(i) && InProgress(e, w, front, i, acts, losses)
  }

  lemma PlanReplays(e: Platform, w: Seen, p: Plan)
    requires Plans(e, w, p)
    ensures Replays(e, w, BlocksOf(p))
  {
    if p.Open? { ProgressReplays(e, w, p.front, p.who, p.acts, p.losses); }
  }

  lemma HolderPlan(e: Platform, w: Seen, p: Plan, a: Action) returns (q: Plan)
    requires Plans(e, w, p) && p.Open? && At(a, PhaseOf(w.g, p.who)) && Holding(PhaseOf(w.g, p.who))
    ensures Plans(e, Saw(e, w, Act(p.who, a)), q)
  {
    var i, v := p.who, Saw(e, w, Act(p.who, a));
    HolderActs(e, w, p.front, i, p.acts, p.losses, a);
    LockAfterStep(e, i, a, View(w.g, i));
    if v.g.disk.lock.None? {
      ReleaseFinishes(e, i, a, View(w.g, i));
      q := Closed(OpenBlocks(p.front, i, p.acts + [a], p.losses));
      ProgressReplays(e, v, p.front, i, p.acts + [a], p.losses);
    } else {
      q := Open(p.front, i, p.acts + [a], p.losses);
    }
  }

  lemma ReleaseFinishes(e: Platform, i: nat, a: Action, s: Solo)
    requires At(a, s.phase) && Holding(s.phase) && s.disk.lock.Some? && Step(e, i, a, s).disk.lock.None?
    ensures Step(e, i, a, s).phase.Gone?
  {
  }

  /** The lock is free and i takes it: a new block. */
  lemma AdmitPlan(e: Platform, w: Seen, p: Plan, i: nat) returns (q: Plan)
    requires Plans(e, w, p) && p.Closed? && PhaseOf(w.g, i).Idle? && w.acted(i) == []
    ensures Plans(e, Saw(e, w, Act(i, Acquire)), q)
  {
    var f, v := Serial(e, p.blocks).value, Saw(e, w, Act(i, Acquire));
    StrangersAreIdle(e, p.blocks, i);
    Extend(e, i, View(f, i), [], Acquire, View(f, i));
    assert [] + [Acquire] == [Acquire];
    Unblamed(w, v, p.blocks, i);
    q := Open(p.blocks, i, [Acquire], 0);
    assert Outsides(p.blocks) + LossEvents(0) == w.outside;
    assert Reaches(e, f, v.g, i, [Acquire], 0);
  }

  /** Anybody else acts in vain. */
  lemma StrangerPlan(e: Platform, w: Seen, p: Plan, k: nat, a: Action)
    requires Plans(e, w, p) && At(a, PhaseOf(w.g, k)) && !Holding(PhaseOf(w.g, k)) && !Admits(w.g, Act(k, a))
    ensures Plans(e, Saw(e, w, Act(k, a)), p)
  {
    var v := Saw(e, w, Act(k, a));
    NeverIdleAgain(e, k, a, View(w.g, k));
    QuietStranger(e, k, a, View(w.g, k));
    match p
    case Closed(blocks) => Unblamed(w, v, blocks, k);
    case Open(front, i, acts, losses) =>
      assert k != i;
      Unblamed(w, v, front, k);
      StrangerReaches(e, Serial(e, front).value, w, i, acts, losses, k, a);
  }

  lemma QuietStranger(e: Platform, i: nat, a: Action, s: Solo)
    requires At(a, s.phase) && !Holding(s.phase) && !(a.Acquire? && s.disk.lock.None?)
    ensures var t := Step(e, i, a, s); t.disk == s.disk && t.log == s.log
  {
  }

  /** The administrator frees the lock of a dead installer. */
  lemma UnlockPlan(e: Platform, w: Seen, p: Plan) returns (q: Plan)
    requires Plans(e, w, p) && Enabled(w.g, AdminUnlock)
    ensures Plans(e, Saw(e, w, AdminUnlock), q)
  {
    var blocks, v := BlocksOf(p), Saw(e, w, AdminUnlock);
    PlanReplays(e, w, p);
    Append(blocks, Outside(AdminUnlock));
    AppendSerial(e, blocks, Outside(AdminUnlock));
    q := Closed(blocks + [Outside(AdminUnlock)]);
    assert PhaseOf(Serial(e, blocks).value, p.who) == PhaseOf(w.g, p.who);
    assert Attributed(v, q.blocks);
  }

  /** The floor disappears: before the install in progress if it has yet to pass its guard, after it otherwise. */
  lemma LossPlan(e: Platform, w: Seen, p: Plan) returns (q: Plan)
    requires Plans(e, w, p)
    ensures Plans(e, Saw(e, w, LoseFloor), q)
  {
    var v := Saw(e, w, LoseFloor);
    match p
    case Closed(blocks) =>
      Append(blocks, Outside(LoseFloor));
      AppendSerial(e, blocks, Outside(LoseFloor));
      q := Closed(blocks + [Outside(LoseFloor)]);
      assert Attributed(v, q.blocks);
    case Open(front, i, acts, losses) =>
      if PhaseOf(w.g, i).Entered? {
        EarlyLoss(e, w, front, i);
        q := Open(front + [Outside(LoseFloor)], i, acts, 0);
      } else {
        q := Open(front, i, acts, losses + 1);
        assert Attributed(v, front);
      }
  }

  lemma JustEntered(e: Platform, f: Global, i: nat)
    requires f.disk.lock.None? && PhaseOf(f, i).Idle?
    ensures Path(e, i, View(f, i), [Acquire]) == Some(Solo(f.disk.(lock := Some(i)), f.log, Entered))
  {
    Extend(e, i, View(f, i), [], Acquire, View(f, i));
    assert [] + [Acquire] == [Acquire];
  }

  lemma EarlyLoss(e: Platform, w: Seen, front: seq<Block>, i: nat)
    requires InProgress(e, w, front, i, [Acquire], 0) && PhaseOf(w.g, i).Entered? && w.g.disk.lock == Some(i)
    ensures InProgress(e, Saw(e, w, LoseFloor), front + [Outside(LoseFloor)], i, [Acquire], 0)
  {
    var f, v := Serial(e, front).value, Saw(e, w, LoseFloor);
    StrangersAreIdle(e, front, i);
    Append(front, Outside(LoseFloor));
    AppendSerial(e, front, Outside(LoseFloor));
    JustEntered(e, f, i);
    JustEntered(e, Next(e, f, LoseFloor), i);
    assert Attributed(v, front + [Outside(LoseFloor)]);
  }

  ghost function See(e: Platform, trace: seq<Event>): Seen
    requires Run(e, trace).Some?
  {
    Seen(Run(e, trace).value, Admissions(e, trace), OutsideEvents(trace), (i: nat) => ActionsOf(trace, i))
  }

  ghost predicate SameSeen(w: Seen, v: Seen) {
    && w.g == v.g && w.admitted == v.admitted && w.outside == v.outside && forall i: nat :: w.acted(i) == v.acted(i)
  }

  lemma PlansSame(e: Platform, w: Seen, v: Seen, p: Plan)
    requires Plans(e, w, p) && SameSeen(w, v)
    ensures Plans(e, v, p)
  {
  }

  lemma {:induction false} IdleHasNotActed(e: Platform, trace: seq<Event>, i: nat)
    requires Run(e, trace).Some? && PhaseOf(Run(e, trace).value, i).Idle?
    ensures ActionsOf(trace, i) == []
  {
    if trace != [] {
      var front, ev := trace[..|trace| - 1], trace[|trace| - 1];
      if ev.Act? { NeverIdleAgain(e, ev.who, ev.action, View(Run(e, front).value, ev.who)); }
      IdleHasNotActed(e, front, i);
    }
  }

  lemma PlanStep(e: Platform, w: Seen, ev: Event, p: Plan) returns (q: Plan)
    requires Safe(e, w.g) && Enabled(w.g, ev) && Plans(e, w, p)
    requires ev.Act? && PhaseOf(w.g, ev.who).Idle? ==> w.acted(ev.who) == []
    ensures Plans(e, Saw(e, w, ev), q)
  {
    match ev
    case AdminUnlock => q := UnlockPlan(e, w, p);
    case LoseFloor => q := LossPlan(e, w, p);
    case Act(i, a) =>
      assert PhaseInv(e, i, View(w.g, i));
      if Holding(PhaseOf(w.g, i)) {
        q := HolderPlan(e, w, p, a);
      } else if Admits(w.g, ev) {
        q := AdmitPlan(e, w, p, i);
      } else {
        StrangerPlan(e, w, p, i, a);
        q := p;
      }
  }

  lemma SeeMore(e: Platform, front: seq<Event>, ev: Event)
    requires Run(e, front + [ev]).Some?
    ensures Run(e, front).Some? && Enabled(Run(e, front).value, ev)
    ensures SameSeen(Saw(e, See(e, front), ev), See(e, front + [ev]))
  {
    assert (front + [ev])[..|front|] == front;
  }

  lemma SomethingMore(e: Platform, front: seq<Event>, ev: Event, q: Plan) returns (p: Plan)
    requires Lawful(e) && Run(e, front + [ev]).Some? && Run(e, front).Some? && Plans(e, See(e, front), q)
    ensures Plans(e, See(e, front + [ev]), p)
  {
    SeeMore(e, front, ev);
    EveryRunIsSafe(e, front);
    if ev.Act? && PhaseOf(Run(e, front).value, ev.who).Idle? { IdleHasNotActed(e, front, ev.who); }
    p := PlanStep(e, See(e, front), ev, q);
    PlansSame(e, Saw(e, See(e, front), ev), See(e, front + [ev]), p);
  }

  lemma {:induction false} RunsArePlanned(e: Platform, trace: seq<Event>) returns (p: Plan)
    requires Lawful(e) && Run(e, trace).Some?
    ensures Plans(e, See(e, trace), p)
  {
    if trace == [] {
      p := Closed([]);
    } else {
      var front, ev := trace[..|trace| - 1], trace[|trace| - 1];
      assert trace == front + [ev];
      var q := RunsArePlanned(e, front);
      p := SomethingMore(e, front, ev, q);
    }
  }

  /** Every run is serialisable: its admitted installers, each with all its actions, one after another in the
      order in which they got the lock, and with the same outside events, end in the same durable state, the
      same history and the same outcome of each of them. */
  lemma RunsAreSerial(e: Platform, trace: seq<Event>) returns (blocks: seq<Block>)
    requires Lawful(e) && Run(e, trace).Some?
    ensures Whos(blocks) == Admissions(e, trace) && Outsides(blocks) == OutsideEvents(trace)
    ensures forall b :: b in blocks && b.Install? ==> b.acts == ActionsOf(trace, b.who)
    ensures Serial(e, blocks).Some?
    ensures var g, h := Run(e, trace).value, Serial(e, blocks).value;
            h.disk == g.disk && h.log == g.log && SameOutcomes(g, h, Admissions(e, trace))
  {
    var p := RunsArePlanned(e, trace);
    PlanReplays(e, See(e, trace), p);
    blocks := BlocksOf(p);
  }

  /** Nobody is admitted twice. */
  lemma {:induction false} AdmittedOnce(e: Platform, trace: seq<Event>)
    requires Run(e, trace).Some?
    ensures NoDup(Admissions(e, trace))
    ensures forall i :: i in Admissions(e, trace) ==> !PhaseOf(Run(e, trace).value, i).Idle?
  {
    if trace != [] {
      var front, ev := trace[..|trace| - 1], trace[|trace| - 1];
      AdmittedOnce(e, front);
      if ev.Act? { NeverIdleAgain(e, ev.who, ev.action, View(Run(e, front).value, ev.who)); }
    }
  }

  /** Whoever was not admitted changed nothing: it was refused, died at the door, or has not tried. */
  lemma {:induction false} RefusedLeaveNoTrace(e: Platform, trace: seq<Event>, i: nat)
    requires Lawful(e) && Run(e, trace).Some? && i !in Admissions(e, trace)
    ensures !Holding(PhaseOf(Run(e, trace).value, i)) && |ActionsOf(trace, i)| <= 1
  {
    if trace != [] {
      var front, ev := trace[..|trace| - 1], trace[|trace| - 1];
      RefusedLeaveNoTrace(e, front, i);
      EveryRunIsSafe(e, front);
      var g := Run(e, front).value;
      if ev.Act? && ev.who == i {
        NeverIdleAgain(e, i, ev.action, View(g, i));
        IdleHasNotActed(e, front, i);
        QuietOutsider(e, i, ev.action, View(g, i));
      }
    }
  }

  lemma QuietOutsider(e: Platform, i: nat, a: Action, s: Solo)
    requires At(a, s.phase) && !Holding(s.phase) && !(a.Acquire? && s.disk.lock.None?)
    ensures !Holding(Step(e, i, a, s).phase)
  {
  }
}

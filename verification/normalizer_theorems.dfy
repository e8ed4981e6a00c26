/** What a successful provider normalisation says about its input records. */
module NormalizerTheorems {
  import opened Wrappers
  import opened Ordering
  import opened Text
  import opened Normalizer

  // ----- conservation -----

  function StructureCount(records: seq<Entity>): nat {
    if records == [] then 0 else StructureCount(records[..|records| - 1]) + |records[|records| - 1].structures|
  }

  ghost function GroupSizes(judge: Judgement, s: seq<Psr>, keys: seq<string>): nat {
    if keys == [] then 0 else
      GroupSizes(judge, s, keys[..|keys| - 1]) + |Select(judge, s, Event(keys[|keys| - 1]))|
  }

  lemma {:induction false} GroupSizesStep(judge: Judgement, s: seq<Psr>, r: Psr, keys: seq<string>)
    requires NoDup(keys)
    ensures GroupSizes(judge, s + [r], keys)
         == GroupSizes(judge, s, keys) + if judge(r).Event? && judge(r).id in keys then 1 else 0
  {
    if keys != [] {
      var front, last := keys[..|keys| - 1], keys[|keys| - 1];
      assert keys == front + [last] && last !in front;
      GroupSizesStep(judge, s, r, front);
      OneMore(judge, s, r);
    }
  }

  ghost predicate AllGood(judge: Judgement, s: seq<Psr>) { forall r :: r in s ==> !judge(r).Bad? }

  ghost predicate Covers(judge: Judgement, s: seq<Psr>, keys: seq<string>) {
    forall r :: r in s && judge(r).Event? ==> judge(r).id in keys
  }

  lemma {:induction false} SizesAddUp(judge: Judgement, s: seq<Psr>, keys: seq<string>)
    requires NoDup(keys) && AllGood(judge, s) && Covers(judge, s, keys)
    ensures |s| == |Select(judge, s, Unidentified)| + |Select(judge, s, Outside)| + GroupSizes(judge, s, keys)
  {
    if s == [] {
      NothingGrouped(judge, keys);
    } else {
      var front, r := s[..|s| - 1], s[|s| - 1];
      assert s == front + [r] && r in s;
      SizesAddUp(judge, front, keys);
      OneMore(judge, front, r);
      GroupSizesStep(judge, front, r, keys);
    }
  }

  lemma {:induction false} NothingGrouped(judge: Judgement, keys: seq<string>)
    ensures GroupSizes(judge, [], keys) == 0
  {
    if keys != [] { NothingGrouped(judge, keys[..|keys| - 1]); }
  }

  lemma FrontEntities(judge: Judgement, s: seq<Psr>, keys: seq<string>, records: seq<Entity>)
    requires AreEntities(judge, s, keys, records) && keys != []
    ensures AreEntities(judge, s, keys[..|keys| - 1], records[..|keys| - 1])
  {
    var k, r := keys[..|keys| - 1], records[..|keys| - 1];
    forall i | 0 <= i < |k| ensures EntityAt(judge, s, k, r, i) { assert EntityAt(judge, s, keys, records, i); }
  }

  lemma {:induction false} StructuresAreGroups(judge: Judgement, s: seq<Psr>, keys: seq<string>, records: seq<Entity>)
    requires AreEntities(judge, s, keys, records)
    ensures StructureCount(records) == GroupSizes(judge, s, keys)
  {
    if keys != [] {
      var last := |keys| - 1;
      var g := Select(judge, s, Event(keys[last]));
      assert EntityAt(judge, s, keys, records, last);
      SameElements(g, Sort(VersionLess, g));
      FrontEntities(judge, s, keys, records);
      StructuresAreGroups(judge, s, keys[..last], records[..last]);
    }
  }

  lemma SortedKeysAreKeys(judge: Judgement, s: seq<Psr>)
    ensures NoDup(SortedKeys(judge, s)) && Covers(judge, s, SortedKeys(judge, s))
    ensures forall k :: k in SortedKeys(judge, s) <==> k in Keys(judge, s)
  {
    MultisetNoDup(Keys(judge, s), SortedKeys(judge, s));
    SameElements(Keys(judge, s), SortedKeys(judge, s));
  }

  ghost predicate Conserved(n: nat, out: Output) {
    && n == |out.quarantined| + (|out.diagnostics| - 1) + StructureCount(out.records)
    && out.created == |out.records| == |out.lineage| && out.matched == 0 && out.ambiguous == |out.quarantined|
  }

  lemma OneLineageEach(judge: Judgement, s: seq<Psr>, out: Output)
    requires Normalises(judge, s, out)
    ensures |out.records| == |out.lineage|
  {
    SameElements(Lineages(judge, s, SortedKeys(judge, s)), out.lineage);
  }

  lemma GroupsAreConserved(judge: Judgement, s: seq<Psr>, records: seq<Entity>)
    requires AllGood(judge, s) && AreEntities(judge, s, SortedKeys(judge, s), records)
    ensures |s| == |Select(judge, s, Unidentified)| + |Select(judge, s, Outside)| + StructureCount(records)
  {
    SortedKeysAreKeys(judge, s);
    SizesAddUp(judge, s, SortedKeys(judge, s));
    StructuresAreGroups(judge, s, SortedKeys(judge, s), records);
  }

  lemma OutputConserves(judge: Judgement, s: seq<Psr>, out: Output)
    requires AllGood(judge, s) && Normalises(judge, s, out)
    ensures Conserved(|s|, out)
  {
    var n := StructureCount(out.records);
    assert |s| == |Select(judge, s, Unidentified)| + |Select(judge, s, Outside)| + n by {
      GroupsAreConserved(judge, s, out.records);
    }
    assert |out.records| == |out.lineage| by { OneLineageEach(judge, s, out); }
  }

  /** A run that succeeds meets no bad record, and every event has a parsed-record ID. */
  lemma Succeeds(judge: Judgement, s: seq<Psr>)
    requires Failure(judge, s).None?
    ensures AllGood(judge, s) && EventsAreWhole(judge, s)
  {
    SortedKeysAreKeys(judge, s);
    forall r | r in s && judge(r).Event? ensures r.parsedId.Some? {
      var k := judge(r).id;
      assert k in SortedKeys(judge, s);
      assert GroupError(k, Select(judge, s, Event(k))).None?;
    }
  }

  ghost predicate EventsAreWhole(judge: Judgement, s: seq<Psr>) {
    forall r :: r in s && judge(r).Event? ==> r.parsedId.Some?
  }

  /** No record is lost or counted twice: the quarantine, the out-of-scope diagnostics and the structures of
      the entities together number the input, and each counter is the size of its list. */
  lemma RecordsAreConserved(judge: Judgement, input: seq<Psr>, s: seq<Psr>, r: Result<Output>)
    requires multiset(input) == multiset(s) && Answers(judge, s, r) && r.Ok?
    ensures Conserved(|input|, r.value)
  {
    assert |input| == |s| by { SameElements(input, s); }
    assert AllGood(judge, s) by { Succeeds(judge, s); }
    OutputConserves(judge, s, r.value);
  }

  // ----- where one record lands -----

  ghost predicate DistinctIds(s: seq<Psr>) {
    forall x, y :: x in s && y in s && x.parsedId == y.parsedId ==> x == y
  }

  ghost predicate InQuarantine(out: Output, r: Psr) {
    exists q :: q in out.quarantined && q.parsedId == r.parsedId
  }

  predicate Names(l: Lineage, r: Psr) { r.parsedId.Some? && r.parsedId.value in l.parsedIds }

  lemma InQuarantines(t: seq<Psr>, q: Quarantine)
    ensures q in Quarantines(t) ==> exists x :: x in t && q.parsedId == x.parsedId
  {
    if q in Quarantines(t) {
      var i :| 0 <= i < |t| && Quarantines(t)[i] == q;
      assert t[i] in t;
    }
  }

  lemma Quarantined(t: seq<Psr>, r: Psr)
    requires r in t
    ensures exists q :: q in Quarantines(t) && q.parsedId == r.parsedId
  {
    var i :| 0 <= i < |t| && t[i] == r;
    assert Quarantines(t)[i] in Quarantines(t);
  }

  lemma QuarantineIff(judge: Judgement, s: seq<Psr>, out: Output, r: Psr)
    requires out.quarantined == Quarantines(Select(judge, s, Unidentified)) && DistinctIds(s) && r in s
    ensures InQuarantine(out, r) <==> judge(r) == Unidentified
  {
    var t := Select(judge, s, Unidentified);
    if InQuarantine(out, r) {
      var q :| q in out.quarantined && q.parsedId == r.parsedId;
      InQuarantines(t, q);
    }
    if r in t { Quarantined(t, r); }
  }

  ghost predicate InGroups(judge: Judgement, s: seq<Psr>, l: Lineage) {
    exists k :: k in Keys(judge, s) && l == LineageOf(k, Select(judge, s, Event(k)))
  }

  lemma InSortedMap(f: string -> Lineage, keys: seq<string>, sorted: seq<Lineage>, l: Lineage)
    requires multiset(sorted) == multiset(Mapped(f, keys))
    ensures l in sorted <==> exists k :: k in keys && l == f(k)
  {
    var ls := Mapped(f, keys);
    SameElements(ls, sorted);
    if l in ls {
      var i :| 0 <= i < |ls| && ls[i] == l;
      assert keys[i] in keys;
    }
    if k :| k in keys && l == f(k) {
      var i :| 0 <= i < |keys| && keys[i] == k;
      assert ls[i] in ls;
    }
  }

  lemma LineagesOfKeys(judge: Judgement, s: seq<Psr>, out: Output, l: Lineage)
    requires Normalises(judge, s, out)
    ensures l in out.lineage <==> InGroups(judge, s, l)
  {
    var f := LineageFor(judge, s);
    InSortedMap(f, SortedKeys(judge, s), out.lineage, l);
    SameElements(Keys(judge, s), SortedKeys(judge, s));
    if InGroups(judge, s, l) {
      var k :| k in Keys(judge, s) && l == LineageOf(k, Select(judge, s, Event(k)));
      assert f(k) == l && k in SortedKeys(judge, s);
    }
  }

  lemma NamedByOwnGroup(judge: Judgement, s: seq<Psr>, k: string, r: Psr)
    requires DistinctIds(s) && r in s && r.parsedId.Some?
    ensures Names(LineageOf(k, Select(judge, s, Event(k))), r) <==> judge(r) == Event(k)
  {
    var g := Select(judge, s, Event(k));
    assert Names(LineageOf(k, g), r) <==> r.parsedId.value in ParsedIds(g);
    if r.parsedId.value in ParsedIds(g) {
      var x :| x in g && x.parsedId.Some? && x.parsedId.value == r.parsedId.value;
    }
  }

  lemma EntityIdInjective(a: string, b: string)
    requires EntityId(a) == EntityId(b)
    ensures a == b
  {
    var n := |EntityId("")|;
    assert EntityId(a)[n..] == a && EntityId(b)[n..] == b;
  }

  /** The entity of an event ID: exactly one record of the output. */
  ghost predicate SoleEntity(out: Output, k: string, i: nat) {
    i < |out.records| && forall j :: 0 <= j < |out.records| ==> (out.records[j].id == EntityId(k) <==> j == i)
  }

  lemma OneRecordPerKey(judge: Judgement, s: seq<Psr>, keys: seq<string>, out: Output, i: nat)
    requires AreEntities(judge, s, keys, out.records) && NoDup(keys) && i < |keys|
    ensures SoleEntity(out, keys[i], i)
  {
    forall j | 0 <= j < |keys| ensures out.records[j].id == EntityId(keys[i]) <==> j == i {
      assert EntityAt(judge, s, keys, out.records, j);
      if out.records[j].id == EntityId(keys[i]) { EntityIdInjective(keys[j], keys[i]); }
    }
  }

  lemma EntityOfKey(judge: Judgement, s: seq<Psr>, out: Output, r: Psr) returns (i: nat)
    requires Normalises(judge, s, out) && r in s && judge(r).Event?
    ensures SoleEntity(out, judge(r).id, i)
    ensures Structure(VersionOf(r), r.native.structure) in out.records[i].structures
  {
    var k, keys := judge(r).id, SortedKeys(judge, s);
    SortedKeysAreKeys(judge, s);
    i :| 0 <= i < |keys| && keys[i] == k;
    OneRecordPerKey(judge, s, keys, out, i);
    assert EntityAt(judge, s, keys, out.records, i);
    StructureListed(Select(judge, s, Event(k)), r);
  }

  lemma StructureListed(g: seq<Psr>, r: Psr)
    requires r in g
    ensures Structure(VersionOf(r), r.native.structure) in StructuresOf(Sort(VersionLess, g))
  {
    var t := Sort(VersionLess, g);
    SameElements(g, t);
    var i :| 0 <= i < |t| && t[i] == r;
    assert StructuresOf(t)[i] == Structure(VersionOf(r), r.native.structure);
  }

  /** The lineages that name r: none unless r is an event, and then that of its one entity alone. */
  lemma LineageIff(judge: Judgement, s: seq<Psr>, out: Output, r: Psr, l: Lineage)
    requires EventsAreWhole(judge, s) && Normalises(judge, s, out) && DistinctIds(s) && r in s
    ensures l in out.lineage && Names(l, r)
       <==> judge(r).Event? && l == LineageOf(judge(r).id, Select(judge, s, judge(r)))
  {
    LineagesOfKeys(judge, s, out, l);
    if l in out.lineage && Names(l, r) {
      var k :| k in Keys(judge, s) && l == LineageOf(k, Select(judge, s, Event(k)));
      NamedByOwnGroup(judge, s, k, r);
    }
    if judge(r).Event? && l == LineageOf(judge(r).id, Select(judge, s, judge(r))) {
      NamedByOwnGroup(judge, s, judge(r).id, r);
    }
  }

  ghost predicate InDiagnostics(out: Output, r: Psr) { Note(r) in out.diagnostics }

  /** Notes tell the records apart. */
  ghost predicate NotesApart(s: seq<Psr>) { forall x, y :: x in s && y in s && Note(x) == Note(y) ==> x == y }

  lemma NoteIsNotClosing(r: Psr)
    ensures Note(r) != CLOSING
  {
    assert Note(r)[|Note(r)| - 1] == 't' && CLOSING[|CLOSING| - 1] == '.';
  }

  /** The diagnostics are the notes of the out-of-scope records, in order, and the closing remark. */
  lemma NotedIff(judge: Judgement, s: seq<Psr>, out: Output, r: Psr)
    requires Normalises(judge, s, out) && NotesApart(s) && r in s
    ensures InDiagnostics(out, r) <==> judge(r) == Outside
  {
    var t := Select(judge, s, Outside);
    NoteIsNotClosing(r);
    if InDiagnostics(out, r) {
      var i :| 0 <= i < |out.diagnostics| && out.diagnostics[i] == Note(r);
      assert t[i] in t && Note(t[i]) == Note(r);
    }
    if judge(r) == Outside { OutsideIsNoted(judge, s, out, r); }
  }

  ghost predicate Unnamed(out: Output, r: Psr) { forall l :: l in out.lineage ==> !Names(l, r) }

  /** One lineage names r, and it is that of the event ID k. */
  ghost predicate InLineage(out: Output, k: string, r: Psr) {
    exists l :: l in out.lineage && l.output == EntityId(k) && forall m :: m in out.lineage && Names(m, r) <==> m == l
  }

  /** One entity has the event ID k, and it holds the structure of r. */
  ghost predicate InEntity(out: Output, k: string, r: Psr) {
    exists i: nat :: SoleEntity(out, k, i) && Structure(VersionOf(r), r.native.structure) in out.records[i].structures
  }

  lemma OneLineage(out: Output, k: string, r: Psr, own: Lineage)
    requires forall l :: l in out.lineage && Names(l, r) <==> l == own
    requires own.output == EntityId(k)
    ensures InLineage(out, k, r)
  {
    assert own in out.lineage;
  }

  lemma EventLanding(judge: Judgement, s: seq<Psr>, out: Output, r: Psr)
    requires EventsAreWhole(judge, s) && Normalises(judge, s, out) && DistinctIds(s) && r in s && judge(r).Event?
    ensures InLineage(out, judge(r).id, r)
  {
    var own := LineageOf(judge(r).id, Select(judge, s, judge(r)));
    forall l ensures l in out.lineage && Names(l, r) <==> l == own { LineageIff(judge, s, out, r, l); }
    OneLineage(out, judge(r).id, r, own);
  }

  lemma OtherLanding(judge: Judgement, s: seq<Psr>, out: Output, r: Psr)
    requires EventsAreWhole(judge, s) && Normalises(judge, s, out) && DistinctIds(s) && r in s && !judge(r).Event?
    ensures Unnamed(out, r)
  {
    forall l | l in out.lineage ensures !Names(l, r) { LineageIff(judge, s, out, r, l); }
  }

  /** With distinct parsed-record IDs, each input record lands in exactly one place: the quarantine, the
      out-of-scope diagnostics, or the lineage of the one entity of its event ID. The notes hold native keys, so
      only where notes differ does a note tell whose it is. */
  lemma EachRecordLandsOnce(judge: Judgement, input: seq<Psr>, s: seq<Psr>, res: Result<Output>, r: Psr)
    requires multiset(input) == multiset(s) && Answers(judge, s, res) && res.Ok? && DistinctIds(input) && r in input
    ensures match judge(r)
            case Bad(_) => false
            case Unidentified => InQuarantine(res.value, r) && Unnamed(res.value, r)
            case Outside => InDiagnostics(res.value, r) && !InQuarantine(res.value, r) && Unnamed(res.value, r)
            case Event(k) => InLineage(res.value, k, r) && InEntity(res.value, k, r) && !InQuarantine(res.value, r)
    ensures NotesApart(input) ==> (InDiagnostics(res.value, r) <==> judge(r) == Outside)
    ensures |res.value.diagnostics| == |Select(judge, s, Outside)| + 1
  {
    var out := res.value;
    SameElements(input, s);
    Succeeds(judge, s);
    QuarantineIff(judge, s, out, r);
    if judge(r).Event? {
      EventLanding(judge, s, out, r);
      var i := EntityOfKey(judge, s, out, r);
    } else {
      OtherLanding(judge, s, out, r);
    }
    if judge(r).Outside? { OutsideIsNoted(judge, s, out, r); }
    if NotesApart(input) { NotedIff(judge, s, out, r); }
  }

  lemma OutsideIsNoted(judge: Judgement, s: seq<Psr>, out: Output, r: Psr)
    requires Normalises(judge, s, out) && r in s && judge(r) == Outside
    ensures Note(r) in out.diagnostics
  {
    var t := Select(judge, s, Outside);
    var i :| 0 <= i < |t| && t[i] == r;
    assert out.diagnostics[i] == Note(r);
  }

  // ----- one output or several -----

  predicate SameVersion(judge: Judgement, x: Psr, y: Psr) {
    judge(x).Event? && judge(x) == judge(y) && Value(VersionOf(x)) == Value(VersionOf(y))
  }

  /** Event versions of one event that read as the same number are the same text. */
  ghost predicate VersionsApart(judge: Judgement, s: seq<Psr>) {
    forall x, y :: x in s && y in s && SameVersion(judge, x, y) ==> VersionOf(x) == VersionOf(y)
  }

  ghost predicate Apart(g: seq<Psr>) {
    forall x, y :: x in g && y in g && Value(VersionOf(x)) == Value(VersionOf(y)) ==> VersionOf(x) == VersionOf(y)
  }

  lemma GroupsApart(judge: Judgement, s: seq<Psr>, k: string)
    requires VersionsApart(judge, s)
    ensures Apart(Select(judge, s, Event(k)))
  {
    var g := Select(judge, s, Event(k));
    forall x, y | x in g && y in g && Value(VersionOf(x)) == Value(VersionOf(y)) ensures VersionOf(x) == VersionOf(y) {
      assert SameVersion(judge, x, y);
    }
  }

  lemma EntitiesAgree(key: string, g: seq<Psr>, a: Entity, b: Entity)
    requires IsEntity(a, key, g) && IsEntity(b, key, g)
    requires Apart(g)
    ensures a == b
  {
    forall v, w | v in a.versions && w in a.versions && v != w ensures IntLess(v, w) || IntLess(w, v) {
      assert v in Versions(g) && w in Versions(g);
    }
    ArrangeUnique(IntLess, a.versions, b.versions, Versions(g));
  }

  lemma OutputUnique(judge: Judgement, s: seq<Psr>, a: Output, b: Output)
    requires Normalises(judge, s, a) && Normalises(judge, s, b) && VersionsApart(judge, s)
    ensures a == b
  {
    var keys := SortedKeys(judge, s);
    forall i | 0 <= i < |keys| ensures a.records[i] == b.records[i] {
      GroupsApart(judge, s, keys[i]);
      assert EntityAt(judge, s, keys, a.records, i) && EntityAt(judge, s, keys, b.records, i);
      EntitiesAgree(keys[i], Select(judge, s, Event(keys[i])), a.records[i], b.records[i]);
    }
    assert a.records == b.records;
  }

  /** Permuting the input changes nothing when parsed-record IDs are distinct and no event has two texts
      for one version number. */
  lemma InputOrderIsIrrelevant(judge: Judgement, a: seq<Psr>, b: seq<Psr>, ra: Result<Output>, rb: Result<Output>)
    requires multiset(a) == multiset(b) && Separated(ParsedLess, a) && VersionsApart(judge, a)
    requires Answers(judge, Sort(ParsedLess, a), ra) && Answers(judge, Sort(ParsedLess, b), rb)
    ensures ra == rb
  {
    OrdersAreWeak();
    SortPermutation(ParsedLess, a, b);
    SameElements(a, Sort(ParsedLess, a));
    if ra.Ok? { OutputUnique(judge, Sort(ParsedLess, a), ra.value, rb.value); }
  }

  ghost function AnEntity(key: string, g: seq<Psr>): (e: Entity)
    requires OneGuid(g)
    ensures IsEntity(e, key, g)
  {
    OrdersAreWeak();
    Entity(EntityId(key), key, g[0].native.guid.value, Arranged(IntLess, Versions(g)), StructuresOf(Sort(VersionLess,
        g)))
  }

  ghost function Entities(judge: Judgement, s: seq<Psr>, keys: seq<string>): (records: seq<Entity>)
    requires FirstGroupError(judge, s, keys).None?
    ensures AreEntities(judge, s, keys, records)
  {
    if keys == [] then [] else
      var front, last := keys[..|keys| - 1], keys[|keys| - 1];
      assert keys == front + [last];
      var records, e := Entities(judge, s, front), AnEntity(last, Select(judge, s, Event(last)));
      EntitiesGrow(judge, s, front, records, last, e);
      records + [e]
  }

  ghost function AnOutput(judge: Judgement, s: seq<Psr>): (out: Output)
    requires Failure(judge, s).None?
    ensures Normalises(judge, s, out)
  {
    var keys := SortedKeys(judge, s);
    var quarantined := Quarantines(Select(judge, s, Unidentified));
    Output(Entities(judge, s, keys), Sort(OutputLess, Lineages(judge, s, keys)), |keys|, 0, |quarantined|, quarantined,
           Notes(Select(judge, s, Outside)) + [CLOSING])
  }

  /** Two tied elements of a sorted arrangement can change places. */
  lemma SwapTied(a: seq<string>, S: set<string>, i: nat, j: nat)
    requires Arranges(IntLess, a, S) && i < j < |a| && Value(a[i]) == Value(a[j])
    ensures Arranges(IntLess, a[i := a[j]][j := a[i]], S) && a[i := a[j]][j := a[i]] != a
  {
    var b := a[i := a[j]][j := a[i]];
    forall k, l | 0 <= k < l < |b| ensures !IntLess(b[l], b[k]) && b[k] != b[l] {
      assert Value(b[k]) == Value(a[k]) && Value(b[l]) == Value(a[l]);
      assert !IntLess(a[l], a[k]);
    }
    forall x ensures x in b <==> x in a {
      if x in a {
        var k :| 0 <= k < |a| && a[k] == x;
        assert x == b[if k == i then j else if k == j then i else k];
      }
    }
  }

  /** A group with tied versions has two entities. */
  lemma TiedEntitiesDiffer(e: Entity, key: string, g: seq<Psr>, x: Psr, y: Psr) returns (f: Entity)
    requires IsEntity(e, key, g) && x in g && y in g
    requires Value(VersionOf(x)) == Value(VersionOf(y)) && VersionOf(x) != VersionOf(y)
    ensures IsEntity(f, key, g) && f != e
  {
    assert VersionOf(x) in Versions(g) && VersionOf(y) in Versions(g);
    var m :| 0 <= m < |e.versions| && e.versions[m] == VersionOf(x);
    var n :| 0 <= n < |e.versions| && e.versions[n] == VersionOf(y);
    var lo, hi := if m < n then m else n, if m < n then n else m;
    SwapTied(e.versions, Versions(g), lo, hi);
    f := e.(versions := e.versions[lo := e.versions[hi]][hi := e.versions[lo]]);
  }

  lemma TiedVersionsDiffer(judge: Judgement, s: seq<Psr>, x: Psr, y: Psr) returns (a: Output, b: Output)
    requires Failure(judge, s).None? && x in s && y in s && SameVersion(judge, x, y) && VersionOf(x) != VersionOf(y)
    ensures Normalises(judge, s, a) && Normalises(judge, s, b) && a != b
  {
    a := AnOutput(judge, s);
    var k, keys := judge(x).id, SortedKeys(judge, s);
    SortedKeysAreKeys(judge, s);
    var i :| 0 <= i < |keys| && keys[i] == k;
    assert EntityAt(judge, s, keys, a.records, i);
    var f := TiedEntitiesDiffer(a.records[i], k, Select(judge, s, Event(k)), x, y);
    b := a.(records := a.records[i := f]);
    OneChanged(judge, s, keys, a.records, i, f);
    assert b.records[i] != a.records[i];
  }

  lemma OneChanged(judge: Judgement, s: seq<Psr>, keys: seq<string>, records: seq<Entity>, i: nat, f: Entity)
    requires AreEntities(judge, s, keys, records) && i < |keys|
        && IsEntity(f, keys[i], Select(judge, s, Event(keys[i])))
    ensures AreEntities(judge, s, keys, records[i := f])
  {
    var after := records[i := f];
    forall j | 0 <= j < |keys| ensures EntityAt(judge, s, keys, after, j) {
      assert EntityAt(judge, s, keys, records, j);
    }
  }

  /** The records determine the output exactly when no event has two texts for one version number. */
  lemma DeterminedIff(judge: Judgement, s: seq<Psr>)
    requires Failure(judge, s).None?
    ensures (forall a, b :: Normalises(judge, s, a) && Normalises(judge, s, b) ==> a == b) <==> VersionsApart(judge, s)
  {
    if VersionsApart(judge, s) {
      forall a, b | Normalises(judge, s, a) && Normalises(judge, s, b) ensures a == b { OutputUnique(judge, s, a, b); }
    } else {
      var x, y :| x in s && y in s && SameVersion(judge, x, y) && VersionOf(x) != VersionOf(y);
      var a, b := TiedVersionsDiffer(judge, s, x, y);
    }
  }

  function Sample(id: string, version: string): Psr {
    Psr(Some(id), Some("snapshot"), Some("source"), Some("1.0.0"), Some("windows-event-provider-definition"), Some(id),
        Native(Some("5"), Some(version), Some("provider"), Some("channel"), Some("guid"), ""))
  }

  lemma SampleJudged(id: string, version: string)
    requires IsDigits(version)
    ensures Judge(Profile(Some("source"), "provider", "channel"), Sample(id, version)) == Event("5")
  {
  }

  predicate Complete(r: Psr) { r.native.guid == Some("guid") && r.parsedId.Some? && r.snapshot.Some? }

  lemma GroupPasses(k: string, g: seq<Psr>)
    requires g != [] && forall r :: r in g ==> Complete(r)
    ensures GroupError(k, g).None?
  {
    assert g[0] in g;
  }

  lemma AllPass(judge: Judgement, s: seq<Psr>)
    requires AllGood(judge, s) && forall r :: r in s ==> Complete(r)
    ensures Failure(judge, s).None?
  {
    SortedKeysAreKeys(judge, s);
    forall k | k in SortedKeys(judge, s) ensures GroupError(k, Select(judge, s, Event(k))).None? {
      var r :| r in s && judge(r) == Event(k);
      assert r in Select(judge, s, Event(k));
      GroupPasses(k, Select(judge, s, Event(k)));
    }
  }

  lemma TwoTextsDiffer(judge: Judgement, x: Psr, y: Psr) returns (a: Output, b: Output)
    requires judge(x) == judge(y) == Event("5") && Complete(x) && Complete(y)
    requires Value(VersionOf(x)) == Value(VersionOf(y)) && VersionOf(x) != VersionOf(y)
    ensures Answers(judge, [x, y], Ok(a)) && Answers(judge, [x, y], Ok(b)) && a != b
  {
    AllPass(judge, [x, y]);
    assert x in [x, y] && y in [x, y];
    a, b := TiedVersionsDiffer(judge, [x, y], x, y);
  }

  /** Two observations of event 5, version 1 written in two ways: accepted, and two outputs are possible. */
  lemma TwoTextsOfOneVersion(judge: Judgement) returns (a: Output, b: Output)
    requires judge == Judging(Profile(Some("source"), "provider", "channel"))
    ensures Answers(judge, [Sample("x", "1"), Sample("y", "01")], Ok(a))
    ensures Answers(judge, [Sample("x", "1"), Sample("y", "01")], Ok(b))
    ensures a != b
  {
    SampleJudged("x", "1");
    SampleJudged("y", "01");
    assert "01"[..1] == "0" && ToNat("0") == 0 && ToNat("01") == 1 && ToNat("1") == 1;
    a, b := TwoTextsDiffer(judge, Sample("x", "1"), Sample("y", "01"));
  }
}

/** When provider normalisation succeeds, and what it then holds, in terms of the records' own fields. */
module NormalizerMeaning {
  import opened Wrappers
  import opened Ordering
  import opened Text
  import opened Normalizer
  import opened NormalizerTheorems

  // ----- one record -----

  predicate Decimal(s: string) { s != "" && forall k :: 0 <= k < |s| ==> '0' <= s[k] <= '9' }

  /** From the pinned source, in the supported version. */
  predicate FromSource(p: Profile, r: Psr) { r.sourceId == p.sourceId && r.psrVersion == Some("1.0.0") }

  predicate IsDefinition(r: Psr) { r.nativeType == Some("windows-event-provider-definition") }

  /** r defines event k of the profile's provider and channel. */
  predicate Defines(p: Profile, r: Psr, k: string) {
    && FromSource(p, r) && IsDefinition(r)
    && r.native.eventId == Some(k) && Decimal(k)
    && r.native.eventVersion.Some? && Decimal(r.native.eventVersion.value)
    && r.native.provider == Some(p.provider) && r.native.channel == Some(p.channel)
  }

  predicate IsForeign(p: Profile, r: Psr) { FromSource(p, r) && !IsDefinition(r) }

  predicate LacksId(p: Profile, r: Psr) {
    FromSource(p, r) && IsDefinition(r) && (r.native.eventId.None? || !Decimal(r.native.eventId.value))
  }

  lemma JudgeMeans(p: Profile, r: Psr)
    ensures forall k :: Judge(p, r) == Event(k) <==> Defines(p, r, k)
    ensures Judge(p, r) == Outside <==> IsForeign(p, r)
    ensures Judge(p, r) == Unidentified <==> LacksId(p, r)
    ensures Judge(p, r).Bad? <==>
      !IsForeign(p, r) && !LacksId(p, r) && (r.native.eventId.None? || !Defines(p, r, r.native.eventId.value))
  {
  }

  /** Some record defines event k. */
  ghost predicate IsDefined(p: Profile, s: seq<Psr>, k: string) { exists r :: r in s && Defines(p, r, k) }

  // ----- success -----

  /** Every record is of one of the three kinds; records of one event agree on a provider GUID, and carry what
      their lineage needs. */
  ghost predicate Accepts(p: Profile, input: seq<Psr>) {
    && (forall r :: r in input ==> IsForeign(p, r) || LacksId(p, r) || exists k :: Defines(p, r, k))
    && (forall r, k :: r in input && Defines(p, r, k) ==>
          && r.native.guid.Some? && r.native.guid.value != "" && r.parsedId.Some? && r.snapshot.Some?)
    && forall x, y, k :: x in input && y in input && Defines(p, x, k) && Defines(p, y, k) ==>
        x.native.guid == y.native.guid
  }

  lemma AllGoodMeans(p: Profile, s: seq<Psr>)
    ensures AllGood(Judging(p), s) <==>
      forall r :: r in s ==> IsForeign(p, r) || LacksId(p, r) || exists k :: Defines(p, r, k)
  {
    forall r ensures !Judge(p, r).Bad? <==> IsForeign(p, r) || LacksId(p, r) || exists k :: Defines(p, r, k) {
      JudgeMeans(p, r);
      if k :| Defines(p, r, k) { assert r.native.eventId == Some(k); }
    }
  }

  ghost predicate GroupAccepted(p: Profile, s: seq<Psr>, k: string) {
    && (forall r :: r in s && Defines(p, r, k) ==>
          r.native.guid.Some? && r.native.guid.value != "" && r.parsedId.Some? && r.snapshot.Some?)
    && forall x, y :: x in s && y in s && Defines(p, x, k) && Defines(p, y, k) ==> x.native.guid == y.native.guid
  }

  lemma SelectMeans(p: Profile, s: seq<Psr>, k: string, r: Psr)
    ensures r in Select(Judging(p), s, Event(k)) <==> r in s && Defines(p, r, k)
  {
    JudgeMeans(p, r);
  }

  lemma GroupErrorMeans(key: string, g: seq<Psr>)
    requires g != []
    ensures GroupError(key, g).None? <==>
      && (forall r :: r in g ==>
            r.native.guid.Some? && r.native.guid.value != "" && r.parsedId.Some? && r.snapshot.Some?)
      && forall x, y :: x in g && y in g ==> x.native.guid == y.native.guid
  {
    assert g[0] in g;
  }

  lemma GroupMeans(p: Profile, s: seq<Psr>, k: string)
    requires k in Keys(Judging(p), s)
    ensures GroupError(k, Select(Judging(p), s, Event(k))).None? <==> GroupAccepted(p, s, k)
  {
    var g := Select(Judging(p), s, Event(k));
    forall r ensures r in g <==> r in s && Defines(p, r, k) { SelectMeans(p, s, k, r); }
    GroupsAreKeys(Judging(p), s, k);
    KeysMean(p, s, k);
    assert g != [] by {
      var first :| first in s && Defines(p, first, k);
      assert first in g;
    }
    GroupErrorMeans(k, g);
  }

  lemma KeysMean(p: Profile, s: seq<Psr>, k: string)
    ensures k in Keys(Judging(p), s) <==> IsDefined(p, s, k)
  {
    forall r ensures Judging(p)(r) == Event(k) <==> Defines(p, r, k) { JudgeMeans(p, r); }
    if r :| r in s && Defines(p, r, k) { assert Judging(p)(r) == Event(k); }
    if r :| r in s && Judging(p)(r) == Event(k) { assert Defines(p, r, k); }
  }

  lemma EachGroupAccepted(p: Profile, s: seq<Psr>)
    ensures (forall k :: k in Keys(Judging(p), s) ==> GroupAccepted(p, s, k)) <==> (forall k :: GroupAccepted(p, s, k))
  {
    forall k | k !in Keys(Judging(p), s) ensures GroupAccepted(p, s, k) {
      KeysMean(p, s, k);
      forall r | r in s ensures !Defines(p, r, k) { }
    }
  }

  lemma GroupsAccepted(p: Profile, s: seq<Psr>)
    requires AllGood(Judging(p), s)
    ensures (forall k :: GroupAccepted(p, s, k)) <==> Accepts(p, s)
  {
    AllGoodMeans(p, s);
    if forall k :: GroupAccepted(p, s, k) {
      forall r, k | r in s && Defines(p, r, k)
        ensures r.native.guid.Some? && r.native.guid.value != "" && r.parsedId.Some? && r.snapshot.Some?
      {
        assert GroupAccepted(p, s, k);
      }
      forall x, y, k | x in s && y in s && Defines(p, x, k) && Defines(p, y, k) ensures x.native.guid == y.native.guid {
        assert GroupAccepted(p, s, k);
      }
    }
  }

  lemma FailureMeans(p: Profile, s: seq<Psr>)
    ensures Failure(Judging(p), s).None? <==> Accepts(p, s)
  {
    var judge := Judging(p);
    AllGoodMeans(p, s);
    if AllGood(judge, s) {
      SortedKeysAreKeys(judge, s);
      forall k | k in Keys(judge, s)
        ensures GroupError(k, Select(judge, s, Event(k))).None? <==> GroupAccepted(p, s, k)
      {
        GroupMeans(p, s, k);
      }
      EachGroupAccepted(p, s);
      GroupsAccepted(p, s);
    }
  }

  // ----- the output -----

  function IdOf(key: string): string { "atlas:event:microsoft.windows.security:" + key }

  ghost predicate HasVersion(p: Profile, s: seq<Psr>, k: string, v: string) {
    exists r :: r in s && Defines(p, r, k) && r.native.eventVersion == Some(v)
  }

  ghost predicate HasStructure(p: Profile, s: seq<Psr>, k: string, x: Structure) {
    exists r :: r in s && Defines(p, r, k) && r.native.eventVersion == Some(x.version) && r.native.structure == x.body
  }

  predicate InNumber(a: string, b: string) { Decimal(a) && Decimal(b) && ToNat(a) <= ToNat(b) }

  /** The entity of an event: its GUID, its versions once each and its structures, both by version number. */
  ghost predicate EntityHolds(p: Profile, s: seq<Psr>, e: Entity) {
    && e.id == IdOf(e.key)
    && (forall r :: r in s && Defines(p, r, e.key) ==> r.native.guid == Some(e.guid))
    && (forall v :: v in e.versions <==> HasVersion(p, s, e.key, v))
    && (forall i, j :: 0 <= i < j < |e.versions| ==>
          e.versions[i] != e.versions[j] && InNumber(e.versions[i], e.versions[j]))
    && (forall x :: x in e.structures <==> HasStructure(p, s, e.key, x))
    && forall i, j :: 0 <= i < j < |e.structures| ==> InNumber(e.structures[i].version, e.structures[j].version)
  }

  ghost predicate HasParsedId(p: Profile, s: seq<Psr>, k: string, x: string) {
    exists r :: r in s && Defines(p, r, k) && r.parsedId == Some(x)
  }

  ghost predicate HasSnapshot(p: Profile, s: seq<Psr>, k: string, x: string) {
    exists r :: r in s && Defines(p, r, k) && r.snapshot == Some(x)
  }

  ghost predicate CodeOrder(s: seq<string>) { forall i, j :: 0 <= i < j < |s| ==> StrBelow(s[i], s[j]) }

  /** The lineage of an event: the parsed records and the snapshots it comes from. */
  ghost predicate LineageHolds(p: Profile, s: seq<Psr>, k: string, l: Lineage) {
    && l.output == IdOf(k)
    && CodeOrder(l.parsedIds) && (forall x :: x in l.parsedIds <==> HasParsedId(p, s, k, x))
    && CodeOrder(l.snapshots) && (forall x :: x in l.snapshots <==> HasSnapshot(p, s, k, x))
  }

  lemma VersionsAscend(e: Entity, key: string, g: seq<Psr>, i: nat, j: nat)
    requires IsEntity(e, key, g) && i < j < |e.versions|
    requires forall r :: r in g ==> r.native.eventVersion.Some? && Decimal(r.native.eventVersion.value)
    ensures e.versions[i] != e.versions[j] && InNumber(e.versions[i], e.versions[j])
  {
    assert e.versions[i] in Versions(g) && e.versions[j] in Versions(g);
    assert !IntLess(e.versions[j], e.versions[i]);
  }

  lemma StructuresAscend(g: seq<Psr>, i: nat, j: nat)
    requires i < j < |g| && forall r :: r in g ==> r.native.eventVersion.Some? && Decimal(r.native.eventVersion.value)
    ensures var t := StructuresOf(Sort(VersionLess, g)); |t| == |g| && InNumber(t[i].version, t[j].version)
  {
    var s := Sort(VersionLess, g);
    SameElements(g, s);
    VersionOrder();
    SortSorted(VersionLess, g);
    assert s[i] in g && s[j] in g && !VersionLess(s[j], s[i]);
  }

  lemma VersionOrder()
    ensures StrictWeak(VersionLess)
  {
  }

  lemma StructureMeans(g: seq<Psr>, x: Structure)
    requires forall r :: r in g ==> r.native.eventVersion.Some?
    ensures x in StructuresOf(Sort(VersionLess, g)) <==>
      exists r :: r in g && r.native.eventVersion == Some(x.version) && r.native.structure == x.body
  {
    var s := Sort(VersionLess, g);
    SameElements(g, s);
    if x in StructuresOf(s) {
      var i :| 0 <= i < |s| && StructuresOf(s)[i] == x;
      assert s[i] in g && s[i].native.eventVersion == Some(x.version) && s[i].native.structure == x.body;
    }
    if r :| r in g && r.native.eventVersion == Some(x.version) && r.native.structure == x.body {
      StructureListed(g, r);
    }
  }

  lemma EntityMeans(p: Profile, s: seq<Psr>, k: string, e: Entity)
    requires IsEntity(e, k, Select(Judging(p), s, Event(k))) && GroupAccepted(p, s, k)
    ensures EntityHolds(p, s, e) && e.key == k
  {
    var g := Select(Judging(p), s, Event(k));
    forall r ensures r in g <==> r in s && Defines(p, r, k) { SelectMeans(p, s, k, r); }
    assert g[0] in g;
    forall v ensures v in e.versions <==> HasVersion(p, s, k, v) {
      if r :| r in s && Defines(p, r, k) && r.native.eventVersion == Some(v) { assert r in g && VersionOf(r) == v; }
      if v in Versions(g) { var r :| r in g && VersionOf(r) == v; }
    }
    forall i, j | 0 <= i < j < |e.versions|
      ensures e.versions[i] != e.versions[j] && InNumber(e.versions[i], e.versions[j])
    {
      VersionsAscend(e, k, g, i, j);
    }
    forall x ensures x in e.structures <==> HasStructure(p, s, k, x) { StructureMeans(g, x); }
    SameElements(g, Sort(VersionLess, g));
    forall i, j | 0 <= i < j < |e.structures| ensures InNumber(e.structures[i].version, e.structures[j].version) {
      StructuresAscend(g, i, j);
    }
  }

  lemma SortedMeans(S: set<string>)
    ensures CodeOrder(SortedStrings(S)) && forall x :: x in SortedStrings(S) <==> x in S
  {
    StrStrictTotal();
    var s := SortedStrings(S);
    forall i, j | 0 <= i < j < |s| ensures StrBelow(s[i], s[j]) {
      assert s[i] != s[j] && !StrLess(s[j], s[i]);
      StrLessMeans(s[i], s[j]);
    }
  }

  lemma LineageMeans(p: Profile, s: seq<Psr>, k: string)
    ensures LineageHolds(p, s, k, LineageOf(k, Select(Judging(p), s, Event(k))))
  {
    var g := Select(Judging(p), s, Event(k));
    forall r ensures r in g <==> r in s && Defines(p, r, k) { SelectMeans(p, s, k, r); }
    SortedMeans(ParsedIds(g));
    SortedMeans(Snapshots(g));
    forall x ensures x in ParsedIds(g) <==> HasParsedId(p, s, k, x) {
      if r :| r in s && Defines(p, r, k) && r.parsedId == Some(x) { assert r in g; }
    }
    forall x ensures x in Snapshots(g) <==> HasSnapshot(p, s, k, x) {
      if r :| r in s && Defines(p, r, k) && r.snapshot == Some(x) { assert r in g; }
    }
  }

  // ----- all of it -----

  function IdKey(id: Option<string>): string { if id.Some? then id.value else "" }

  /** q stands for a record without an event ID. */
  ghost predicate Reports(p: Profile, s: seq<Psr>, q: Quarantine) {
    exists r :: r in s && LacksId(p, r) && q == Quarantine(r.parsedId, r.nativeKey, "missing-or-invalid-event-id")
  }

  /** What was quarantined, and why, by parsed-record ID. */
  ghost predicate QuarantineHolds(p: Profile, s: seq<Psr>, quarantined: seq<Quarantine>) {
    && (forall q :: q in quarantined <==> Reports(p, s, q))
    && forall i, j :: 0 <= i < j < |quarantined| ==>
         !StrBelow(IdKey(quarantined[j].parsedId), IdKey(quarantined[i].parsedId))
  }

  function Remark(r: Psr): string {
    (if r.nativeKey.Some? then r.nativeKey.value else "None")
    + ": unsupported native type preserved outside canonical output"
  }

  const FINAL_REMARK :=
    "Provider inventory observation creates canonical identity shells and structural metadata only; "
    + "global lifecycle remains unset pending explicit lifecycle evidence/policy."

  /** x is about a record of another type. */
  ghost predicate Remarks(p: Profile, s: seq<Psr>, x: string) {
    exists r :: r in s && IsForeign(p, r) && x == Remark(r)
  }

  /** One remark for each record of another type, then the final one. */
  ghost predicate DiagnosticsHold(p: Profile, s: seq<Psr>, diagnostics: seq<string>) {
    exists notes :: diagnostics == notes + [FINAL_REMARK] && forall x :: x in notes <==> Remarks(p, s, x)
  }

  ghost predicate HasKey(records: seq<Entity>, k: string) { exists i :: 0 <= i < |records| && records[i].key == k }

  ghost predicate EventLineage(p: Profile, s: seq<Psr>, l: Lineage) {
    exists k :: IsDefined(p, s, k) && LineageHolds(p, s, k, l)
  }

  /** One entity per event, by number; one lineage per event, by ID. */
  ghost predicate RecordsHold(p: Profile, s: seq<Psr>, out: Output) {
    && EntitiesHold(p, s, out.records)
    && (forall l :: l in out.lineage <==> EventLineage(p, s, l))
    && forall i, j :: 0 <= i < j < |out.lineage| ==> StrBelow(out.lineage[i].output, out.lineage[j].output)
  }

  /** Everything normalize_psr returns. */
  ghost predicate OutputHolds(p: Profile, s: seq<Psr>, out: Output) {
    && RecordsHold(p, s, out) && QuarantineHolds(p, s, out.quarantined) && DiagnosticsHold(p, s, out.diagnostics)
    && out.created == |out.records| && out.matched == 0 && out.ambiguous == |out.quarantined|
  }

  lemma ReportMeans(p: Profile, s: seq<Psr>, t: seq<Psr>, q: Quarantine)
    requires forall r :: r in t <==> r in s && LacksId(p, r)
    ensures q in Quarantines(t) <==> Reports(p, s, q)
  {
    if q in Quarantines(t) {
      var i :| 0 <= i < |t| && Quarantines(t)[i] == q;
      assert t[i] in t;
    }
    if r :| r in s && LacksId(p, r) && q == Quarantine(r.parsedId, r.nativeKey, "missing-or-invalid-event-id") {
      var i :| 0 <= i < |t| && t[i] == r;
      assert Quarantines(t)[i] == q;
    }
  }

  lemma QuarantineMeans(p: Profile, s: seq<Psr>, t: seq<Psr>)
    requires Sorted(ParsedLess, t) && forall r :: r in t <==> r in s && LacksId(p, r)
    ensures QuarantineHolds(p, s, Quarantines(t))
  {
    forall q ensures q in Quarantines(t) <==> Reports(p, s, q) { ReportMeans(p, s, t, q); }
    forall i, j | 0 <= i < j < |t| ensures !StrBelow(IdKey(t[j].parsedId), IdKey(t[i].parsedId)) {
      assert !ParsedLess(t[j], t[i]);
      StrLessMeans(ParsedKey(t[j]), ParsedKey(t[i]));
    }
  }

  lemma RemarkMeans(p: Profile, s: seq<Psr>, t: seq<Psr>, x: string)
    requires forall r :: r in t <==> r in s && IsForeign(p, r)
    ensures x in Notes(t) <==> Remarks(p, s, x)
  {
    if x in Notes(t) {
      var i :| 0 <= i < |t| && Notes(t)[i] == x;
      assert t[i] in t && x == Remark(t[i]);
    }
    if r :| r in s && IsForeign(p, r) && x == Remark(r) {
      var i :| 0 <= i < |t| && t[i] == r;
      assert Notes(t)[i] == x;
    }
  }

  lemma DiagnosticsMean(p: Profile, s: seq<Psr>, t: seq<Psr>)
    requires forall r :: r in t <==> r in s && IsForeign(p, r)
    ensures DiagnosticsHold(p, s, Notes(t) + [CLOSING])
  {
    forall x ensures x in Notes(t) <==> Remarks(p, s, x) { RemarkMeans(p, s, t, x); }
    assert CLOSING == FINAL_REMARK;
  }

  lemma {:induction false} SelectSorted(judge: Judgement, s: seq<Psr>, v: Verdict)
    requires Sorted(ParsedLess, s)
    ensures Sorted(ParsedLess, Select(judge, s, v))
  {
    if s != [] {
      var last := |s| - 1;
      SelectSorted(judge, s[..last], v);
      var t := Select(judge, s[..last], v);
      forall i | 0 <= i < |t| ensures !ParsedLess(s[last], t[i]) {
        assert t[i] in t;
        var k :| 0 <= k < last && s[..last][k] == t[i];
      }
    }
  }

  ghost predicate EntitiesHold(p: Profile, s: seq<Psr>, records: seq<Entity>) {
    && (forall k :: HasKey(records, k) <==> IsDefined(p, s, k))
    && (forall i :: 0 <= i < |records| ==> EntityHolds(p, s, records[i]))
    && forall i, j :: 0 <= i < j < |records| ==>
         records[i].key != records[j].key && InNumber(records[i].key, records[j].key)
  }

  lemma EntityAtMeans(p: Profile, s: seq<Psr>, keys: seq<string>, records: seq<Entity>, i: nat)
    requires Accepts(p, s) && AreEntities(Judging(p), s, keys, records) && i < |keys|
    ensures EntityHolds(p, s, records[i]) && records[i].key == keys[i]
  {
    assert EntityAt(Judging(p), s, keys, records, i);
    EntityMeans(p, s, keys[i], records[i]);
  }

  lemma EntitiesMean(p: Profile, s: seq<Psr>, records: seq<Entity>)
    requires Accepts(p, s) && AreEntities(Judging(p), s, SortedKeys(Judging(p), s), records)
    ensures EntitiesHold(p, s, records)
  {
    var keys := SortedKeys(Judging(p), s);
    SortedKeysAreKeys(Judging(p), s);
    forall i | 0 <= i < |keys| ensures EntityHolds(p, s, records[i]) && records[i].key == keys[i] {
      EntityAtMeans(p, s, keys, records, i);
    }
    forall k ensures HasKey(records, k) <==> IsDefined(p, s, k) {
      KeysMean(p, s, k);
      KeyAt(keys, records, k);
    }
    forall i, j | 0 <= i < j < |keys| ensures keys[i] != keys[j] && InNumber(keys[i], keys[j]) {
      KeysAscend(p, s, i, j);
    }
  }

  lemma KeyAt(keys: seq<string>, records: seq<Entity>, k: string)
    requires |records| == |keys| && forall i :: 0 <= i < |keys| ==> records[i].key == keys[i]
    ensures HasKey(records, k) <==> k in keys
  {
    if k in keys {
      var i :| 0 <= i < |keys| && keys[i] == k;
      assert records[i].key == k;
    }
  }

  lemma KeysAscend(p: Profile, s: seq<Psr>, i: nat, j: nat)
    requires i < j < |SortedKeys(Judging(p), s)|
    ensures var keys := SortedKeys(Judging(p), s); keys[i] != keys[j] && InNumber(keys[i], keys[j])
  {
    var judge := Judging(p);
    var keys := SortedKeys(judge, s);
    SortedKeysAreKeys(judge, s);
    OrdersAreWeak();
    SortSorted(IntLess, Keys(judge, s));
    assert keys[i] in keys && keys[j] in keys && !IntLess(keys[j], keys[i]);
    KeysMean(p, s, keys[i]);
    KeysMean(p, s, keys[j]);
  }

  lemma LineagesMean(p: Profile, s: seq<Psr>, out: Output)
    requires Normalises(Judging(p), s, out)
    ensures forall l :: l in out.lineage <==> EventLineage(p, s, l)
  {
    var judge := Judging(p);
    forall l ensures l in out.lineage <==> EventLineage(p, s, l) {
      LineagesOfKeys(judge, s, out, l);
      if l in out.lineage {
        var k :| k in Keys(judge, s) && l == LineageOf(k, Select(judge, s, Event(k)));
        KeysMean(p, s, k);
        LineageMeans(p, s, k);
      }
      if k :| IsDefined(p, s, k) && LineageHolds(p, s, k, l) {
        KeysMean(p, s, k);
        LineageMeans(p, s, k);
        LineageUnique(p, s, k, l, LineageOf(k, Select(judge, s, Event(k))));
      }
    }
  }

  lemma LineageUnique(p: Profile, s: seq<Psr>, k: string, a: Lineage, b: Lineage)
    requires LineageHolds(p, s, k, a) && LineageHolds(p, s, k, b)
    ensures a == b
  {
    SameCodeOrder(a.parsedIds, b.parsedIds);
    SameCodeOrder(a.snapshots, b.snapshots);
  }

  lemma SameCodeOrder(a: seq<string>, b: seq<string>)
    requires CodeOrder(a) && CodeOrder(b) && forall x :: x in a <==> x in b
    ensures a == b
  {
    StrStrictTotal();
    CodeOrderArranges(a);
    CodeOrderArranges(b);
    ArrangeUnique(StrLess, a, b, set x | x in a);
  }

  lemma CodeOrderArranges(a: seq<string>)
    requires CodeOrder(a)
    ensures Arranges(StrLess, a, set x | x in a)
  {
    StrStrictTotal();
    forall i, j | 0 <= i < j < |a| ensures a[i] != a[j] && !StrLess(a[j], a[i]) {
      assert StrBelow(a[i], a[j]);
      StrLessMeans(a[i], a[j]);
    }
  }

  lemma LineagesAscend(p: Profile, s: seq<Psr>, out: Output)
    requires Normalises(Judging(p), s, out)
    ensures forall i, j :: 0 <= i < j < |out.lineage| ==> StrBelow(out.lineage[i].output, out.lineage[j].output)
  {
    var judge, keys := Judging(p), SortedKeys(Judging(p), s);
    var ls := Lineages(judge, s, keys);
    SortedKeysAreKeys(judge, s);
    OrdersAreWeak();
    SortSorted(OutputLess, ls);
    forall i, j | 0 <= i < j < |ls| ensures ls[i].output != ls[j].output {
      assert ls[i].output == EntityId(keys[i]) && ls[j].output == EntityId(keys[j]) && keys[i] != keys[j];
      if ls[i].output == ls[j].output { EntityIdInjective(keys[i], keys[j]); }
    }
    DistinctOutputs(ls, out.lineage);
    StrStrictTotal();
    forall i, j | 0 <= i < j < |out.lineage| ensures StrBelow(out.lineage[i].output, out.lineage[j].output) {
      assert !OutputLess(out.lineage[j], out.lineage[i]) && out.lineage[i].output != out.lineage[j].output;
      StrLessMeans(out.lineage[i].output, out.lineage[j].output);
    }
  }

  lemma DistinctOutputs(a: seq<Lineage>, b: seq<Lineage>)
    requires multiset(a) == multiset(b) && forall i, j :: 0 <= i < j < |a| ==> a[i].output != a[j].output
    ensures forall i, j :: 0 <= i < j < |b| ==> b[i].output != b[j].output
  {
    assert NoDup(a);
    MultisetNoDup(a, b);
    SameElements(a, b);
    forall i, j | 0 <= i < j < |b| ensures b[i].output != b[j].output {
      assert b[i] in a && b[j] in a && b[i] != b[j];
      var k :| 0 <= k < |a| && a[k] == b[i];
      var l :| 0 <= l < |a| && a[l] == b[j];
      assert if k < l then a[k].output != a[l].output else a[l].output != a[k].output;
    }
  }

  lemma AcceptsPermuted(p: Profile, a: seq<Psr>, b: seq<Psr>)
    requires multiset(a) == multiset(b)
    ensures Accepts(p, a) <==> Accepts(p, b)
  {
    SameElements(a, b);
  }

  lemma FiledMean(p: Profile, s: seq<Psr>, quarantined: seq<Quarantine>, diagnostics: seq<string>)
    requires Sorted(ParsedLess, s)
    requires quarantined == Quarantines(Select(Judging(p), s, Unidentified))
    requires diagnostics == Notes(Select(Judging(p), s, Outside)) + [CLOSING]
    ensures QuarantineHolds(p, s, quarantined) && DiagnosticsHold(p, s, diagnostics)
  {
    SelectSorted(Judging(p), s, Unidentified);
    forall r ensures (Judge(p, r) == Unidentified <==> LacksId(p, r)) && (Judge(p, r) == Outside <==> IsForeign(p, r)) {
      JudgeMeans(p, r);
    }
    QuarantineMeans(p, s, Select(Judging(p), s, Unidentified));
    DiagnosticsMean(p, s, Select(Judging(p), s, Outside));
  }

  lemma NormalisedMeans(p: Profile, s: seq<Psr>, out: Output)
    requires Sorted(ParsedLess, s) && Accepts(p, s) && Normalises(Judging(p), s, out)
    ensures OutputHolds(p, s, out)
  {
    FiledMean(p, s, out.quarantined, out.diagnostics);
    EntitiesMean(p, s, out.records);
    LineagesMean(p, s, out);
    LineagesAscend(p, s, out);
  }

  /** normalize_psr succeeds exactly on acceptable records, and then its output holds what their fields say. */
  lemma OutputMeans(p: Profile, input: seq<Psr>, r: Result<Output>)
    requires Answers(Judging(p), Sort(ParsedLess, input), r)
    ensures r.Ok? <==> Accepts(p, input)
    ensures r.Ok? ==> OutputHolds(p, Sort(ParsedLess, input), r.value)
    ensures forall x :: x in Sort(ParsedLess, input) <==> x in input
  {
    var s := Sort(ParsedLess, input);
    SameElements(input, s);
    AcceptsPermuted(p, input, s);
    FailureMeans(p, s);
    OrdersAreWeak();
    SortSorted(ParsedLess, input);
    if r.Ok? { NormalisedMeans(p, s, r.value); }
  }
}

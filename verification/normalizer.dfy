/** normalize_psr of ingestion/normalizers/microsoft_windows_provider_metadata.py. */
module Normalizer {
  import opened Wrappers
  import opened Ordering
  import opened Text

  datatype Native = Native(eventId: Option<string>, eventVersion: Option<string>, provider: Option<string>,
                           channel: Option<string>, guid: Option<string>, structure: string)

  datatype Psr = Psr(parsedId: Option<string>, snapshot: Option<string>, sourceId: Option<string>,
                     psrVersion: Option<string>,
                     nativeType: Option<string>, nativeKey: Option<string>, native: Native)

  datatype Profile = Profile(sourceId: Option<string>, provider: string, channel: string)

  datatype Structure = Structure(version: string, body: string)

  datatype Entity = Entity(id: string, key: string, guid: string, versions: seq<string>, structures: seq<Structure>)

  datatype Lineage = Lineage(output: string, parsedIds: seq<string>, snapshots: seq<string>)

  datatype Quarantine = Quarantine(parsedId: Option<string>, nativeKey: Option<string>, reason: string)

  datatype Output = Output(records: seq<Entity>, lineage: seq<Lineage>, created: nat, matched: nat, ambiguous: nat,
                           quarantined: seq<Quarantine>, diagnostics: seq<string>)

  // ----- one record -----

  datatype Verdict = Bad(error: string) | Outside | Unidentified | Event(id: string)

  /** The branches of the first loop, in order. */
  function Judge(p: Profile, r: Psr): Verdict {
    if r.sourceId != p.sourceId then Bad("PSR source_id does not match pinned Windows provider source")
    else if r.psrVersion != Some("1.0.0") then Bad("unsupported PSR version")
    else if r.nativeType != Some("windows-event-provider-definition") then Outside
    else if r.native.eventId.None? || !IsDigits(r.native.eventId.value) then Unidentified
    else
      var id := r.native.eventId.value;
      if r.native.eventVersion.None?
          || !IsDigits(r.native.eventVersion.value) then Bad("Windows Event ID " + id + ": invalid event version")
      else if r.native.provider != Some(p.provider) then Bad("Windows Event ID " + id + ": provider mismatch")
      else if r.native.channel != Some(p.channel) then Bad("Windows Event ID " + id + ": channel mismatch")
      else Event(id)
  }

  type Judgement = Psr -> Verdict

  function Judging(p: Profile): Judgement { r => Judge(p, r) }

  function Select(judge: Judgement, s: seq<Psr>, v: Verdict): (t: seq<Psr>)
    ensures forall r :: r in t <==> r in s && judge(r) == v
    ensures |t| <= |s|
  {
    if s == [] then [] else
      var last := |s| - 1;
      assert s == s[..last] + [s[last]];
      Select(judge, s[..last], v) + if judge(s[last]) == v then [s[last]] else []
  }

  /** The event IDs in order of first appearance: the keys of the group dictionary. */
  function Keys(judge: Judgement, s: seq<Psr>): (ks: seq<string>)
    ensures NoDup(ks)
    ensures forall k :: k in ks <==> exists r :: r in s && judge(r) == Event(k)
  {
    if s == [] then [] else
      var last := |s| - 1;
      assert s == s[..last] + [s[last]];
      var ks := Keys(judge, s[..last]);
      var v := judge(s[last]);
      if v.Event? && v.id !in ks then ks + [v.id] else ks
  }

  function FirstBad(judge: Judgement, s: seq<Psr>): (e: Option<string>)
    ensures e.None? <==> forall r :: r in s ==> !judge(r).Bad?
  {
    if s == [] then None else
      var last := |s| - 1;
      assert s == s[..last] + [s[last]];
      var e := FirstBad(judge, s[..last]);
      if e.None? && judge(s[last]).Bad? then Some(judge(s[last]).error) else e
  }

  // ----- orders -----

  function Value(s: string): nat { if IsDigits(s) then ToNat(s) else 0 }

  predicate IntLess(a: string, b: string) { Value(a) < Value(b) }

  function ParsedKey(r: Psr): string { if r.parsedId.Some? then r.parsedId.value else "" }

  predicate ParsedLess(a: Psr, b: Psr) { StrLess(ParsedKey(a), ParsedKey(b)) }

  function VersionOf(r: Psr): string { if r.native.eventVersion.Some? then r.native.eventVersion.value else "" }

  predicate VersionLess(a: Psr, b: Psr) { IntLess(VersionOf(a), VersionOf(b)) }

  predicate KeyLess(a: Entity, b: Entity) { IntLess(a.key, b.key) }

  predicate OutputLess(a: Lineage, b: Lineage) { StrLess(a.output, b.output) }

  lemma OrdersAreWeak()
    ensures StrictWeak(IntLess) && StrictWeak(ParsedLess) && StrictWeak(OutputLess)
  {
    StrStrictTotal();
    StrictTotalIsWeak(StrLess);
    assert forall x: Psr, y, z :: !ParsedLess(x, y) && !ParsedLess(y, z) ==> !ParsedLess(x, z);
    assert forall x: Lineage, y, z :: !OutputLess(x, y) && !OutputLess(y, z) ==> !OutputLess(x, z);
  }

  /** sorted() leaves a sorted list as it is. */
  lemma {:induction false} SortOfSorted<T(!new)>(lt: (T, T) -> bool, s: seq<T>)
    requires Sorted(lt, s)
    ensures Sort(lt, s) == s
  {
    if s != [] { SortOfSorted(lt, s[1..]); }
  }

  // ----- one group -----

  ghost function Versions(g: seq<Psr>): set<string> { set r | r in g :: VersionOf(r) }

  ghost function ParsedIds(g: seq<Psr>): set<string> { set r | r in g && r.parsedId.Some? :: r.parsedId.value }

  ghost function Snapshots(g: seq<Psr>): set<string> { set r | r in g && r.snapshot.Some? :: r.snapshot.value }

  predicate Whole(g: seq<Psr>) { forall r :: r in g ==> r.parsedId.Some? && r.snapshot.Some? }

  /** The one provider GUID of a group. */
  predicate OneGuid(g: seq<Psr>) {
    && g != [] && g[0].native.guid.Some? && g[0].native.guid.value != ""
    && forall r :: r in g ==> r.native.guid == g[0].native.guid
  }

  function GroupError(key: string, g: seq<Psr>): Option<string> {
    if (exists r :: r in g && r.native.guid.None?) && (exists r :: r in g && r.native.guid.Some?) then Some("TypeError")
    else if !OneGuid(g) then Some("Windows Event ID " + key + ": inconsistent provider GUID across versions")
    else if !Whole(g) then Some("KeyError")
    else None
  }

  function FirstGroupError(judge: Judgement, s: seq<Psr>, keys: seq<string>): (e: Option<string>)
    ensures e.None? <==> forall k :: k in keys ==> GroupError(k, Select(judge, s, Event(k))).None?
  {
    if keys == [] then None else
      var last := |keys| - 1;
      assert keys == keys[..last] + [keys[last]];
      var e := FirstGroupError(judge, s, keys[..last]);
      if e.Some? then e else GroupError(keys[last], Select(judge, s, Event(keys[last])))
  }

  function StructuresOf(g: seq<Psr>): (t: seq<Structure>)
    ensures |t| == |g|
  {
    seq(|g|, i requires 0 <= i < |g| => Structure(VersionOf(g[i]), g[i].native.structure))
  }

  function EntityId(key: string): string { "atlas:event:microsoft.windows.security:" + key }

  /** versions is sorted(set, key=int): where two version texts have one value, any order of the two. */
  ghost predicate IsEntity(e: Entity, key: string, g: seq<Psr>) {
    && e.id == EntityId(key) && e.key == key && g != [] && Some(e.guid) == g[0].native.guid
    && Arranges(IntLess, e.versions, Versions(g))
    && e.structures == StructuresOf(Sort(VersionLess, g))
  }

  ghost function LineageOf(key: string, g: seq<Psr>): Lineage {
    Lineage(EntityId(key), SortedStrings(ParsedIds(g)), SortedStrings(Snapshots(g)))
  }

  ghost function Mapped(f: string -> Lineage, keys: seq<string>): (t: seq<Lineage>)
    ensures |t| == |keys| && forall i {:trigger t[i]} :: 0 <= i < |t| ==> t[i] == f(keys[i])
  {
    seq(|keys|, i requires 0 <= i < |keys| => f(keys[i]))
  }

  ghost function LineageFor(judge: Judgement, s: seq<Psr>): string -> Lineage {
    k => LineageOf(k, Select(judge, s, Event(k)))
  }

  ghost function Lineages(judge: Judgement, s: seq<Psr>, keys: seq<string>): seq<Lineage> {
    Mapped(LineageFor(judge, s), keys)
  }

  // ----- the whole output -----

  function Quarantines(t: seq<Psr>): (q: seq<Quarantine>)
    ensures |q| == |t|
    ensures forall i :: 0 <= i < |q| ==>
        q[i] == Quarantine(t[i].parsedId, t[i].nativeKey, "missing-or-invalid-event-id")
  {
    seq(|t|, i requires 0 <= i < |t| => Quarantine(t[i].parsedId, t[i].nativeKey, "missing-or-invalid-event-id"))
  }

  function Note(r: Psr): string {
    (if r.nativeKey.Some? then r.nativeKey.value else "None")
    + ": unsupported native type preserved outside canonical output"
  }

  function Notes(t: seq<Psr>): (n: seq<string>)
    ensures |n| == |t| && forall i :: 0 <= i < |n| ==> n[i] == Note(t[i])
  {
    seq(|t|, i requires 0 <= i < |t| => Note(t[i]))
  }

  const CLOSING :=
    "Provider inventory observation creates canonical identity shells and structural metadata only; "
    + "global lifecycle remains unset pending explicit lifecycle evidence/policy."

  ghost predicate EntityAt(judge: Judgement, s: seq<Psr>, keys: seq<string>, records: seq<Entity>, i: nat)
    requires i < |keys| == |records|
  {
    IsEntity(records[i], keys[i], Select(judge, s, Event(keys[i])))
  }

  ghost predicate AreEntities(judge: Judgement, s: seq<Psr>, keys: seq<string>, records: seq<Entity>) {
    |records| == |keys| && forall i :: 0 <= i < |keys| ==> EntityAt(judge, s, keys, records, i)
  }

  function SortedKeys(judge: Judgement, s: seq<Psr>): seq<string> { Sort(IntLess, Keys(judge, s)) }

  /** out is an output for the records s, taken in this order. */
  ghost predicate Normalises(judge: Judgement, s: seq<Psr>, out: Output) {
    && AreEntities(judge, s, SortedKeys(judge, s), out.records)
    && out.lineage == Sort(OutputLess, Lineages(judge, s, SortedKeys(judge, s)))
    && out.quarantined == Quarantines(Select(judge, s, Unidentified))
    && out.diagnostics == Notes(Select(judge, s, Outside)) + [CLOSING]
    && out.created == |out.records| && out.matched == 0 && out.ambiguous == |out.quarantined|
  }

  function Failure(judge: Judgement, s: seq<Psr>): Option<string> {
    var e := FirstBad(judge, s);
    if e.Some? then e else FirstGroupError(judge, s, SortedKeys(judge, s))
  }

  ghost predicate Answers(judge: Judgement, s: seq<Psr>, r: Result<Output>) {
    match Failure(judge, s)
    case Some(e) => r == Err(e)
    case None => r.Ok? && Normalises(judge, s, r.value)
  }

  // ----- the program -----

  datatype Buckets = Buckets(keys: seq<string>, grouped: map<string, seq<Psr>>, quarantined: seq<Quarantine>,
                             diagnostics: seq<string>, ambiguous: nat)

  /** b holds the records a first loop has sorted out as sel says. */
  ghost predicate Holds(b: Buckets, keys: seq<string>, sel: Verdict -> seq<Psr>) {
    && b.keys == keys
    && (forall k :: k in keys <==> k in b.grouped)
    && (forall k :: k in b.grouped ==> b.grouped[k] == sel(Event(k)))
    && b.quarantined == Quarantines(sel(Unidentified))
    && b.diagnostics == Notes(sel(Outside))
    && b.ambiguous == |b.quarantined|
  }

  ghost predicate Filed(judge: Judgement, s: seq<Psr>, b: Buckets) {
    Holds(b, Keys(judge, s), v => Select(judge, s, v))
  }

  function WithKey(keys: seq<string>, v: Verdict): seq<string> {
    if v.Event? && v.id !in keys then keys + [v.id] else keys
  }

  function File(b: Buckets, r: Psr, v: Verdict): Buckets
    requires forall k :: k in b.keys <==> k in b.grouped
  {
    match v
    case Bad(_) => b
    case Outside => b.(diagnostics := b.diagnostics + [Note(r)])
    case Unidentified =>
      b.(quarantined := b.quarantined + [Quarantine(r.parsedId, r.nativeKey, "missing-or-invalid-event-id")],
          ambiguous := b.ambiguous + 1)
    case Event(k) =>
      if k in b.keys then b.(grouped := b.grouped[k := b.grouped[k] + [r]])
      else b.(keys := b.keys + [k], grouped := b.grouped[k := [r]])
  }

  lemma GroupsAreKeys(judge: Judgement, s: seq<Psr>, k: string)
    ensures Select(judge, s, Event(k)) != [] ==> k in Keys(judge, s)
  {
    var t := Select(judge, s, Event(k));
    if t != [] { assert t[0] in t; }
  }

  /** Taking in one more record. */
  lemma OneMore(judge: Judgement, s: seq<Psr>, r: Psr)
    ensures forall v :: Select(judge, s + [r], v) == Select(judge, s, v) + if judge(r) == v then [r] else []
    ensures Keys(judge, s + [r]) == WithKey(Keys(judge, s), judge(r))
    ensures FirstBad(judge, s + [r]) == if FirstBad(judge, s).None?
        && judge(r).Bad? then Some(judge(r).error) else FirstBad(judge, s)
  {
    assert (s + [r])[..|s|] == s;
  }

  lemma FileHolds(b: Buckets, keys: seq<string>, sel: Verdict -> seq<Psr>, after: Verdict -> seq<Psr>, r: Psr,
                  v: Verdict)
    requires Holds(b, keys, sel)
    requires forall w :: after(w) == sel(w) + if w == v then [r] else []
    requires v.Event? && v.id !in keys ==> sel(v) == []
    ensures Holds(File(b, r, v), WithKey(keys, v), after)
  {
    assert Quarantines(after(Unidentified))
        == Quarantines(sel(Unidentified)) + (if v == Unidentified then Quarantines([r]) else []);
    assert Notes(after(Outside)) == Notes(sel(Outside)) + if v == Outside then Notes([r]) else [];
  }

  lemma FileKeeps(judge: Judgement, s: seq<Psr>, r: Psr, b: Buckets)
    requires Filed(judge, s, b)
    ensures Filed(judge, s + [r], File(b, r, judge(r)))
  {
    var v, sel, after := judge(r), w => Select(judge, s, w), w => Select(judge, s + [r], w);
    OneMore(judge, s, r);
    if v.Event? { GroupsAreKeys(judge, s, v.id); }
    assert forall w :: after(w) == sel(w) + if w == v then [r] else [];
    FileHolds(b, Keys(judge, s), sel, after, r, v);
  }

  /** The first loop. */
  method Group(judge: Judgement, s: seq<Psr>) returns (r: Result<Buckets>)
    ensures FirstBad(judge, s).Some? ==> r == Err(FirstBad(judge, s).value)
    ensures FirstBad(judge, s).None? ==> r.Ok? && Filed(judge, s, r.value)
  {
    var b := Buckets([], map[], [], [], 0);
    for i := 0 to |s|
      invariant Filed(judge, s[..i], b) && FirstBad(judge, s[..i]).None?
    {
      assert s[..i + 1] == s[..i] + [s[i]];
      OneMore(judge, s[..i], s[i]);
      var v := judge(s[i]);
      if v.Bad? {
        FirstBadStays(judge, s, i + 1);
        return Err(v.error);
      }
      FileKeeps(judge, s[..i], s[i], b);
      b := File(b, s[i], v);
    }
    assert s[..|s|] == s;
    r := Ok(b);
  }

  lemma {:induction false} FirstBadStays(judge: Judgement, s: seq<Psr>, n: nat)
    requires n <= |s| && FirstBad(judge, s[..n]).Some?
    ensures FirstBad(judge, s) == FirstBad(judge, s[..n])
    decreases |s|
  {
    if n < |s| {
      assert s[..|s| - 1][..n] == s[..n];
      FirstBadStays(judge, s[..|s| - 1], n);
    } else {
      assert s[..n] == s;
    }
  }

  lemma {:induction false} FirstGroupErrorStays(judge: Judgement, s: seq<Psr>, keys: seq<string>, n: nat)
    requires n <= |keys| && FirstGroupError(judge, s, keys[..n]).Some?
    ensures FirstGroupError(judge, s, keys) == FirstGroupError(judge, s, keys[..n])
    decreases |keys|
  {
    if n < |keys| {
      assert keys[..|keys| - 1][..n] == keys[..n];
      FirstGroupErrorStays(judge, s, keys[..|keys| - 1], n);
    } else {
      assert keys[..n] == keys;
    }
  }

  /** One entity of the second loop. */
  method BuildEntity(key: string, g: seq<Psr>) returns (e: Entity)
    requires GroupError(key, g).None?
    ensures IsEntity(e, key, g)
  {
    var listing := Enumerate(set r | r in g :: VersionOf(r));
    var versions := Sort(IntLess, listing);
    OrdersAreWeak();
    SortArranges(IntLess, listing, Versions(g));
    e := Entity(EntityId(key), key, g[0].native.guid.value, versions, StructuresOf(Sort(VersionLess, g)));
  }

  /** _lineage */
  method BuildLineage(key: string, g: seq<Psr>) returns (l: Lineage)
    ensures l == LineageOf(key, g)
  {
    var ids := SortStrings(set r | r in g && r.parsedId.Some? :: r.parsedId.value);
    var snapshots := SortStrings(set r | r in g && r.snapshot.Some? :: r.snapshot.value);
    l := Lineage(EntityId(key), ids, snapshots);
  }

  lemma RecordsStaySorted(judge: Judgement, s: seq<Psr>, records: seq<Entity>)
    requires AreEntities(judge, s, SortedKeys(judge, s), records)
    ensures Sort(KeyLess, records) == records
  {
    OrdersAreWeak();
    SortSorted(IntLess, Keys(judge, s));
    forall i | 0 <= i < |records| ensures records[i].key == SortedKeys(judge, s)[i] {
      assert EntityAt(judge, s, SortedKeys(judge, s), records, i);
    }
    SortOfSorted(KeyLess, records);
  }

  lemma EntitiesGrow(judge: Judgement, s: seq<Psr>, keys: seq<string>, records: seq<Entity>, k: string, e: Entity)
    requires AreEntities(judge, s, keys, records) && IsEntity(e, k, Select(judge, s, Event(k)))
    ensures AreEntities(judge, s, keys + [k], records + [e])
  {
    forall i | 0 <= i < |keys| + 1 ensures EntityAt(judge, s, keys + [k], records + [e], i) {
      if i < |keys| { assert EntityAt(judge, s, keys, records, i); }
    }
  }

  lemma SecondLoopGrows(judge: Judgement, s: seq<Psr>, keys: seq<string>, k: string)
    ensures FirstGroupError(judge, s, keys).None? ==>
        FirstGroupError(judge, s, keys + [k]) == GroupError(k, Select(judge, s, Event(k)))
    ensures Lineages(judge, s, keys + [k]) == Lineages(judge, s, keys) + [LineageOf(k, Select(judge, s, Event(k)))]
  {
    assert (keys + [k])[..|keys|] == keys;
  }

  lemma NextPrefix(keys: seq<string>, i: nat)
    requires i < |keys|
    ensures keys[i] in keys && keys[..i + 1] == keys[..i] + [keys[i]]
  {
  }

  /** The second loop. */
  method BuildRecords(judge: Judgement, s: seq<Psr>, keys: seq<string>, grouped: map<string, seq<Psr>>)
    returns (error: Option<string>, records: seq<Entity>, lineage: seq<Lineage>, created: nat)
    requires forall k :: k in keys ==> k in grouped && grouped[k] == Select(judge, s, Event(k))
    ensures error == FirstGroupError(judge, s, keys)
    ensures error.None? ==>
      AreEntities(judge, s, keys, records) && lineage == Lineages(judge, s, keys) && created == |keys|
  {
    records, lineage, created := [], [], 0;
    for i := 0 to |keys|
      invariant AreEntities(judge, s, keys[..i], records) && lineage == Lineages(judge, s, keys[..i])
      invariant created == i && FirstGroupError(judge, s, keys[..i]).None?
    {
      NextPrefix(keys, i);
      SecondLoopGrows(judge, s, keys[..i], keys[i]);
      error := GroupError(keys[i], grouped[keys[i]]);
      if error.Some? {
        FirstGroupErrorStays(judge, s, keys, i + 1);
        return;
      }
      var entity := BuildEntity(keys[i], grouped[keys[i]]);
      EntitiesGrow(judge, s, keys[..i], records, keys[i], entity);
      records := records + [entity];
      var l := BuildLineage(keys[i], grouped[keys[i]]);
      lineage := lineage + [l];
      created := created + 1;
    }
    assert keys[..|keys|] == keys;
    error := None;
  }

  /** normalize_psr, past the checks of the mapping profile. */
  method NormalizePsr(p: Profile, input: seq<Psr>) returns (r: Result<Output>)
    ensures Answers(Judging(p), Sort(ParsedLess, input), r)
  {
    var judge, s := Judging(p), Sort(ParsedLess, input);
    var grouping := Group(judge, s);
    if grouping.Err? { return Err(grouping.error); }
    var b := grouping.value;
    var keys := Sort(IntLess, b.keys);
    SameElements(b.keys, keys);
    var error, records, lineage, created := BuildRecords(judge, s, keys, b.grouped);
    if error.Some? { return Err(error.value); }
    RecordsStaySorted(judge, s, records);
    r := Ok(Output(Sort(KeyLess, records), Sort(OutputLess, lineage), created, 0, b.ambiguous, b.quarantined,
                   b.diagnostics + [CLOSING]));
  }
}

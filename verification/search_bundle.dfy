/** build_projection_bundle of tools/search/reference_search.py: records become documents, identifiers,
    aliases and facets. */
module SearchBundle {
  import opened Wrappers
  import opened Ordering
  import opened Text

  /** unicodedata.normalize("NFKC", .) and str.casefold. */
  datatype Unicode = Unicode(nfkc: string -> string, casefold: string -> string)

  function Fold(u: Unicode, s: string): string { u.casefold(u.nfkc(s)) }

  datatype Native = Native(kind: string, value: string, namespace: Option<string>, caseSensitive: bool,
                           primary: bool, numeric: bool)

  datatype AliasSeed = AliasSeed(value: string, kind: Option<string>, caseSensitive: bool)

  datatype Scope = Scope(namespace: Option<string>, platform: Option<string>, product: Option<string>,
                         provider: Option<string>, channel: Option<string>)

  datatype Record = Record(id: string, entityType: string, title: string, scope: Scope, lifecycle: Option<string>,
                           natives: seq<Native>, aliases: seq<AliasSeed>)

  datatype Document = Document(target: string, entityType: string, title: string, scope: Scope,
                               lifecycle: Option<string>)

  datatype Identifier = Identifier(target: string, kind: string, value: string, namespace: string,
                                   caseSensitive: bool, primary: bool, numeric: bool, number: Option<nat>)

  datatype Alias = Alias(target: string, value: string, kind: string, caseSensitive: bool)

  datatype Filter = Filter(target: string, facets: map<string, Option<string>>)

  datatype Bundle = Bundle(documents: seq<Document>, identifiers: seq<Identifier>, aliases: seq<Alias>,
                           filters: seq<Filter>)

  // ----- one record -----

  /** item.get("namespace") or record["namespace"] */
  function NamespaceOf(r: Record, n: Native): Option<string> {
    if n.namespace.Some? && n.namespace.value != "" then n.namespace else r.scope.namespace
  }

  predicate ValidNative(r: Record, n: Native) {
    NamespaceOf(r, n).Some? && (n.numeric ==> IsDigits(n.value))
  }

  function IdentifierOf(r: Record, n: Native): Identifier
    requires ValidNative(r, n)
  {
    Identifier(r.id, n.kind, n.value, NamespaceOf(r, n).value, n.caseSensitive, n.primary, n.numeric,
               if n.numeric then Some(ToNat(n.value)) else None)
  }

  function DocumentOf(r: Record): Document { Document(r.id, r.entityType, r.title, r.scope, r.lifecycle) }

  function AliasOf(r: Record, a: AliasSeed): Alias {
    Alias(r.id, a.value, if a.kind.Some? && a.kind.value != "" then a.kind.value else "alias", a.caseSensitive)
  }

  const FACET_KEYS := {"namespace", "platform", "product", "provider", "channel", "type", "lifecycle"}

  /** _scope_value: None for any key that is not one of the seven, version included. */
  function ScopeValue(d: Document, key: string): (v: Option<string>)
    ensures v.Some? ==> key in FACET_KEYS
  {
    if key == "namespace" then d.scope.namespace
    else if key == "type" then Some(d.entityType)
    else if key == "lifecycle" then d.lifecycle
    else if key == "platform" then d.scope.platform
    else if key == "product" then d.scope.product
    else if key == "provider" then d.scope.provider
    else if key == "channel" then d.scope.channel
    else None
  }

  /** The facets of a document; there is no version facet. */
  function FacetsOf(d: Document): map<string, Option<string>> {
    map key | key in FACET_KEYS :: ScopeValue(d, key)
  }

  // ----- all records -----

  predicate RecordLess(a: Record, b: Record) { StrLess(a.id, b.id) }

  function IdentifierKey(i: Identifier): seq<string> { [i.namespace, i.kind, i.value, i.target] }

  predicate IdentifierLess(a: Identifier, b: Identifier) { TupleLess(IdentifierKey(a), IdentifierKey(b)) }

  function AliasLess(u: Unicode): (Alias, Alias) -> bool {
    (a: Alias, b: Alias) => TupleLess([Fold(u, a.value), a.target], [Fold(u, b.value), b.target])
  }

  predicate ValidRecord(r: Record) {
    ATLAS <= r.id && forall k :: 0 <= k < |r.natives| ==> ValidNative(r, r.natives[k])
  }

  const ATLAS := "atlas:"

  ghost predicate DistinctIds(rs: seq<Record>) { forall i, j :: 0 <= i < j < |rs| ==> rs[i].id != rs[j].id }

  ghost predicate ValidInput(rs: seq<Record>) {
    rs != [] && DistinctIds(rs) && forall k :: 0 <= k < |rs| ==> ValidRecord(rs[k])
  }

  function NativesOf(r: Record, k: nat): (s: seq<Identifier>)
    requires ValidRecord(r) && k <= |r.natives|
    ensures forall i :: i in s <==> exists j :: 0 <= j < k && i == IdentifierOf(r, r.natives[j])
  {
    if k == 0 then [] else NativesOf(r, k - 1) + [IdentifierOf(r, r.natives[k - 1])]
  }

  function AliasesOf(r: Record, k: nat): (s: seq<Alias>)
    requires k <= |r.aliases|
    ensures forall a :: a in s ==> a.target == r.id
  {
    if k == 0 then [] else AliasesOf(r, k - 1) + [AliasOf(r, r.aliases[k - 1])]
  }

  /** The projection of records in the given order, before the final sorts. */
  function Gather(rs: seq<Record>, k: nat): Bundle
    requires k <= |rs| && forall j :: 0 <= j < |rs| ==> ValidRecord(rs[j])
  {
    if k == 0 then Bundle([], [], [], []) else
      var b, r := Gather(rs, k - 1), rs[k - 1];
      Bundle(b.documents + [DocumentOf(r)],
             b.identifiers + NativesOf(r, |r.natives|),
             b.aliases + AliasesOf(r, |r.aliases|),
             b.filters + [Filter(r.id, FacetsOf(DocumentOf(r)))])
  }

  function Arrange(u: Unicode, b: Bundle): Bundle {
    b.(identifiers := Sort(IdentifierLess, b.identifiers), aliases := Sort(AliasLess(u), b.aliases))
  }

  ghost function Projection(u: Unicode, records: seq<Record>): Bundle
    requires ValidInput(records)
  {
    SortedIsValid(records);
    var rs := Sort(RecordLess, records);
    Arrange(u, Gather(rs, |rs|))
  }

  lemma SortedIsValid(records: seq<Record>)
    requires ValidInput(records)
    ensures ValidInput(Sort(RecordLess, records))
  {
    var rs := Sort(RecordLess, records);
    SameElements(records, rs);
    assert NoDup(records);
    MultisetNoDup(records, rs);
    forall k | 0 <= k < |rs| ensures ValidRecord(rs[k]) { assert rs[k] in records; }
    forall i, j | 0 <= i < j < |rs| ensures rs[i].id != rs[j].id {
      assert rs[i] in records && rs[j] in records;
    }
  }

  /** The bundle does not depend on the order of the input records. */
  lemma ProjectionPermutes(u: Unicode, a: seq<Record>, b: seq<Record>)
    requires ValidInput(a) && multiset(a) == multiset(b)
    ensures ValidInput(b) && Projection(u, a) == Projection(u, b)
  {
    SameElements(a, b);
    assert NoDup(a);
    MultisetNoDup(a, b);
    forall k | 0 <= k < |b| ensures ValidRecord(b[k]) { assert b[k] in a; }
    forall i, j | 0 <= i < j < |b| ensures b[i].id != b[j].id { assert b[i] in a && b[j] in a; }
    RecordOrder();
    forall x, y | x in a && y in a && x != y ensures RecordLess(x, y) || RecordLess(y, x) {
      var i :| 0 <= i < |a| && a[i] == x;
      var j :| 0 <= j < |a| && a[j] == y;
      assert x.id != y.id;
    }
    SortPermutation(RecordLess, a, b);
  }

  lemma RecordOrder()
    ensures StrictTotal(StrLess) && StrictWeak(RecordLess)
  {
    StrStrictTotal();
    KeyOrderIsWeak(RecordLess, (r: Record) => r.id, StrLess);
  }

  ghost function Targets(ds: seq<Document>): set<string> { set d | d in ds :: d.target }

  function FilterOf(d: Document): Filter { Filter(d.target, FacetsOf(d)) }

  ghost predicate DistinctDocuments(ds: seq<Document>) {
    forall i, j :: 0 <= i < j < |ds| ==> ds[i].target != ds[j].target
  }

  ghost predicate FiltersMatch(ds: seq<Document>, fs: seq<Filter>) {
    |fs| == |ds| && forall k :: 0 <= k < |ds| ==> fs[k] == FilterOf(ds[k])
  }

  ghost predicate GoodIdentifiers(ds: seq<Document>, identifiers: seq<Identifier>) {
    forall i :: i in identifiers ==> i.target in Targets(ds) && (i.numeric <==> i.number.Some?)
  }

  ghost predicate GoodAliases(ds: seq<Document>, aliases: seq<Alias>) {
    forall a :: a in aliases ==> a.target in Targets(ds)
  }

  /** What the resolvers rely on in a bundle. */
  ghost predicate WellBuilt(b: Bundle) {
    && DistinctDocuments(b.documents)
    && FiltersMatch(b.documents, b.filters)
    && GoodIdentifiers(b.documents, b.identifiers)
    && GoodAliases(b.documents, b.aliases)
  }

  lemma {:induction false} GatherDocuments(rs: seq<Record>, k: nat)
    requires ValidInput(rs) && k <= |rs|
    ensures var b := Gather(rs, k);
            && |b.documents| == k && (forall j :: 0 <= j < k ==> b.documents[j] == DocumentOf(rs[j]))
            && FiltersMatch(b.documents, b.filters)
  {
    if k > 0 {
      GatherDocuments(rs, k - 1);
      var b, d := Gather(rs, k - 1), DocumentOf(rs[k - 1]);
      assert Gather(rs, k).documents == b.documents + [d] && Gather(rs, k).filters == b.filters + [FilterOf(d)];
    }
  }

  lemma MoreTargets(ds: seq<Document>, d: Document)
    ensures Targets(ds + [d]) == Targets(ds) + {d.target}
  {
    var es := ds + [d];
    assert forall e :: e in es <==> e in ds || e == d;
  }

  lemma {:induction false} GatherReferences(rs: seq<Record>, k: nat)
    requires ValidInput(rs) && k <= |rs|
    ensures var b := Gather(rs, k); GoodIdentifiers(b.documents, b.identifiers) && GoodAliases(b.documents, b.aliases)
  {
    if k > 0 {
      GatherReferences(rs, k - 1);
      var r := rs[k - 1];
      MoreTargets(Gather(rs, k - 1).documents, DocumentOf(r));
    }
  }

  lemma ProjectionWellBuilt(u: Unicode, records: seq<Record>)
    requires ValidInput(records)
    ensures WellBuilt(Projection(u, records))
  {
    SortedIsValid(records);
    var rs := Sort(RecordLess, records);
    GatherDocuments(rs, |rs|);
    GatherReferences(rs, |rs|);
    var g := Gather(rs, |rs|);
    SameElements(g.identifiers, Sort(IdentifierLess, g.identifiers));
    SameElements(g.aliases, Sort(AliasLess(u), g.aliases));
  }

  /** The loops of build_projection_bundle. */
  method BuildProjection(u: Unicode, records: seq<Record>) returns (r: Result<Bundle>)
    ensures r.Ok? <==> ValidInput(records)
    ensures r.Ok? ==> r.value == Projection(u, records) && WellBuilt(r.value)
  {
    if records == [] { return Err("projection input must be a non-empty list"); }
    if exists k :: 0 <= k < |records| && !(ATLAS <= records[k].id) { return Err("canonical target ID required"); }
    var seen: set<string> := {};
    for k := 0 to |records|
      invariant forall j :: 0 <= j < k ==> records[j].id in seen
      invariant forall x :: x in seen ==> exists j :: 0 <= j < k && records[j].id == x
      invariant forall i, j :: 0 <= i < j < k ==> records[i].id != records[j].id
    {
      if records[k].id in seen { return Err("duplicate canonical target IDs"); }
      seen := seen + {records[k].id};
    }
    if exists k, j :: 0 <= k < |records| && 0 <= j < |records[k].natives|
        && !ValidNative(records[k], records[k].natives[j]) {
      return Err("invalid native identifier");
    }
    assert ValidInput(records);
    SortedIsValid(records);
    ProjectionWellBuilt(u, records);
    var rs := Sort(RecordLess, records);
    var b := Bundle([], [], [], []);
    for k := 0 to |rs|
      invariant b == Gather(rs, k)
    {
      b := AddRecord(rs, k, b);
    }
    r := Ok(Arrange(u, b));
  }

  method AddRecord(rs: seq<Record>, k: nat, b: Bundle) returns (c: Bundle)
    requires k < |rs| && (forall j :: 0 <= j < |rs| ==> ValidRecord(rs[j])) && b == Gather(rs, k)
    ensures c == Gather(rs, k + 1)
  {
    var r := rs[k];
    var identifiers, aliases := [], [];
    for j := 0 to |r.natives|
      invariant identifiers == NativesOf(r, j)
    {
      identifiers := identifiers + [IdentifierOf(r, r.natives[j])];
    }
    for j := 0 to |r.aliases|
      invariant aliases == AliasesOf(r, j)
    {
      aliases := aliases + [AliasOf(r, r.aliases[j])];
    }
    c := Bundle(b.documents + [DocumentOf(r)], b.identifiers + identifiers, b.aliases + aliases,
                b.filters + [Filter(r.id, FacetsOf(DocumentOf(r)))]);
  }
}

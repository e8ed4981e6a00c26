/** _populate of tools/search/sqlite_search.py: the tables as sets of rows, with folded match values and
    facets computed once. */
module SearchIndex {
  import opened Wrappers
  import opened Ordering
  import opened SearchBundle

  const MAX_SQLITE_INTEGER := 0x7FFF_FFFF_FFFF_FFFF

  datatype IdRow = IdRow(item: Identifier, matchValue: string)

  datatype AliasRow = AliasRow(item: Alias, matchValue: string)

  datatype FacetRow = FacetRow(target: string, key: string, value: string, norm: string)

  datatype Tables = Tables(documents: set<Document>, identifiers: set<IdRow>, aliases: set<AliasRow>,
                           facets: set<FacetRow>)

  function MatchText(u: Unicode, value: string, caseSensitive: bool): string {
    if caseSensitive then u.nfkc(value) else Fold(u, value)
  }

  function IdRowOf(u: Unicode, i: Identifier): IdRow { IdRow(i, MatchText(u, i.value, i.caseSensitive)) }

  function AliasRowOf(u: Unicode, a: Alias): AliasRow { AliasRow(a, MatchText(u, a.value, a.caseSensitive)) }

  /** PRIMARY KEY(target_id, identifier_type, value, namespace) */
  predicate SameIdKey(a: Identifier, b: Identifier) {
    a.target == b.target && a.kind == b.kind && a.value == b.value && a.namespace == b.namespace
  }

  /** PRIMARY KEY(target_id, value, kind) */
  predicate SameAliasKey(a: Alias, b: Alias) { a.target == b.target && a.value == b.value && a.kind == b.kind }

  predicate Storable(i: Identifier) { i.number.Some? ==> i.number.value <= MAX_SQLITE_INTEGER }

  ghost predicate IdsFit(s: seq<Identifier>) {
    && (forall k :: 0 <= k < |s| ==> Storable(s[k]))
    && forall j, k :: 0 <= j < k < |s| ==> !SameIdKey(s[j], s[k])
  }

  ghost predicate AliasesFit(s: seq<Alias>) {
    forall j, k :: 0 <= j < k < |s| ==> !SameAliasKey(s[j], s[k])
  }

  /** PRIMARY KEY(target_id, facet_key, facet_value): both filters have a row in common. */
  predicate SameFacet(a: Filter, b: Filter) {
    a.target == b.target
    && exists key :: key in a.facets && key in b.facets && a.facets[key].Some? && a.facets[key] == b.facets[key]
  }

  ghost predicate FacetsFit(fs: seq<Filter>) {
    forall j, k :: 0 <= j < k < |fs| ==> !SameFacet(fs[j], fs[k])
  }

  /** The inserts violate no key and every number fits a column. */
  ghost predicate Insertable(b: Bundle) { IdsFit(b.identifiers) && AliasesFit(b.aliases) && FacetsFit(b.filters) }

  /** No two rows of a table share its key, and numbers fit 64-bit signed integers. */
  ghost predicate Fits(b: Bundle) {
    && (forall j, k :: 0 <= j < k < |b.identifiers| ==>
          var x, y := b.identifiers[j], b.identifiers[k];
          x.target != y.target || x.kind != y.kind || x.value != y.value || x.namespace != y.namespace)
    && (forall i :: i in b.identifiers && i.number.Some? ==> i.number.value <= 9_223_372_036_854_775_807)
    && (forall j, k :: 0 <= j < k < |b.aliases| ==>
          var x, y := b.aliases[j], b.aliases[k];
          x.target != y.target || x.value != y.value || x.kind != y.kind)
    && forall j, k, key :: 0 <= j < k < |b.filters| && key in b.filters[j].facets && key in b.filters[k].facets ==>
         var x, y := b.filters[j], b.filters[k];
         x.target != y.target || x.facets[key].None? || x.facets[key] != y.facets[key]
  }

  lemma FitsMeans(b: Bundle)
    ensures Insertable(b) <==> Fits(b)
  {
    IdsFitMeans(b.identifiers);
    if Fits(b) {
      forall j, k | 0 <= j < k < |b.aliases| ensures !SameAliasKey(b.aliases[j], b.aliases[k]) { }
      forall j, k | 0 <= j < k < |b.filters| ensures !SameFacet(b.filters[j], b.filters[k]) { }
    }
    if Insertable(b) {
      forall j, k | 0 <= j < k < |b.aliases|
        ensures var x, y := b.aliases[j], b.aliases[k]; x.target != y.target || x.value != y.value || x.kind != y.kind
      {
        assert !SameAliasKey(b.aliases[j], b.aliases[k]);
      }
      forall j, k, key | 0 <= j < k < |b.filters| && key in b.filters[j].facets && key in b.filters[k].facets
        ensures var x, y := b.filters[j], b.filters[k];
                x.target != y.target || x.facets[key].None? || x.facets[key] != y.facets[key]
      {
        assert !SameFacet(b.filters[j], b.filters[k]);
      }
    }
  }

  lemma IdsFitMeans(s: seq<Identifier>)
    ensures IdsFit(s) <==>
      && (forall j, k :: 0 <= j < k < |s| ==>
            s[j].target != s[k].target || s[j].kind != s[k].kind || s[j].value != s[k].value
                || s[j].namespace != s[k].namespace)
      && forall i :: i in s && i.number.Some? ==> i.number.value <= 9_223_372_036_854_775_807
  {
    if IdsFit(s) {
      forall j, k | 0 <= j < k < |s|
        ensures s[j].target != s[k].target || s[j].kind != s[k].kind || s[j].value != s[k].value
                || s[j].namespace != s[k].namespace
      {
        assert !SameIdKey(s[j], s[k]);
      }
      forall i | i in s && i.number.Some? ensures i.number.value <= MAX_SQLITE_INTEGER {
        var k :| 0 <= k < |s| && s[k] == i;
        assert Storable(s[k]);
      }
    } else if forall k :: 0 <= k < |s| ==> Storable(s[k]) {
      var j, k :| 0 <= j < k < |s| && SameIdKey(s[j], s[k]);
    } else {
      var k :| 0 <= k < |s| && !Storable(s[k]);
      assert s[k] in s;
    }
  }

  ghost predicate IsFacetOf(u: Unicode, p: Filter, f: FacetRow) {
    p.target == f.target && f.key in p.facets && p.facets[f.key] == Some(f.value) && f.norm == Fold(u, f.value)
  }

  ghost predicate IsFacet(u: Unicode, fs: seq<Filter>, f: FacetRow) { exists p :: p in fs && IsFacetOf(u, p, f) }

  ghost predicate Holds(u: Unicode, b: Bundle, t: Tables) {
    && (forall d :: d in t.documents <==> d in b.documents)
    && (forall r :: r in t.identifiers <==> r.item in b.identifiers && r == IdRowOf(u, r.item))
    && (forall r :: r in t.aliases <==> r.item in b.aliases && r == AliasRowOf(u, r.item))
    && (forall f :: f in t.facets <==> IsFacet(u, b.filters, f))
  }

  /** What validate_projection_bundle checks of the collections: documents are distinct and every row refers to one. */
  ghost predicate Validated(b: Bundle) {
    && DistinctDocuments(b.documents)
    && (forall i :: i in b.identifiers ==> i.target in Targets(b.documents))
    && (forall a :: a in b.aliases ==> a.target in Targets(b.documents))
    && (forall p :: p in b.filters ==> p.target in Targets(b.documents))
  }

  lemma WellBuiltIsValidated(b: Bundle)
    requires WellBuilt(b)
    ensures Validated(b)
  {
    forall p | p in b.filters ensures p.target in Targets(b.documents) {
      var k :| 0 <= k < |b.filters| && b.filters[k] == p;
      assert b.documents[k] in b.documents;
    }
  }

  lemma WellBuiltFacetsFit(b: Bundle)
    requires WellBuilt(b)
    ensures FacetsFit(b.filters)
  {
  }

  method InsertIdentifiers(u: Unicode, s: seq<Identifier>) returns (r: Result<set<IdRow>>)
    ensures r.Ok? <==> IdsFit(s)
    ensures r.Ok? ==> forall x :: x in r.value <==> x.item in s && x == IdRowOf(u, x.item)
  {
    var rows: set<IdRow> := {};
    for k := 0 to |s|
      invariant IdsFit(s[..k])
      invariant forall x :: x in rows <==> x.item in s[..k] && x == IdRowOf(u, x.item)
    {
      var i := s[k];
      assert s[..k + 1] == s[..k] + [i];
      assert s[..k + 1][k] == i;
      if !Storable(i) { return Err("integer too large"); }
      if exists x :: x in rows && SameIdKey(x.item, i) {
        ghost var x :| x in rows && SameIdKey(x.item, i);
        ghost var j :| 0 <= j < k && s[..k][j] == x.item;
        assert SameIdKey(s[j], s[k]);
        return Err("UNIQUE constraint failed: identifiers");
      }
      forall j | 0 <= j < k ensures !SameIdKey(s[j], i) {
        assert IdRowOf(u, s[j]) in rows by { assert s[..k][j] == s[j]; }
      }
      rows := rows + {IdRowOf(u, i)};
    }
    assert s[..|s|] == s;
    r := Ok(rows);
  }

  method InsertAliases(u: Unicode, s: seq<Alias>) returns (r: Result<set<AliasRow>>)
    ensures r.Ok? <==> AliasesFit(s)
    ensures r.Ok? ==> forall x :: x in r.value <==> x.item in s && x == AliasRowOf(u, x.item)
  {
    var rows: set<AliasRow> := {};
    for k := 0 to |s|
      invariant AliasesFit(s[..k])
      invariant forall x :: x in rows <==> x.item in s[..k] && x == AliasRowOf(u, x.item)
    {
      var a := s[k];
      assert s[..k + 1] == s[..k] + [a];
      if exists x :: x in rows && SameAliasKey(x.item, a) {
        ghost var x :| x in rows && SameAliasKey(x.item, a);
        ghost var j :| 0 <= j < k && s[..k][j] == x.item;
        assert SameAliasKey(s[j], s[k]);
        return Err("UNIQUE constraint failed: aliases");
      }
      forall j | 0 <= j < k ensures !SameAliasKey(s[j], a) {
        assert AliasRowOf(u, s[j]) in rows by { assert s[..k][j] == s[j]; }
      }
      rows := rows + {AliasRowOf(u, a)};
    }
    assert s[..|s|] == s;
    r := Ok(rows);
  }

  function FacetRowsOf(u: Unicode, f: Filter): set<FacetRow> {
    set key | key in f.facets && f.facets[key].Some? ::
      FacetRow(f.target, key, f.facets[key].value, Fold(u, f.facets[key].value))
  }

  lemma FacetRowsMatch(u: Unicode, p: Filter, f: FacetRow)
    ensures f in FacetRowsOf(u, p) <==> IsFacetOf(u, p, f)
  {
  }

  method InsertFacets(u: Unicode, fs: seq<Filter>) returns (r: Result<set<FacetRow>>)
    ensures r.Ok? <==> FacetsFit(fs)
    ensures r.Ok? ==> forall f :: f in r.value <==> IsFacet(u, fs, f)
  {
    var rows := {};
    for k := 0 to |fs|
      invariant FacetsFit(fs[..k])
      invariant forall f :: f in rows <==> IsFacet(u, fs[..k], f)
    {
      var clash := ClashesWith(u, fs[..k], fs[k], rows);
      assert fs[..k + 1] == fs[..k] + [fs[k]];
      if clash {
        ghost var j :| 0 <= j < k && SameFacet(fs[..k][j], fs[k]);
        assert SameFacet(fs[j], fs[k]);
        return Err("UNIQUE constraint failed: facets");
      }
      forall f ensures f in rows + FacetRowsOf(u, fs[k]) <==> IsFacet(u, fs[..k + 1], f) {
        FacetRowsMatch(u, fs[k], f);
      }
      rows := rows + FacetRowsOf(u, fs[k]);
    }
    assert fs[..|fs|] == fs;
    r := Ok(rows);
  }

  predicate SameFacetKey(f: FacetRow, g: FacetRow) { f.target == g.target && f.key == g.key && f.value == g.value }

  method ClashesWith(u: Unicode, ghost before: seq<Filter>, p: Filter, rows: set<FacetRow>) returns (clash: bool)
    requires forall f :: f in rows <==> IsFacet(u, before, f)
    ensures clash <==> exists j :: 0 <= j < |before| && SameFacet(before[j], p)
  {
    clash := exists f, g :: f in rows && g in FacetRowsOf(u, p) && SameFacetKey(f, g);
    if clash {
      ghost var f, g :| f in rows && g in FacetRowsOf(u, p) && SameFacetKey(f, g);
      ghost var q :| q in before && IsFacetOf(u, q, f);
      ghost var j :| 0 <= j < |before| && before[j] == q;
      assert SameFacet(q, p);
    }
    forall j | 0 <= j < |before| && SameFacet(before[j], p) ensures clash {
      var key :| key in before[j].facets && key in p.facets && before[j].facets[key].Some?
          && before[j].facets[key] == p.facets[key];
      var v := p.facets[key].value;
      var f := FacetRow(p.target, key, v, Fold(u, v));
      assert IsFacetOf(u, before[j], f) && before[j] in before;
      assert f in rows && f in FacetRowsOf(u, p);
    }
  }

  /** _populate: the tables hold exactly the bundle's rows, or an insert fails. */
  method Populate(u: Unicode, b: Bundle) returns (r: Result<Tables>)
    requires Validated(b)
    ensures r.Ok? <==> Insertable(b)
    ensures r.Ok? <==> Fits(b)
    ensures r.Ok? ==> Holds(u, b, r.value)
  {
    FitsMeans(b);
    var identifiers := InsertIdentifiers(u, b.identifiers);
    if identifiers.Err? { return Err(identifiers.error); }
    var aliases := InsertAliases(u, b.aliases);
    if aliases.Err? { return Err(aliases.error); }
    var facets := InsertFacets(u, b.filters);
    if facets.Err? { return Err(facets.error); }
    r := Ok(Tables((set d | d in b.documents), identifiers.value, aliases.value, facets.value));
  }
}

/** The indexed resolver against the reference scan. */
module SearchAgree {
  import opened Wrappers
  import opened Ordering
  import opened SearchBundle
  import opened SearchIndex
  import opened SearchResolve

  // ----- the same documents, scopes and matches -----

  lemma DocumentUnique(ds: seq<Document>, d: Document, e: Document)
    requires DistinctDocuments(ds) && d in ds && e in ds && d.target == e.target
    ensures d == e
  {
    var i :| 0 <= i < |ds| && ds[i] == d;
    var j :| 0 <= j < |ds| && ds[j] == e;
  }

  lemma TargetHasDocument(ds: seq<Document>, target: string)
    requires target in Targets(ds)
    ensures FindDocument(ds, target).Some?
  {
    var d :| d in ds && d.target == target;
  }

  ghost predicate IsScopeOf(u: Unicode, d: Document, f: FacetRow) {
    d.target == f.target && ScopeValue(d, f.key) == Some(f.value) && f.norm == Fold(u, f.value)
  }

  ghost predicate IsScope(u: Unicode, ds: seq<Document>, f: FacetRow) { exists d :: d in ds && IsScopeOf(u, d, f) }

  /** In a bundle built from records the facets are the scope values of the documents. */
  lemma FacetsAreScopes(u: Unicode, b: Bundle, f: FacetRow)
    requires WellBuilt(b)
    ensures IsFacet(u, b.filters, f) <==> IsScope(u, b.documents, f)
  {
    if p :| p in b.filters && IsFacetOf(u, p, f) {
      var k :| 0 <= k < |b.filters| && b.filters[k] == p;
      assert p == FilterOf(b.documents[k]) && b.documents[k] in b.documents;
    }
    if d :| d in b.documents && IsScopeOf(u, d, f) {
      var k :| 0 <= k < |b.documents| && b.documents[k] == d;
      assert b.filters[k] == FilterOf(d) && b.filters[k] in b.filters;
    }
  }

  /** One EXISTS of the scope clause holds exactly when the reference compares that scope value as equal. */
  lemma FacetMatchesScope(u: Unicode, b: Bundle, t: Tables, d: Document, key: string, expected: string)
    requires WellBuilt(b) && Holds(u, b, t) && d in b.documents
    ensures (exists f :: f in t.facets && f.target == d.target && f.key == key && f.norm == Fold(u, expected))
       <==> (ScopeValue(d, key).Some? && Fold(u, ScopeValue(d, key).value) == Fold(u, expected))
  {
    if f :| f in t.facets && f.target == d.target && f.key == key && f.norm == Fold(u, expected) {
      FacetsAreScopes(u, b, f);
      var e :| e in b.documents && IsScopeOf(u, e, f);
      DocumentUnique(b.documents, d, e);
    }
    if ScopeValue(d, key).Some? && Fold(u, ScopeValue(d, key).value) == Fold(u, expected) {
      var v := ScopeValue(d, key).value;
      var f := FacetRow(d.target, key, v, Fold(u, v));
      assert IsScopeOf(u, d, f);
      FacetsAreScopes(u, b, f);
      assert f in t.facets;
    }
  }

  lemma ScopesAgree(u: Unicode, b: Bundle, t: Tables, target: string, hints: map<string, string>)
    requires WellBuilt(b) && Holds(u, b, t) && target in Targets(b.documents)
    ensures ScopeClause(u, t, target, hints) <==> (hints != map[] ==> InScope(u, b, target, hints))
  {
    TargetHasDocument(b.documents, target);
    var d := FindDocument(b.documents, target).value;
    forall key | key in hints
      ensures (exists f :: f in t.facets && f.target == target && f.key == key && f.norm == Fold(u, hints[key]))
         <==> (ScopeValue(d, key).Some? && Fold(u, ScopeValue(d, key).value) == Fold(u, hints[key]))
    {
      FacetMatchesScope(u, b, t, d, key, hints[key]);
    }
  }

  lemma RowsExist(u: Unicode, b: Bundle, t: Tables, target: string)
    requires Holds(u, b, t)
    ensures HasRow(t, target) <==> target in Targets(b.documents)
  {
  }

  lemma IdentifiersAgree(u: Unicode, b: Bundle, t: Tables, req: Request)
    requires WellBuilt(b) && Holds(u, b, t) && req.valueHint.Some?
    ensures SelectIdentifiers(u, t, req) == IdentifierTargets(u, b, req)
  {
    forall i | i in b.identifiers
      ensures i.target in Targets(b.documents) && IdRowOf(u, i) in t.identifiers && HasRow(t, i.target)
      ensures ScopeClause(u, t, i.target, req.hints) <==> (req.hints != map[] ==> InScope(u, b, i.target, req.hints))
    {
      ScopesAgree(u, b, t, i.target, req.hints);
      RowsExist(u, b, t, i.target);
    }
    forall x | x in IdentifierTargets(u, b, req) ensures x in SelectIdentifiers(u, t, req) {
      var i :| i in b.identifiers && IdentifierHit(u, b, req, i) && x == i.target;
      var r := IdRowOf(u, i);
      assert r in t.identifiers && r.item == i;
    }
    forall x | x in SelectIdentifiers(u, t, req) ensures x in IdentifierTargets(u, b, req) {
      var r :| && r in t.identifiers && HasRow(t, r.item.target)
               && MatchClause(u, req.valueHint.value, r.item.caseSensitive, r.matchValue)
               && (req.typeHint.Some? && req.typeHint.value != "" ==> r.item.kind == req.typeHint.value)
               && ScopeClause(u, t, r.item.target, req.hints) && x == r.item.target;
      assert r.item in b.identifiers;
    }
  }

  lemma AliasesAgree(u: Unicode, b: Bundle, t: Tables, req: Request)
    requires WellBuilt(b) && Holds(u, b, t)
    ensures SelectAliases(u, t, req) == AliasTargets(u, b, req)
  {
    forall a | a in b.aliases
      ensures a.target in Targets(b.documents) && AliasRowOf(u, a) in t.aliases && HasRow(t, a.target)
      ensures ScopeClause(u, t, a.target, req.hints) <==> (req.hints != map[] ==> InScope(u, b, a.target, req.hints))
    {
      ScopesAgree(u, b, t, a.target, req.hints);
      RowsExist(u, b, t, a.target);
    }
    forall x | x in AliasTargets(u, b, req) ensures x in SelectAliases(u, t, req) {
      var a :| a in b.aliases && AliasHit(u, b, req, a) && x == a.target;
      var r := AliasRowOf(u, a);
      assert r in t.aliases && r.item == a;
    }
    forall x | x in SelectAliases(u, t, req) ensures x in AliasTargets(u, b, req) {
      var r :| && r in t.aliases && HasRow(t, r.item.target)
               && MatchClause(u, req.normalized, r.item.caseSensitive, r.matchValue)
               && ScopeClause(u, t, r.item.target, req.hints) && x == r.item.target;
      assert r.item in b.aliases;
    }
  }

  // ----- the same order -----

  ghost predicate IsPrimary(b: Bundle, target: string, p: Identifier) {
    p in b.identifiers && p.target == target && p.primary
  }

  ghost predicate AtMostOnePrimary(b: Bundle, target: string) {
    forall p, q :: IsPrimary(b, target, p) && IsPrimary(b, target, q) ==> p == q
  }

  ghost predicate HasPrimary(b: Bundle, target: string) { exists p :: IsPrimary(b, target, p) }

  ghost predicate HasIdentifier(b: Bundle, target: string) { exists i :: i in b.identifiers && i.target == target }

  /** The document of a target joined to its primary identifier. */
  ghost function TheRow(b: Bundle, target: string): JoinedRow
    requires target in Targets(b.documents)
  {
    TargetHasDocument(b.documents, target);
    JoinedRow(FindDocument(b.documents, target).value, FirstPrimary(b.identifiers, target))
  }

  /** The sort keys of the two programs order these targets alike. */
  ghost predicate KeysAgree(u: Unicode, b: Bundle, T: set<string>)
    requires T <= Targets(b.documents)
  {
    forall x, y :: x in T && y in T ==> RowOrder(u)(TheRow(b, x), TheRow(b, y)) == RefLess(u, b)(x, y)
  }

  /** The join gives a target with at most one primary one row: its document and that primary. */
  lemma JoinedRows(u: Unicode, b: Bundle, t: Tables, T: set<string>, x: JoinedRow)
    requires WellBuilt(b) && Holds(u, b, t) && T <= Targets(b.documents)
    requires x.document.target in T ==> AtMostOnePrimary(b, x.document.target)
    ensures x in Joined(t, T) <==> x.document.target in T && x == TheRow(b, x.document.target)
  {
    var target := x.document.target;
    if target in T {
      TargetHasDocument(b.documents, target);
      var d := FindDocument(b.documents, target).value;
      if x.document in b.documents { DocumentUnique(b.documents, x.document, d); }
      var p := FirstPrimary(b.identifiers, target);
      forall i
        ensures IsPrimary(b, target, i) <==> IdRowOf(u, i) in t.identifiers && i.target == target && i.primary
      {
      }
      if x in Joined(t, T) && x.primary.Some? {
        assert IsPrimary(b, target, x.primary.value);
        assert x.primary.value in b.identifiers;
        assert IsPrimary(b, target, p.value);
      }
      if x == TheRow(b, target) && p.Some? {
        assert IdRowOf(u, p.value) in t.identifiers;
      }
      if p.None? {
        forall r | r in t.identifiers ensures !(r.item.target == target && r.item.primary) {
          assert r.item in b.identifiers;
        }
      }
    }
  }

  ghost predicate OnePrimaryAtMost(b: Bundle, T: set<string>) { forall x :: x in T ==> AtMostOnePrimary(b, x) }

  /** rows are the rows of their targets. */
  ghost predicate RowsOf(u: Unicode, b: Bundle, rows: seq<JoinedRow>, targets: seq<string>) {
    && |rows| == |targets|
    && forall k :: 0 <= k < |targets| ==> targets[k] in Targets(b.documents) && rows[k] == TheRow(b, targets[k])
  }

  lemma SelectedRows(u: Unicode, b: Bundle, t: Tables, T: set<string>, rows: seq<JoinedRow>)
    requires WellBuilt(b) && Holds(u, b, t) && T <= Targets(b.documents) && OnePrimaryAtMost(b, T)
    requires Arranges(RowOrder(u), rows, Joined(t, T))
    ensures RowsOf(u, b, rows, TargetsOf(rows)) && forall x :: x in TargetsOf(rows) <==> x in T
  {
    var targets := TargetsOf(rows);
    forall k | 0 <= k < |rows| ensures targets[k] in T && rows[k] == TheRow(b, targets[k]) {
      assert rows[k] in Joined(t, T);
      JoinedRows(u, b, t, T, rows[k]);
    }
    forall x | x in T ensures x in targets {
      JoinedRows(u, b, t, T, TheRow(b, x));
      var k :| 0 <= k < |rows| && rows[k] == TheRow(b, x);
      assert targets[k] == x;
    }
  }

  /** Where the keys agree, every allowed SQL listing is the reference order. */
  lemma SelectionsAgree(u: Unicode, b: Bundle, t: Tables, T: set<string>, targets: seq<string>)
    requires WellBuilt(b) && Holds(u, b, t) && T <= Targets(b.documents)
    requires OnePrimaryAtMost(b, T) && KeysAgree(u, b, T) && SelectedAs(u, t, T, targets)
    ensures StrictWeak(RefLess(u, b)) && targets == Arranged(RefLess(u, b), T)
  {
    var rows: seq<JoinedRow> :| Arranges(RowOrder(u), rows, Joined(t, T)) && targets == TargetsOf(rows);
    SelectedRows(u, b, t, T, rows);
    forall i, j | 0 <= i < j < |targets| ensures targets[i] != targets[j] && !RefLess(u, b)(targets[j], targets[i]) {
      assert rows[i] != rows[j] && !RowOrder(u)(rows[j], rows[i]);
      assert targets[i] in T && targets[j] in T;
    }
    RefOrder(u, b);
    ArrangeUnique(RefLess(u, b), targets, Arranged(RefLess(u, b), T), T);
  }

  // ----- the same answers -----

  /** The targets a request matches at the stage that answers it, as the reference finds them. */
  ghost function Matched(u: Unicode, b: Bundle, req: Request): set<string> {
    if req.normalized == "" then {}
    else if req.normalized in Targets(b.documents) then {req.normalized}
    else if IdentifierTargets(u, b, req) != {} then IdentifierTargets(u, b, req)
    else AliasTargets(u, b, req)
  }

  lemma MatchedIsKnown(u: Unicode, b: Bundle, req: Request)
    requires WellBuilt(b)
    ensures Matched(u, b, req) <= Targets(b.documents)
  {
  }

  /** The stage that answers a request, if one does. */
  function StageOf(u: Unicode, b: Bundle, req: Request): Option<string> {
    if req.normalized == "" then None
    else if FindDocument(b.documents, req.normalized).Some? then Some("canonical_identifier")
    else if exists i :: i in b.identifiers && IdentifierHit(u, b, req, i) then Some(IdentifierStage(req))
    else if exists a :: a in b.aliases && AliasHit(u, b, req, a) then Some("alias")
    else None
  }

  lemma ReferenceStage(u: Unicode, b: Bundle, req: Request)
    ensures match StageOf(u, b, req)
            case None => RefOutcome(u, b, req) == (if req.normalized == "" then NoMatch else Lexical)
                && Matched(u, b, req) == {}
            case Some(stage) => RefOutcome(u, b, req) == RefAnswer(u, b, stage, Matched(u, b, req))
  {
    HitsAreTargets(u, b, req);
  }

  lemma SqlStage(u: Unicode, b: Bundle, t: Tables, req: Request, a: Outcome)
    requires WellBuilt(b) && Holds(u, b, t)
    ensures match StageOf(u, b, req)
            case None => SqlOutcome(u, t, req, a) <==> a == if req.normalized == "" then NoMatch else Lexical
            case Some(stage) => SqlOutcome(u, t, req, a) <==> SqlAnswer(u, t, stage, Matched(u, b, req), a)
  {
    var found := if req.valueHint.Some? then SelectIdentifiers(u, t, req) else {};
    assert found == IdentifierTargets(u, b, req) by {
      HitsAreTargets(u, b, req);
      if req.valueHint.Some? { IdentifiersAgree(u, b, t, req); }
    }
    assert SelectAliases(u, t, req) == AliasTargets(u, b, req) by { AliasesAgree(u, b, t, req); }
    assert HasRow(t, req.normalized) <==>
        req.normalized in Targets(b.documents) by { RowsExist(u, b, t, req.normalized); }
    HitsAreTargets(u, b, req);
  }

  /** Both programs answer at the same stage, from the same matched targets, and leave the exact stages together. */
  lemma StagesAgree(u: Unicode, b: Bundle, t: Tables, req: Request, a: Outcome)
    requires WellBuilt(b) && Holds(u, b, t)
    ensures match StageOf(u, b, req)
            case None =>
              && (SqlOutcome(u, t, req, a) <==> a == RefOutcome(u, b, req)) && Matched(u, b, req) == {}
            case Some(stage) =>
              && (SqlOutcome(u, t, req, a) <==> SqlAnswer(u, t, stage, Matched(u, b, req), a))
              && RefOutcome(u, b, req) == RefAnswer(u, b, stage, Matched(u, b, req))
  {
    ReferenceStage(u, b, req);
    SqlStage(u, b, t, req, a);
  }

  lemma HitsAreTargets(u: Unicode, b: Bundle, req: Request)
    ensures (exists i :: i in b.identifiers && IdentifierHit(u, b, req, i)) <==> IdentifierTargets(u, b, req) != {}
    ensures (exists a :: a in b.aliases && AliasHit(u, b, req, a)) <==> AliasTargets(u, b, req) != {}
    ensures req.valueHint.None? ==> IdentifierTargets(u, b, req) == {}
    ensures FindDocument(b.documents, req.normalized).Some? <==> req.normalized in Targets(b.documents)
  {
    if i :| i in b.identifiers && IdentifierHit(u, b, req, i) { assert i.target in IdentifierTargets(u, b, req); }
    if a :| a in b.aliases && AliasHit(u, b, req, a) { assert a.target in AliasTargets(u, b, req); }
    if x :| x in IdentifierTargets(u, b, req) { var i :| i in b.identifiers && IdentifierHit(u, b, req, i)
        && i.target == x; }
    if x :| x in AliasTargets(u, b, req) { var a :| a in b.aliases && AliasHit(u, b, req, a) && a.target == x; }
  }

  /** A caller can see this in the matched records: no target with two primaries, and a primary wherever there
      are identifiers. */
  ghost predicate OnePrimary(b: Bundle, T: set<string>) {
    forall x :: x in T ==> AtMostOnePrimary(b, x) && (HasIdentifier(b, x) ==> HasPrimary(b, x))
  }

  lemma OnePrimaryKeysAgree(u: Unicode, b: Bundle, T: set<string>)
    requires T <= Targets(b.documents) && OnePrimary(b, T)
    ensures OnePrimaryAtMost(b, T) && KeysAgree(u, b, T)
  {
    forall x | x in T ensures RefPrimary(b, x) == FirstPrimary(b.identifiers, x) && FindDocument(b.documents, x).Some? {
      TargetHasDocument(b.documents, x);
      if FirstOf(b.identifiers, x).Some? {
        assert HasIdentifier(b, x);
        var q :| IsPrimary(b, x, q);
        assert FirstPrimary(b.identifiers, x).Some?;
      }
    }
  }

  /** For every request whose matched records carry one primary each, the two resolvers give the same stage,
      status and ordered targets. */
  lemma ResolversAgree(u: Unicode, b: Bundle, t: Tables, req: Request, a: Outcome)
    requires WellBuilt(b) && Holds(u, b, t) && OnePrimary(b, Matched(u, b, req))
    requires SqlOutcome(u, t, req, a)
    ensures a == RefOutcome(u, b, req)
  {
    StagesAgree(u, b, t, req, a);
    if StageOf(u, b, req).Some? {
      MatchedIsKnown(u, b, req);
      OnePrimaryKeysAgree(u, b, Matched(u, b, req));
      SelectionsAgree(u, b, t, Matched(u, b, req), a.targets);
    }
  }
}

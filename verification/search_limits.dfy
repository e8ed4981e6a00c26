/** When the two resolvers part: the exact condition on the matched records, and records for which it fails. */
module SearchLimits {
  import opened Wrappers
  import opened Ordering
  import opened SearchBundle
  import opened SearchIndex
  import opened SearchResolve
  import opened SearchAgree

  // ----- how often a target is answered -----

  lemma JoinedPrimary(u: Unicode, b: Bundle, t: Tables, T: set<string>, d: Document, p: Identifier)
    requires Holds(u, b, t) && d in b.documents && d.target in T
    ensures JoinedRow(d, Some(p)) in Joined(t, T) <==> IsPrimary(b, d.target, p)
  {
    if IsPrimary(b, d.target, p) {
      assert IdRowOf(u, p) in t.identifiers && IdRowOf(u, p).item == p;
    }
    if JoinedRow(d, Some(p)) in Joined(t, T) {
      var r :| r in t.identifiers && r.item == p && r.item.target == d.target && r.item.primary;
    }
  }

  /** The SQL answer names each target once exactly when no matched target has two primaries. */
  lemma AnswersOnceIff(u: Unicode, b: Bundle, t: Tables, T: set<string>)
    requires WellBuilt(b) && Holds(u, b, t) && T <= Targets(b.documents)
    ensures (forall targets :: SelectedAs(u, t, T, targets) ==> NoDup(targets)) <==> OnePrimaryAtMost(b, T)
  {
    if OnePrimaryAtMost(b, T) {
      forall targets | SelectedAs(u, t, T, targets) ensures NoDup(targets) {
        OncePerTarget(u, b, t, T, targets);
      }
    }
    if x, p, q :| x in T && IsPrimary(b, x, p) && IsPrimary(b, x, q) && p != q {
      TwoPrimariesTwice(u, b, t, T, x, p, q);
    }
  }

  lemma OncePerTarget(u: Unicode, b: Bundle, t: Tables, T: set<string>, targets: seq<string>)
    requires WellBuilt(b) && Holds(u, b, t) && T <= Targets(b.documents) && SelectedAs(u, t, T, targets)
    requires OnePrimaryAtMost(b, T)
    ensures NoDup(targets)
  {
    var rows: seq<JoinedRow> :| Arranges(RowOrder(u), rows, Joined(t, T)) && targets == TargetsOf(rows);
    SelectedRows(u, b, t, T, rows);
  }

  lemma TwoPrimariesTwice(u: Unicode, b: Bundle, t: Tables, T: set<string>, x: string, p: Identifier, q: Identifier)
    requires WellBuilt(b) && Holds(u, b, t) && T <= Targets(b.documents)
    requires x in T && IsPrimary(b, x, p) && IsPrimary(b, x, q) && p != q
    ensures exists targets :: SelectedAs(u, t, T, targets) && !NoDup(targets)
  {
    RowOrderIsWeak(u);
    var rows := Arranged(RowOrder(u), Joined(t, T));
    var targets := TargetsOf(rows);
    TargetHasDocument(b.documents, x);
    var d := FindDocument(b.documents, x).value;
    JoinedPrimary(u, b, t, T, d, p);
    JoinedPrimary(u, b, t, T, d, q);
    var i :| 0 <= i < |rows| && rows[i] == JoinedRow(d, Some(p));
    var j :| 0 <= j < |rows| && rows[j] == JoinedRow(d, Some(q));
    assert targets[i] == targets[j] && i != j;
    assert SelectedAs(u, t, T, targets);
  }

  // ----- in which order -----

  ghost predicate OrdersAgree(u: Unicode, b: Bundle, t: Tables, T: set<string>) {
    RefOrder(u, b);
    forall targets :: SelectedAs(u, t, T, targets) ==> targets == Arranged(RefLess(u, b), T)
  }

  /** The rows of different targets never tie: the key ends in the target. */
  lemma RowsApart(u: Unicode, b: Bundle, x: string, y: string)
    requires x in Targets(b.documents) && y in Targets(b.documents) && x != y
    ensures RowOrder(u)(TheRow(b, x), TheRow(b, y)) != RowOrder(u)(TheRow(b, y), TheRow(b, x))
  {
    TargetHasDocument(b.documents, x);
    TargetHasDocument(b.documents, y);
    var p, q := TheRow(b, x), TheRow(b, y);
    var k, l := SortKey(u, p.document, p.primary), SortKey(u, q.document, q.primary);
    assert k[7] == x && l[7] == y;
    TupleStrictTotal();
  }

  lemma RefApart(u: Unicode, b: Bundle, x: string, y: string)
    requires x != y
    ensures RefLess(u, b)(x, y) != RefLess(u, b)(y, x)
  {
    RefOrder(u, b);
  }

  /** A listing of targets in the order of both keys compares any two of them alike. */
  lemma SharedOrder(u: Unicode, b: Bundle, targets: seq<string>, rows: seq<JoinedRow>, i: nat, j: nat)
    requires RowsOf(u, b, rows, targets) && i < |targets| && j < |targets|
    requires Sorted(RowOrder(u), rows) && Sorted(RefLess(u, b), targets) && NoDup(targets)
    ensures RowOrder(u)(TheRow(b, targets[i]), TheRow(b, targets[j])) == RefLess(u, b)(targets[i], targets[j])
  {
    if i == j {
      TupleStrictTotal();
      RefOrder(u, b);
    } else {
      assert targets[i] != targets[j] by { if j < i { assert targets[j] != targets[i]; } }
      RowsApart(u, b, targets[i], targets[j]);
      RefApart(u, b, targets[i], targets[j]);
      assert rows[i] == TheRow(b, targets[i]) && rows[j] == TheRow(b, targets[j]);
    }
  }

  lemma AgreeingKeys(u: Unicode, b: Bundle, t: Tables, T: set<string>)
    requires WellBuilt(b) && Holds(u, b, t) && T <= Targets(b.documents) && OnePrimaryAtMost(b, T)
    requires OrdersAgree(u, b, t, T)
    ensures KeysAgree(u, b, T)
  {
    RowOrderIsWeak(u);
    RefOrder(u, b);
    var rows := Arranged(RowOrder(u), Joined(t, T));
    var targets := TargetsOf(rows);
    assert SelectedAs(u, t, T, targets);
    SelectedRows(u, b, t, T, rows);
    forall x, y | x in T && y in T ensures RowOrder(u)(TheRow(b, x), TheRow(b, y)) == RefLess(u, b)(x, y) {
      var i :| 0 <= i < |targets| && targets[i] == x;
      var j :| 0 <= j < |targets| && targets[j] == y;
      SharedOrder(u, b, targets, rows, i, j);
    }
  }

  /** Every listing SQL may give is the reference's exactly when no matched target has two primaries and the two
      sort keys order the matched targets alike. */
  lemma OrdersAgreeIff(u: Unicode, b: Bundle, t: Tables, T: set<string>)
    requires WellBuilt(b) && Holds(u, b, t) && T <= Targets(b.documents)
    ensures OrdersAgree(u, b, t, T) <==> OnePrimaryAtMost(b, T) && KeysAgree(u, b, T)
  {
    RefOrder(u, b);
    if OrdersAgree(u, b, t, T) {
      AnswersOnceIff(u, b, t, T);
      AgreeingKeys(u, b, t, T);
    }
    if OnePrimaryAtMost(b, T) && KeysAgree(u, b, T) {
      forall targets | SelectedAs(u, t, T, targets) ensures targets == Arranged(RefLess(u, b), T) {
        SelectionsAgree(u, b, t, T, targets);
      }
    }
  }

  // ----- whole answers -----

  ghost predicate AlwaysAgree(u: Unicode, b: Bundle, t: Tables, req: Request) {
    forall a :: SqlOutcome(u, t, req, a) ==> a == RefOutcome(u, b, req)
  }

  lemma AnswersAgreeIff(u: Unicode, b: Bundle, t: Tables, req: Request)
    requires WellBuilt(b) && Holds(u, b, t) && StageOf(u, b, req).Some?
    ensures AlwaysAgree(u, b, t, req) <==> OrdersAgree(u, b, t, Matched(u, b, req))
  {
    var stage, T := StageOf(u, b, req).value, Matched(u, b, req);
    RefOrder(u, b);
    if AlwaysAgree(u, b, t, req) {
      forall targets | SelectedAs(u, t, T, targets) ensures targets == Arranged(RefLess(u, b), T) {
        var a := Exact(stage, Status(targets), targets);
        StagesAgree(u, b, t, req, a);
        assert SqlAnswer(u, t, stage, T, a);
      }
    }
    if OrdersAgree(u, b, t, T) {
      forall a | SqlOutcome(u, t, req, a) ensures a == RefOutcome(u, b, req) { StagesAgree(u, b, t, req, a); }
    }
  }

  lemma NoAnswerAgrees(u: Unicode, b: Bundle, t: Tables, req: Request)
    requires WellBuilt(b) && Holds(u, b, t) && StageOf(u, b, req).None?
    ensures AlwaysAgree(u, b, t, req) && Matched(u, b, req) == {}
  {
    forall a ensures SqlOutcome(u, t, req, a) ==> a == RefOutcome(u, b, req) { StagesAgree(u, b, t, req, a); }
    ReferenceStage(u, b, req);
  }

  /** The two resolvers always give the same answer to a request exactly on that condition, for the targets it
      matches. */
  lemma ResolversAgreeIff(u: Unicode, b: Bundle, t: Tables, req: Request)
    requires WellBuilt(b) && Holds(u, b, t)
    ensures Matched(u, b, req) <= Targets(b.documents)
    ensures AlwaysAgree(u, b, t, req) <==>
      OnePrimaryAtMost(b, Matched(u, b, req)) && KeysAgree(u, b, Matched(u, b, req))
  {
    MatchedIsKnown(u, b, req);
    if StageOf(u, b, req).Some? {
      AnswersAgreeIff(u, b, t, req);
      OrdersAgreeIff(u, b, t, Matched(u, b, req));
    } else {
      NoAnswerAgrees(u, b, t, req);
    }
  }

  function ScopeKey(u: Unicode, s: Scope): seq<string> {
    [Fold(u, Or(s.platform)), Fold(u, Or(s.product)), Fold(u, Or(s.provider)), Fold(u, Or(s.channel))]
  }

  lemma KeysInParts(u: Unicode, d: Document, p: Option<Identifier>)
    ensures SortKey(u, d, p) == ScopeKey(u, d.scope)
      + [Fold(u, if p.Some? then p.value.kind else ""), Fold(u, if p.Some? then p.value.value else ""),
         Fold(u, Or(d.lifecycle)), d.target]
  {
  }

  /** Sort keys alike up to the identifier's value compare by that value. */
  lemma ByValue(u: Unicode, d: Document, e: Document, i: Identifier, j: Identifier)
    requires d.scope == e.scope && i.kind == j.kind && StrLess(Fold(u, j.value), Fold(u, i.value))
    ensures TupleLess(SortKey(u, e, Some(j)), SortKey(u, d, Some(i)))
  {
    StrStrictTotal();
    var front := ScopeKey(u, d.scope) + [Fold(u, i.kind)];
    var x, y := [Fold(u, j.value), Fold(u, Or(e.lifecycle)), e.target], [Fold(u, i.value), Fold(u, Or(d.lifecycle)),
        d.target];
    KeysInParts(u, d, Some(i));
    KeysInParts(u, e, Some(j));
    assert SortKey(u, e, Some(j)) == front + x && SortKey(u, d, Some(i)) == front + y;
    LexPrefix(StrLess, front, x, y);
  }

  /** Sort keys alike up to the target compare by it. */
  lemma ByTarget(u: Unicode, d: Document, e: Document)
    requires d.scope == e.scope && d.lifecycle == e.lifecycle && StrLess(d.target, e.target)
    ensures TupleLess(SortKey(u, d, None), SortKey(u, e, None))
  {
    StrStrictTotal();
    var front := ScopeKey(u, d.scope) + [Fold(u, ""), Fold(u, ""), Fold(u, Or(d.lifecycle))];
    KeysInParts(u, d, None);
    KeysInParts(u, e, None);
    assert SortKey(u, d, None) == front + [d.target] && SortKey(u, e, None) == front + [e.target];
    LexPrefix(StrLess, front, [d.target], [e.target]);
  }

  /** Without primaries the reference sorts by the first identifier, the index by what follows it: two
      documents that differ only there come out in opposite orders. */
  lemma WithoutPrimaryOrdersDiffer(u: Unicode, b: Bundle, d: Document, e: Document, i: Identifier, j: Identifier)
    requires FindDocument(b.documents, d.target) == Some(d) && FindDocument(b.documents, e.target) == Some(e)
    requires d.scope == e.scope && d.lifecycle == e.lifecycle
    requires FirstPrimary(b.identifiers, d.target).None? && FirstOf(b.identifiers, d.target) == Some(i)
    requires FirstPrimary(b.identifiers, e.target).None? && FirstOf(b.identifiers, e.target) == Some(j)
    requires i.kind == j.kind && StrLess(Fold(u, j.value), Fold(u, i.value)) && StrLess(d.target, e.target)
    ensures RefLess(u, b)(e.target, d.target)
    ensures RowOrder(u)(JoinedRow(d, None), JoinedRow(e, None))
  {
    ByValue(u, d, e, i, j);
    ByTarget(u, d, e);
  }
}

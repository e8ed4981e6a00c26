/** When the outcome of a parse depends on the order in which the graph lists its triples: the exact condition,
    and a graph for which it fails. */
module BlankOrder {
  import opened Ordering
  import opened BlankSpec
  import opened BlankVisits

  // ----- one set of roots -----

  lemma RefusedLater(g: Graph, root: Term, done: set<Term>, more: set<Term>, limit: nat)
    requires done <= more && Refused(g, root, more, limit)
    ensures Refused(g, root, done, limit)
  {
    assert FreshEdges(g, root, more) <= FreshEdges(g, root, done);
    Smaller(FreshEdges(g, root, more), FreshEdges(g, root, done));
  }

  /** Roots that each fit the budget on their own fit it in any order. */
  lemma {:induction false} EachFits(g: Graph, roots: seq<Term>, done: set<Term>, more: set<Term>, limit: nat)
    requires done <= more && forall r :: r in roots ==> !Refused(g, r, done, limit)
    ensures Accepted(g, roots, more, limit)
  {
    if roots != [] {
      if Refused(g, roots[0], more, limit) { RefusedLater(g, roots[0], done, more, limit); }
      EachFits(g, roots[1..], done, more + ReachSet(g, roots[0]), limit);
    }
  }

  ghost predicate AnyOrderAccepted(g: Graph, roots: seq<Term>, done: set<Term>, limit: nat) {
    forall order: seq<Term> :: multiset(order) == multiset(roots) ==> Accepted(g, order, done, limit)
  }

  lemma ToFront(roots: seq<Term>, r: Term) returns (order: seq<Term>)
    requires r in roots
    ensures multiset(order) == multiset(roots) && order != [] && order[0] == r
  {
    var k :| 0 <= k < |roots| && roots[k] == r;
    order := [r] + roots[..k] + roots[k + 1..];
    assert roots == roots[..k] + [r] + roots[k + 1..];
  }

  /** Every order of the roots is accepted exactly when each root fits the budget when visited first. */
  lemma AnyOrderIff(g: Graph, roots: seq<Term>, done: set<Term>, limit: nat)
    ensures AnyOrderAccepted(g, roots, done, limit) <==> forall r :: r in roots ==> !Refused(g, r, done, limit)
  {
    if AnyOrderAccepted(g, roots, done, limit) {
      forall r | r in roots ensures !Refused(g, r, done, limit) {
        var order := ToFront(roots, r);
        assert Accepted(g, order, done, limit);
      }
    }
    if forall r :: r in roots ==> !Refused(g, r, done, limit) {
      forall order: seq<Term> | multiset(order) == multiset(roots) ensures Accepted(g, order, done, limit) {
        SameElements(order, roots);
        EachFits(g, order, done, done, limit);
      }
    }
  }

  /** Without any budget the order is irrelevant: a structure with an edge is refused wherever it comes. */
  lemma {:induction false} ZeroLimitIff(g: Graph, roots: seq<Term>, done: set<Term>)
    ensures Accepted(g, roots, done, 0) <==> forall r :: r in roots ==> !Refused(g, r, done, 0)
  {
    if Accepted(g, roots, done, 0) {
      if roots != [] {
        var more := done + ReachSet(g, roots[0]);
        ZeroLimitIff(g, roots[1..], more);
        forall r | r in roots ensures !Refused(g, r, done, 0) {
          if r != roots[0] {
            assert roots == [roots[0]] + roots[1..];
            assert FreshEdges(g, roots[0], done) == {} && FreshEdges(g, r, more) == {};
            forall t | t in FreshEdges(g, r, done) ensures t in FreshEdges(g, r, more)
                || t in FreshEdges(g, roots[0], done) { }
          }
        }
      }
    } else if forall r :: r in roots ==> !Refused(g, r, done, 0) {
      EachFits(g, roots, done, done, 0);
    }
  }

  // ----- a whole parse -----

  ghost predicate IsReached(g: Graph, subjects: seq<Term>, known: set<string>, x: Term) {
    exists k, t :: 0 <= k < |subjects| && t in Unknown(g, subjects[k], known) && t.obj.Blank? && Reaches(g, t.obj, x)
  }

  /** Everything in the structures of the given techniques. */
  ghost function ReachedBy(g: Graph, subjects: seq<Term>, known: set<string>): (S: set<Term>)
    ensures forall x :: x in S <==> IsReached(g, subjects, known, x)
  {
    forall x | IsReached(g, subjects, known, x) ensures x in Objects(g) {
      var k, t :| 0 <= k < |subjects| && t in Unknown(g, subjects[k], known) && t.obj.Blank? && Reaches(g, t.obj, x);
      var n: nat :| Steps(g, t.obj, x, n);
      StepsStayInGraph(g, t.obj, x, n);
    }
    set x | x in Objects(g) && IsReached(g, subjects, known, x)
  }

  lemma {:induction false} ReachAllIs(g: Graph, roots: seq<Term>, x: Term)
    ensures x in ReachAll(g, roots) <==> exists r :: r in roots && Reaches(g, r, x)
  {
    if roots != [] {
      ReachAllIs(g, roots[1..], x);
      assert roots == [roots[0]] + roots[1..];
    }
  }

  lemma {:induction false} InAllRoots(order: seq<seq<Triple>>, r: Term)
    ensures r in AllRoots(order) <==> exists k, t :: 0 <= k < |order| && t in order[k] && t.obj.Blank? && t.obj == r
  {
    if order != [] {
      var last := |order| - 1;
      InAllRoots(order[..last], r);
      RootsAre(order[last], r);
      assert order == order[..last] + [order[last]];
    }
  }

  /** What a parse has cached before a technique does not depend on the order of the triples so far. */
  lemma ReachedInAnyOrder(g: Graph, subjects: seq<Term>, known: set<string>, order: seq<seq<Triple>>)
    requires IsOrder(g, subjects, known, order)
    ensures ReachAll(g, AllRoots(order)) == ReachedBy(g, subjects, known)
  {
    forall x ensures x in ReachAll(g, AllRoots(order)) <==> x in ReachedBy(g, subjects, known) {
      ReachAllIs(g, AllRoots(order), x);
      if r :| r in AllRoots(order) && Reaches(g, r, x) {
        InAllRoots(order, r);
        var k, t :| 0 <= k < |order| && t in order[k] && t.obj.Blank? && t.obj == r;
        assert t in Unknown(g, subjects[k], known);
      }
      if x in ReachedBy(g, subjects, known) {
        var k, t :| 0 <= k < |subjects| && t in Unknown(g, subjects[k], known) && t.obj.Blank? && Reaches(g, t.obj, x);
        assert t in order[k];
        InAllRoots(order, t.obj);
      }
    }
  }

  /** Structure t.obj of technique k fits the budget after the techniques before it. */
  ghost predicate Fits(g: Graph, subjects: seq<Term>, known: set<string>, limit: nat, k: nat, t: Triple)
    requires k < |subjects|
  {
    t in Unknown(g, subjects[k], known) && t.obj.Blank? ==>
        !Refused(g, t.obj, ReachedBy(g, subjects[..k], known), limit)
  }

  ghost predicate AllFit(g: Graph, subjects: seq<Term>, known: set<string>, limit: nat) {
    forall k, t :: 0 <= k < |subjects| ==> Fits(g, subjects, known, limit, k, t)
  }

  lemma {:induction false} FittingParses(g: Graph, subjects: seq<Term>, known: set<string>, limit: nat,
                                         order: seq<seq<Triple>>)
    requires AllFit(g, subjects, known, limit) && IsOrder(g, subjects, known, order)
    ensures Accepted(g, AllRoots(order), {}, limit)
  {
    if order != [] {
      var last := |order| - 1;
      var front, some := subjects[..last], order[..last];
      forall k, t | 0 <= k < last ensures Fits(g, front, known, limit, k, t) {
        assert front[..k] == subjects[..k];
        assert Fits(g, subjects, known, limit, k, t);
      }
      FittingParses(g, front, known, limit, some);
      ReachedInAnyOrder(g, front, known, some);
      var done := ReachedBy(g, front, known);
      forall r | r in Roots(order[last]) ensures !Refused(g, r, done, limit) {
        RootsAre(order[last], r);
        var t :| t in order[last] && t.obj.Blank? && t.obj == r;
        assert Fits(g, subjects, known, limit, last, t);
      }
      EachFits(g, Roots(order[last]), done, done, limit);
      AcceptedJoin(g, AllRoots(some), Roots(order[last]), {}, limit);
      assert {} + done == done;
    }
  }

  lemma ListedFirst(S: set<Triple>, t: Triple) returns (triples: seq<Triple>)
    requires t in S
    ensures Lists(triples, S) && triples != [] && triples[0] == t
  {
    triples := [t] + Listing(S - {t});
  }

  lemma FirstRoot(triples: seq<Triple>)
    requires triples != [] && triples[0].obj.Blank?
    ensures Roots(triples) != [] && Roots(triples)[0] == triples[0].obj
  {
    assert triples == [triples[0]] + triples[1..];
    RootsJoin([triples[0]], triples[1..]);
    assert Roots([triples[0]]) == [triples[0].obj] by { assert [triples[0]][..0] == []; }
  }

  /** Some listing of the triples visits structure t.obj first among those of its technique. */
  lemma MisfitRefused(g: Graph, subjects: seq<Term>, known: set<string>, limit: nat, k: nat, t: Triple)
    returns (order: seq<seq<Triple>>)
    requires k < |subjects| && !Fits(g, subjects, known, limit, k, t)
    ensures IsOrder(g, subjects, known, order) && !Accepted(g, AllRoots(order), {}, limit)
  {
    var before := SomeOrder(g, subjects[..k], known);
    var triples := ListedFirst(Unknown(g, subjects[k], known), t);
    ReachedInAnyOrder(g, subjects[..k], known, before);
    FirstRoot(triples);
    var some := before + [triples];
    assert some[..k] == before;
    assert subjects[..k + 1] == subjects[..k] + [subjects[k]];
    AcceptedJoin(g, AllRoots(before), Roots(triples), {}, limit);
    assert {} + ReachAll(g, AllRoots(before)) == ReachedBy(g, subjects[..k], known);
    order := RefusedAnyway(g, subjects, known, some, {}, limit);
  }

  ghost predicate AnyListingParses(g: Graph, subjects: seq<Term>, known: set<string>, limit: nat) {
    forall order :: IsOrder(g, subjects, known, order) ==> Accepted(g, AllRoots(order), {}, limit)
  }

  /** A parse succeeds however the graph lists its triples exactly when every blank structure of every technique
      fits the budget after the techniques before it. */
  lemma ParseOrderIff(g: Graph, subjects: seq<Term>, known: set<string>, limit: nat)
    ensures AnyListingParses(g, subjects, known, limit) <==> AllFit(g, subjects, known, limit)
  {
    if AllFit(g, subjects, known, limit) {
      forall order | IsOrder(g, subjects, known, order) ensures Accepted(g, AllRoots(order), {}, limit) {
        FittingParses(g, subjects, known, limit, order);
      }
    } else {
      var k, t :| 0 <= k < |subjects| && !Fits(g, subjects, known, limit, k, t);
      var order := MisfitRefused(g, subjects, known, limit, k, t);
    }
  }

  // ----- a technique that parses in one order and not in the other -----

  const TECHNIQUE := Named("iri", "technique")
  const OUTER := Blank("outer")
  const INNER := Blank("inner")

  const USES_INNER := Triple(TECHNIQUE, "uses", INNER)
  const USES_OUTER := Triple(TECHNIQUE, "uses", OUTER)
  const LINK := Triple(OUTER, "inner", INNER)

  function Leaf(k: nat): Triple { Triple(INNER, "leaf", Named("literal", seq(k, _ => 'x'))) }

  ghost function Leaves(n: nat): (s: set<Triple>)
    ensures |s| == n
    ensures forall t :: t in s ==> t.subject == INNER && t.obj.Named? && |t.obj.text| < n
  {
    if n == 0 then {} else
      var rest := Leaves(n - 1);
      assert |Leaf(n - 1).obj.text| == n - 1;
      rest + {Leaf(n - 1)}
  }

  /** A technique with two structures: inner has n leaves, and outer has one edge, to inner. */
  ghost function Nested(n: nat): Graph { Leaves(n) + {LINK, USES_INNER, USES_OUTER} }

  lemma NestedEdges(n: nat, a: Term, b: Term)
    ensures Edge(Nested(n), a, b) <==> a == OUTER && b == INNER
  {
    if Edge(Nested(n), a, b) {
      var p :| Triple(a, p, b) in Nested(n);
    }
    assert Triple(OUTER, "inner", INNER) in Nested(n);
  }

  lemma InnerStops(n: nat, b: Term, k: nat)
    requires Steps(Nested(n), INNER, b, k)
    ensures k == 0 && b == INNER
  {
    forall m ensures !Edge(Nested(n), INNER, m) { NestedEdges(n, INNER, m); }
  }

  lemma NestedSteps(n: nat, a: Term, b: Term, k: nat)
    requires Steps(Nested(n), a, b, k)
    ensures a == b || (a == OUTER && b == INNER)
  {
    if k > 0 {
      var m :| Edge(Nested(n), a, m) && Steps(Nested(n), m, b, k - 1);
      NestedEdges(n, a, m);
      InnerStops(n, b, k - 1);
    }
  }

  lemma NestedReach(n: nat)
    ensures ReachSet(Nested(n), INNER) == {INNER}
    ensures ReachSet(Nested(n), OUTER) == {OUTER, INNER}
    ensures Acyclic(Nested(n), INNER) && Acyclic(Nested(n), OUTER)
  {
    var g := Nested(n);
    forall a, b ensures Reaches(g, a, b) <==> a == b || (a == OUTER && b == INNER) {
      if Reaches(g, a, b) {
        var k: nat :| Steps(g, a, b, k);
        NestedSteps(n, a, b, k);
      }
      ReachesSelf(g, b);
      if a == OUTER && b == INNER {
        NestedEdges(n, a, b);
        EdgeThenReaches(g, a, b, b);
      }
    }
    forall x ensures !Precedes(g, x, x) {
      forall m ensures !(Edge(g, x, m) && Reaches(g, m, x)) { NestedEdges(n, x, m); }
    }
  }

  lemma InnerFits(n: nat)
    ensures !Refused(Nested(n), INNER, {}, n)
  {
    NestedReach(n);
    assert FreshEdges(Nested(n), INNER, {}) == Leaves(n);
  }

  lemma OuterFitsAfterInner(n: nat)
    requires n > 0
    ensures !Refused(Nested(n), OUTER, {INNER}, n)
  {
    NestedReach(n);
    assert FreshEdges(Nested(n), OUTER, {INNER}) == {LINK};
  }

  lemma OuterAloneIsRefused(n: nat)
    ensures Refused(Nested(n), OUTER, {}, n)
  {
    NestedReach(n);
    assert LINK !in Leaves(n);
    assert FreshEdges(Nested(n), OUTER, {}) == Leaves(n) + {LINK};
  }

  lemma InnerThenOuter(n: nat)
    requires n > 0
    ensures Accepted(Nested(n), [INNER, OUTER], {}, n) && !Accepted(Nested(n), [OUTER, INNER], {}, n)
  {
    var g := Nested(n);
    InnerFits(n);
    OuterFitsAfterInner(n);
    OuterAloneIsRefused(n);
    NestedReach(n);
    assert {} + ReachSet(g, INNER) == {INNER};
    AcceptedOne(g, OUTER, {INNER}, n);
    assert [INNER, OUTER][1..] == [OUTER];
  }

  lemma BothOrders(n: nat)
    ensures IsOrder(Nested(n), [TECHNIQUE], {}, [[USES_INNER, USES_OUTER]])
    ensures IsOrder(Nested(n), [TECHNIQUE], {}, [[USES_OUTER, USES_INNER]])
  {
    assert Unknown(Nested(n), TECHNIQUE, {}) == {USES_INNER, USES_OUTER};
  }

  /** For every positive limit there is a graph, of one technique with two structures, that parses when the
      graph lists one structure first and is refused when it lists the other first. */
  lemma OrderMatters(limit: nat) returns (g: Graph, good: seq<seq<Triple>>, bad: seq<seq<Triple>>)
    requires limit > 0
    ensures IsOrder(g, [TECHNIQUE], {}, good) && Accepted(g, AllRoots(good), {}, limit)
    ensures IsOrder(g, [TECHNIQUE], {}, bad) && !Accepted(g, AllRoots(bad), {}, limit)
  {
    g := Nested(limit);
    good, bad := [[USES_INNER, USES_OUTER]], [[USES_OUTER, USES_INNER]];
    BothOrders(limit);
    InnerThenOuter(limit);
    TwoRoots(USES_INNER, USES_OUTER);
    TwoRoots(USES_OUTER, USES_INNER);
  }

  lemma TwoRoots(s: Triple, t: Triple)
    requires s.obj.Blank? && t.obj.Blank?
    ensures AllRoots([[s, t]]) == [s.obj, t.obj]
  {
    assert [s, t][..1] == [s] && [s][..0] == [];
    assert Roots([s]) == [s.obj] && Roots([s, t]) == [s.obj, t.obj];
    assert [[s, t]][..0] == [];
  }
}

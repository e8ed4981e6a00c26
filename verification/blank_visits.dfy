/** The order in which a parse visits blank nodes, and whether that order fits the edge budget: the cache is
    shared between roots while the budget starts afresh at each one. */
module BlankVisits {
  import opened Ordering
  import opened BlankSpec

  /** The roots serialised one after another, with the nodes of done already cached. */
  ghost predicate Accepted(g: Graph, roots: seq<Term>, done: set<Term>, limit: nat) {
    roots != [] ==>
      && !Refused(g, roots[0], done, limit)
      && Accepted(g, roots[1..], done + ReachSet(g, roots[0]), limit)
  }

  /** What serialising the roots leaves in the cache. */
  ghost function ReachAll(g: Graph, roots: seq<Term>): set<Term> {
    if roots == [] then {} else ReachSet(g, roots[0]) + ReachAll(g, roots[1..])
  }

  lemma {:induction false} ReachAllJoin(g: Graph, a: seq<Term>, b: seq<Term>)
    ensures ReachAll(g, a + b) == ReachAll(g, a) + ReachAll(g, b)
  {
    if a == [] {
      assert a + b == b;
    } else {
      ReachAllJoin(g, a[1..], b);
      assert (a + b)[1..] == a[1..] + b;
    }
  }

  lemma {:induction false} AcceptedJoin(g: Graph, a: seq<Term>, b: seq<Term>, done: set<Term>, limit: nat)
    ensures Accepted(g, a + b, done, limit) <==>
      Accepted(g, a, done, limit) && Accepted(g, b, done + ReachAll(g, a), limit)
  {
    if a == [] {
      assert a + b == b && done + ReachAll(g, a) == done;
    } else {
      var more := done + ReachSet(g, a[0]);
      AcceptedJoin(g, a[1..], b, more, limit);
      assert (a + b)[1..] == a[1..] + b;
      assert more + ReachAll(g, a[1..]) == done + ReachAll(g, a);
    }
  }

  lemma AcceptedOne(g: Graph, root: Term, done: set<Term>, limit: nat)
    ensures Accepted(g, [root], done, limit) <==> !Refused(g, root, done, limit)
    ensures ReachAll(g, [root]) == ReachSet(g, root)
  {
    assert [root][1..] == [];
  }

  // ----- the roots of a listing of triples -----

  function Roots(triples: seq<Triple>): seq<Term> {
    if triples == [] then [] else
      var last := |triples| - 1;
      Roots(triples[..last]) + if triples[last].obj.Blank? then [triples[last].obj] else []
  }

  lemma {:induction false} RootsJoin(a: seq<Triple>, b: seq<Triple>)
    ensures Roots(a + b) == Roots(a) + Roots(b)
  {
    if b == [] {
      assert a + b == a;
    } else {
      var last := |b| - 1;
      RootsJoin(a, b[..last]);
      assert (a + b)[..|a + b| - 1] == a + b[..last] && (a + b)[|a + b| - 1] == b[last];
    }
  }

  lemma {:induction false} RootsAre(triples: seq<Triple>, r: Term)
    ensures r in Roots(triples) <==> exists t :: t in triples && t.obj.Blank? && t.obj == r
  {
    if triples != [] {
      var last := |triples| - 1;
      RootsAre(triples[..last], r);
      assert triples == triples[..last] + [triples[last]];
    }
  }

  /** A listing of a set of triples, in any order. */
  ghost predicate Lists(triples: seq<Triple>, S: set<Triple>) { NoDup(triples) && forall t :: t in triples <==> t in S }

  /** The roots have been serialised one after another, and the cache holds the nodes of keys. */
  ghost predicate HasVisited(g: Graph, roots: seq<Term>, start: set<Term>, limit: nat, keys: set<Term>) {
    Accepted(g, roots, start, limit) && keys == start + ReachAll(g, roots)
  }

  lemma MoreVisits(g: Graph, roots: seq<Term>, start: set<Term>, limit: nat, keys: set<Term>, more: seq<Term>)
    requires HasVisited(g, roots, start, limit, keys)
    ensures Accepted(g, roots + more, start, limit) <==> Accepted(g, more, keys, limit)
    ensures Accepted(g, more, keys, limit) ==> HasVisited(g, roots + more, start, limit, keys + ReachAll(g, more))
  {
    AcceptedJoin(g, roots, more, start, limit);
    ReachAllJoin(g, roots, more);
  }

  /** Visiting one more triple of a listing: its object is serialised, or the whole listing is refused. */
  lemma NextRoot(g: Graph, triples: seq<Triple>, k: nat, start: set<Term>, limit: nat, keys: set<Term>)
    requires k < |triples| && HasVisited(g, Roots(triples[..k]), start, limit, keys)
    ensures var o := triples[k].obj;
            if o.Blank? && Refused(g, o, keys, limit) then !Accepted(g, Roots(triples), start, limit)
            else HasVisited(g, Roots(triples[..k + 1]), start, limit, if o.Blank? then keys + ReachSet(g, o) else keys)
  {
    var o, front := triples[k].obj, Roots(triples[..k]);
    var step := if o.Blank? then [o] else [];
    assert triples[..k + 1][..k] == triples[..k];
    assert front + [] == front;
    MoreVisits(g, front, start, limit, keys, step);
    AcceptedOne(g, o, keys, limit);
    assert triples == triples[..k + 1] + triples[k + 1..];
    RootsJoin(triples[..k + 1], triples[k + 1..]);
    AcceptedJoin(g, front + step, Roots(triples[k + 1..]), start, limit);
    assert keys + ReachAll(g, []) == keys;
  }

  // ----- the visits of a whole parse -----

  /** Subject by subject, the unknown triples of each in any order. */
  ghost predicate IsOrder(g: Graph, subjects: seq<Term>, known: set<string>, order: seq<seq<Triple>>) {
    |order| == |subjects| && forall k :: 0 <= k < |order| ==> Lists(order[k], Unknown(g, subjects[k], known))
  }

  function AllRoots(order: seq<seq<Triple>>): seq<Term> {
    if order == [] then [] else AllRoots(order[..|order| - 1]) + Roots(order[|order| - 1])
  }

  lemma {:induction false} AllRootsJoin(a: seq<seq<Triple>>, b: seq<seq<Triple>>)
    ensures AllRoots(a + b) == AllRoots(a) + AllRoots(b)
  {
    if b == [] {
      assert a + b == a;
    } else {
      var last := |b| - 1;
      AllRootsJoin(a, b[..last]);
      assert (a + b)[..|a + b| - 1] == a + b[..last] && (a + b)[|a + b| - 1] == b[last];
      assert AllRoots(a) + (AllRoots(b[..last]) + Roots(b[last])) == AllRoots(a) + AllRoots(b[..last]) + Roots(b[last]);
    }
  }

  lemma OneMoreOrder(g: Graph, subjects: seq<Term>, known: set<string>, order: seq<seq<Triple>>, subject: Term,
                     triples: seq<Triple>, start: set<Term>, limit: nat, keys: set<Term>)
    requires IsOrder(g, subjects, known, order) && Lists(triples, Unknown(g, subject, known))
    requires HasVisited(g, AllRoots(order), start, limit, keys)
    ensures IsOrder(g, subjects + [subject], known, order + [triples])
    ensures if Accepted(g, Roots(triples), keys, limit)
            then HasVisited(g, AllRoots(order + [triples]), start, limit, keys + ReachAll(g, Roots(triples)))
            else !Accepted(g, AllRoots(order + [triples]), start, limit)
  {
    assert (order + [triples])[..|order|] == order;
    MoreVisits(g, AllRoots(order), start, limit, keys, Roots(triples));
  }

  /** Any order of the subjects left over. */
  ghost function SomeOrder(g: Graph, subjects: seq<Term>, known: set<string>): (order: seq<seq<Triple>>)
    ensures IsOrder(g, subjects, known, order)
  {
    if subjects == [] then [] else
      var last := |subjects| - 1;
      SomeOrder(g, subjects[..last], known) + [Listing(Unknown(g, subjects[last], known))]
  }

  /** However the rest of a refused parse would have gone, it stays refused. */
  lemma RefusedAnyway(g: Graph, subjects: seq<Term>, known: set<string>, order: seq<seq<Triple>>, start: set<Term>,
                      limit: nat) returns (whole: seq<seq<Triple>>)
    requires |order| <= |subjects| && IsOrder(g, subjects[..|order|], known, order)
    requires !Accepted(g, AllRoots(order), start, limit)
    ensures IsOrder(g, subjects, known, whole) && !Accepted(g, AllRoots(whole), start, limit)
  {
    var rest := SomeOrder(g, subjects[|order|..], known);
    whole := order + rest;
    AllRootsJoin(order, rest);
    AcceptedJoin(g, AllRoots(order), AllRoots(rest), start, limit);
  }
}

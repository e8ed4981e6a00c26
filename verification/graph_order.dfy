/** The order of the results: nodes in the order of discovery, each from the first node that leads to it, over the
    least edge that does. */
module GraphOrder {
  import opened Ordering
  import opened GraphSpec
  import opened GraphTheorems

  /** Of two results from one node: by relationship type, direction tag and target. */
  ghost predicate SiblingBelow(a: Entry, b: Entry) { TupleBelow([a.kind, a.tag, a.id], [b.kind, b.tag, b.id]) }

  /** The edge reported comes no later than c by type and tag. */
  ghost predicate EdgeAtMost(x: Entry, c: Candidate) {
    (x.kind == c.edge.kind && x.tag == c.tag) || TupleBelow([x.kind, x.tag], [c.edge.kind, c.tag])
  }

  // ----- one scan -----

  ghost predicate Ascending(cands: seq<Candidate>) {
    forall i, j :: 0 <= i < j < |cands| ==> CandidateLess(cands[i], cands[j])
  }

  lemma CandidatesAscend(g: Graph, x: string)
    ensures Ascending(Candidates(g, x))
  {
    CandidateOrder();
  }

  ghost predicate Taken(g: Graph, x: Entry, cands: seq<Candidate>, from: Entry, c: Candidate) {
    c in cands && c.edge.kind in g.allowed && x == Discovery(c, from)
  }

  /** Two new entries come from two candidates in that order. */
  ghost predicate InTurn(g: Graph, x: Entry, y: Entry, cands: seq<Candidate>, from: Entry) {
    exists c, d :: Taken(g, x, cands, from, c) && Taken(g, y, cands, from, d) && CandidateLess(c, d)
  }

  /** A new entry comes from the least allowed candidate with its neighbor. */
  ghost predicate ByLeast(g: Graph, x: Entry, cands: seq<Candidate>, from: Entry) {
    exists c :: Taken(g, x, cands, from, c)
      && forall d :: d in cands && d.edge.kind in g.allowed && d.neighbor == c.neighbor ==>
           d == c || CandidateLess(c, d)
  }

  lemma TakenLater(g: Graph, x: Entry, cands: seq<Candidate>, from: Entry, c: Candidate)
    requires cands != [] && Taken(g, x, cands[1..], from, c)
    ensures Taken(g, x, cands, from, c)
  {
    assert cands == [cands[0]] + cands[1..];
  }

  lemma {:induction false} NewByLeast(g: Graph, L: seq<Entry>, cands: seq<Candidate>, from: Entry, k: nat)
    requires Proper(g, TakeAll(g, L, cands, from)) && Ascending(cands) && |L| <= k < |TakeAll(g, L, cands, from)|
    ensures L <= TakeAll(g, L, cands, from) && ByLeast(g, TakeAll(g, L, cands, from)[k], cands, from)
    decreases |cands|
  {
    if cands != [] {
      var M, L1, first := TakeAll(g, L, cands, from), TakeOne(g, L, cands[0], from), cands[0];
      assert cands == [first] + cands[1..];
      TakeAllAdds(g, L1, cands[1..], from);
      if k < |L1| {
        assert M[k] == L1[k] && Taken(g, M[k], cands, from, first);
      } else {
        NewByLeast(g, L1, cands[1..], from, k);
        var c :| Taken(g, M[k], cands[1..], from, c)
          && forall d :: d in cands[1..] && d.edge.kind in g.allowed && d.neighbor == c.neighbor ==>
               d == c || CandidateLess(c, d);
        TakenLater(g, M[k], cands, from, c);
        if first.edge.kind in g.allowed { SeenByNow(g, L, cands, from, k); }
      }
    }
  }

  /** What the first candidate leads to is not discovered again. */
  lemma SeenByNow(g: Graph, L: seq<Entry>, cands: seq<Candidate>, from: Entry, k: nat)
    requires cands != [] && cands[0].edge.kind in g.allowed && Proper(g, TakeAll(g, L, cands, from))
    requires |TakeOne(g, L, cands[0], from)| <= k < |TakeAll(g, L, cands, from)|
    ensures TakeAll(g, L, cands, from)[k].id != cands[0].neighbor
  {
    var M, L1 := TakeAll(g, L, cands, from), TakeOne(g, L, cands[0], from);
    TakeAllAdds(g, L1, cands[1..], from);
    assert Seen(L1, cands[0].neighbor) by {
      if !Seen(L, cands[0].neighbor) { assert L1[|L|].id == cands[0].neighbor; }
    }
    var j :| 0 <= j < |L1| && L1[j].id == cands[0].neighbor;
    assert M[j] == L1[j];
  }

  lemma {:induction false} NewInTurn(g: Graph, L: seq<Entry>, cands: seq<Candidate>, from: Entry, k: nat, m: nat)
    requires Ascending(cands) && |L| <= k < m < |TakeAll(g, L, cands, from)|
    ensures InTurn(g, TakeAll(g, L, cands, from)[k], TakeAll(g, L, cands, from)[m], cands, from)
    decreases |cands|
  {
    if cands != [] {
      var M, L1, first := TakeAll(g, L, cands, from), TakeOne(g, L, cands[0], from), cands[0];
      assert cands == [first] + cands[1..];
      TakeAllAdds(g, L1, cands[1..], from);
      if k < |L1| {
        assert M[k] == L1[k] && Taken(g, M[k], cands, from, first);
        assert FromOneOf(g, M[m], cands[1..], from);
        var d :| d in cands[1..] && d.edge.kind in g.allowed && M[m] == Discovery(d, from);
        assert Taken(g, M[m], cands, from, d);
      } else {
        NewInTurn(g, L1, cands[1..], from, k, m);
        var c, d :| Taken(g, M[k], cands[1..], from, c) && Taken(g, M[m], cands[1..], from, d) && CandidateLess(c, d);
        TakenLater(g, M[k], cands, from, c);
        TakenLater(g, M[m], cands, from, d);
      }
    }
  }

  // ----- keys -----

  lemma SharedPart(a: seq<string>, b: seq<string>, i: nat)
    requires i <= |a| && i <= |b| && a[..i] == b[..i]
    ensures forall n :: 0 <= n < i ==> a[n] == b[n]
  {
    forall n | 0 <= n < i ensures a[n] == b[n] { assert a[..i][n] == b[..i][n]; }
  }

  lemma SiblingOrder(c: Candidate, d: Candidate, from: Entry)
    requires CandidateLess(c, d) && c.neighbor != d.neighbor
    ensures SiblingBelow(Discovery(c, from), Discovery(d, from))
  {
    TupleLessMeans(Key(c), Key(d));
    var i: nat :| i <= 5 && i < 5 && Key(c)[..i] == Key(d)[..i] && (i == 5 || StrBelow(Key(c)[i], Key(d)[i]));
    var a, b := [c.edge.kind, c.tag, c.neighbor], [d.edge.kind, d.tag, d.neighbor];
    SharedPart(Key(c), Key(d), i);
    assert Key(c)[2] == c.neighbor && Key(d)[2] == d.neighbor;
    assert i <= 2;
    assert a == Key(c)[..3] && b == Key(d)[..3];
    assert a[..i] == Key(c)[..i] && b[..i] == Key(d)[..i] && a[i] == Key(c)[i] && b[i] == Key(d)[i];
  }

  lemma EdgeOrder(c: Candidate, d: Candidate, from: Entry)
    requires CandidateLess(c, d)
    ensures EdgeAtMost(Discovery(c, from), d)
  {
    TupleLessMeans(Key(c), Key(d));
    var i: nat :| i < 5 && Key(c)[..i] == Key(d)[..i] && (i == 5 || StrBelow(Key(c)[i], Key(d)[i]));
    var a, b := [c.edge.kind, c.tag], [d.edge.kind, d.tag];
    assert a == Key(c)[..2] && b == Key(d)[..2];
    SharedPart(Key(c), Key(d), i);
    assert Key(c)[0] == a[0] && Key(c)[1] == a[1] && Key(d)[0] == b[0] && Key(d)[1] == b[1];
    if i < 2 {
      assert a[..i] == Key(c)[..i] && b[..i] == Key(d)[..i] && a[i] == Key(c)[i] && b[i] == Key(d)[i];
    }
  }

  // ----- the whole exploration -----

  /** Entry k was discovered from the entry at position j. */
  predicate From(L: seq<Entry>, j: int, k: int) { 0 <= j < |L| && 0 <= k < |L| && L[k].via == L[j].id }

  ghost predicate InOrder(s: nat, L: seq<Entry>) {
    forall j, k, l, m {:trigger From(L, j, k), From(L, l, m)} :: s <= k < m < |L| && From(L, j, k) && From(L, l, m) ==>
      j < l || (j == l && SiblingBelow(L[k], L[m]))
  }

  ghost predicate Earliest(g: Graph, s: nat, L: seq<Entry>) {
    forall h, j, k {:trigger From(L, j, k), Adjacent(g, L[h].id, L[k].id)} ::
      s <= k < |L| && From(L, j, k) && 0 <= h < j ==> !Adjacent(g, L[h].id, L[k].id)
  }

  ghost predicate LeastEdge(g: Graph, x: Entry) {
    forall c {:trigger Arc(g, x.via, c)} :: Arc(g, x.via, c) && c.neighbor == x.id ==> EdgeAtMost(x, c)
  }

  ghost predicate LeastEdges(g: Graph, s: nat, L: seq<Entry>) {
    forall k {:trigger LeastEdge(g, L[k])} :: s <= k < |L| ==> LeastEdge(g, L[k])
  }

  ghost predicate Behind(s: nat, L: seq<Entry>, i: nat) {
    forall j, k {:trigger From(L, j, k)} :: s <= k < |L| && From(L, j, k) ==> j < i
  }

  ghost predicate OrderKept(g: Graph, s: nat, L: seq<Entry>, i: nat) {
    InOrder(s, L) && Earliest(g, s, L) && LeastEdges(g, s, L) && Behind(s, L, i)
  }

  /** The new entries of one scan all come from entry i. */
  lemma NewFrom(g: Graph, L: seq<Entry>, M: seq<Entry>, i: nat, j: nat, k: nat)
    requires i < |L| && Added(g, L, M, Candidates(g, L[i].id), L[i]) && Proper(g, M)
    requires |L| <= k < |M| && From(M, j, k)
    ensures j == i
  {
    assert FromOneOf(g, M[k], Candidates(g, L[i].id), L[i]);
    assert M[i] == L[i];
  }

  /** The old ones come from old ones. */
  lemma OldFrom(g: Graph, s: nat, L: seq<Entry>, M: seq<Entry>, j: nat, k: nat, depth: int)
    requires Rooted(g, s, L, depth) && L <= M && Proper(g, M) && s <= k < |L| && From(M, j, k)
    ensures From(L, j, k)
  {
    assert HasParent(g, L, k);
    var p :| 0 <= p < k && FoundFrom(g, L[k], L[p]);
    assert M[p] == L[p] && M[k] == L[k];
  }

  lemma GrowInOrder(g: Graph, s: nat, L: seq<Entry>, i: nat, depth: int, M: seq<Entry>)
    requires Rooted(g, s, L, depth) && InOrder(s, L) && Behind(s, L, i) && i < |L|
    requires M == TakeAll(g, L, Candidates(g, L[i].id), L[i]) && Proper(g, M)
    requires Added(g, L, M, Candidates(g, L[i].id), L[i])
    ensures InOrder(s, M) && Behind(s, M, i + 1)
  {
    CandidatesAscend(g, L[i].id);
    forall j, k, l, m | s <= k < m < |M| && From(M, j, k) && From(M, l, m)
      ensures j < l || (j == l && SiblingBelow(M[k], M[m]))
    {
      if m < |L| {
        OldFrom(g, s, L, M, j, k, depth);
        OldFrom(g, s, L, M, l, m, depth);
        assert M[k] == L[k] && M[m] == L[m];
      } else {
        NewFrom(g, L, M, i, l, m);
        if k < |L| {
          OldFrom(g, s, L, M, j, k, depth);
        } else {
          NewFrom(g, L, M, i, j, k);
          NewInTurn(g, L, Candidates(g, L[i].id), L[i], k, m);
          var c, d :| Taken(g, M[k], Candidates(g, L[i].id), L[i], c) && Taken(g, M[m], Candidates(g, L[i].id), L[i], d)
                      && CandidateLess(c, d);
          assert M[k].id != M[m].id;
          SiblingOrder(c, d, L[i]);
        }
      }
    }
    forall j, k | s <= k < |M| && From(M, j, k) ensures j < i + 1 {
      if k < |L| { OldFrom(g, s, L, M, j, k, depth); } else { NewFrom(g, L, M, i, j, k); }
    }
  }

  lemma MetIsOld(g: Graph, L: seq<Entry>, M: seq<Entry>, x: string, d: int, k: nat)
    requires L <= M && Proper(g, M) && Met(L, x, d) && |L| <= k < |M|
    ensures M[k].id != x
  {
    var p :| 0 <= p < |L| && L[p].id == x && L[p].depth <= d;
    assert M[p] == L[p];
  }

  lemma GrowEarliest(g: Graph, s: nat, L: seq<Entry>, i: nat, depth: int, M: seq<Entry>)
    requires Grown(g, s, L, i, depth) && Earliest(g, s, L) && i < |L| && L[i].depth < depth
    requires Proper(g, M) && Added(g, L, M, Candidates(g, L[i].id), L[i])
    ensures Earliest(g, s, M)
  {
    forall h, j, k | s <= k < |M| && From(M, j, k) && 0 <= h < j ensures !Adjacent(g, M[h].id, M[k].id) {
      if k < |L| {
        OldFrom(g, s, L, M, j, k, depth);
        assert M[h] == L[h] && M[k] == L[k] && !Adjacent(g, L[h].id, L[k].id);
      } else {
        NewFrom(g, L, M, i, j, k);
        assert Covered(g, L, h);
        forall c | Arc(g, L[h].id, c) ensures c.neighbor != M[k].id {
          MetIsOld(g, L, M, c.neighbor, L[h].depth + 1, k);
        }
        assert M[h] == L[h];
      }
    }
  }

  lemma GrowLeast(g: Graph, s: nat, L: seq<Entry>, i: nat, M: seq<Entry>)
    requires LeastEdges(g, s, L) && i < |L|
    requires M == TakeAll(g, L, Candidates(g, L[i].id), L[i]) && Proper(g, M) && L <= M
    ensures LeastEdges(g, s, M)
  {
    var cands := Candidates(g, L[i].id);
    CandidatesAscend(g, L[i].id);
    forall k | s <= k < |M| ensures LeastEdge(g, M[k]) {
      if k < |L| {
        assert LeastEdge(g, L[k]) && M[k] == L[k];
      } else {
        NewByLeast(g, L, cands, L[i], k);
        var c :| Taken(g, M[k], cands, L[i], c)
          && forall d :: d in cands && d.edge.kind in g.allowed && d.neighbor == c.neighbor ==>
               d == c || CandidateLess(c, d);
        forall d | Arc(g, M[k].via, d) && d.neighbor == M[k].id ensures EdgeAtMost(M[k], d) {
          assert d in cands;
          if d != c { EdgeOrder(c, d, L[i]); }
        }
      }
    }
  }

  lemma GrowArranged(g: Graph, s: nat, L: seq<Entry>, i: nat, depth: int)
    requires Closed(g) && Grown(g, s, L, i, depth) && OrderKept(g, s, L, i) && i < |L|
    ensures OrderKept(g, s, Grow(g, L, i, depth), i + 1)
  {
    if L[i].depth < depth {
      var cands := Candidates(g, L[i].id);
      var M := TakeAll(g, L, cands, L[i]);
      CandidatesKnown(g, L[i].id);
      TakeAllProper(g, L, cands, L[i]);
      TakeAllAdds(g, L, cands, L[i]);
      GrowInOrder(g, s, L, i, depth, M);
      GrowEarliest(g, s, L, i, depth, M);
      GrowLeast(g, s, L, i, M);
    }
  }

  lemma {:induction false} ExploreArranged(g: Graph, s: nat, L: seq<Entry>, i: nat, depth: int)
    requires Closed(g) && Grown(g, s, L, i, depth) && OrderKept(g, s, L, i)
    ensures var R := Explore(g, L, i, depth); InOrder(s, R) && Earliest(g, s, R) && LeastEdges(g, s, R)
    decreases |g.nodes| - i
  {
    ProperIsBounded(g.nodes, L);
    if i < |L| {
      GrowKeeps(g, s, L, i, depth);
      GrowArranged(g, s, L, i, depth);
      ExploreStep(g, L, i, depth);
      ExploreArranged(g, s, Grow(g, L, i, depth), i + 1, depth);
    }
  }

  lemma EverythingArranged(g: Graph, seeds: seq<string>, depth: int)
    requires Closed(g) && ValidSeeds(g, seeds)
    ensures var s, R := |seeds|, Everything(g, seeds, depth); InOrder(s, R) && Earliest(g, s, R) && LeastEdges(g, s, R)
  {
    ExploreArranged(g, |seeds|, SeedEntries(seeds), 0, depth);
  }
}

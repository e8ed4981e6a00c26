/** The breadth-first expansion against walks in the graph: true distances, completeness,
    stability in limit and depth, and the symmetry of the two directions. */
module GraphTheorems {
  import opened Ordering
  import opened GraphSpec

  /** One processed entry, as Explore does it. */
  ghost function Grow(g: Graph, L: seq<Entry>, i: nat, depth: int): seq<Entry>
    requires i < |L|
  {
    if L[i].depth >= depth then L else TakeAll(g, L, Candidates(g, L[i].id), L[i])
  }

  lemma GrowCovers(g: Graph, L: seq<Entry>, i: nat, M: seq<Entry>)
    requires Layered(L, i) && i < |L| && Added(g, L, M, Candidates(g, L[i].id), L[i])
    ensures Covered(g, M, i)
  {
    forall c | Arc(g, M[i].id, c) ensures Met(M, c.neighbor, M[i].depth + 1) {
      assert c in Candidates(g, L[i].id);
      var k :| 0 <= k < |M| && M[k].id == c.neighbor;
      if k < |L| {
        assert M[k] == L[k] && L[k].depth <= L[|L| - 1].depth;
      }
    }
  }

  lemma CoveredExtends(g: Graph, L: seq<Entry>, M: seq<Entry>, j: nat)
    requires L <= M && Covered(g, L, j)
    ensures Covered(g, M, j)
  {
    forall c | Arc(g, M[j].id, c) ensures Met(M, c.neighbor, M[j].depth + 1) {
      assert Arc(g, L[j].id, c);
      var k :| 0 <= k < |L| && L[k].id == c.neighbor && L[k].depth <= L[j].depth + 1;
      assert M[k] == L[k];
    }
  }

  lemma ParentExtends(g: Graph, L: seq<Entry>, M: seq<Entry>, k: nat)
    requires L <= M && HasParent(g, L, k)
    ensures HasParent(g, M, k)
  {
    var j :| 0 <= j < k && FoundFrom(g, L[k], L[j]);
    assert FoundFrom(g, M[k], M[j]);
  }

  lemma NewHasParent(g: Graph, L: seq<Entry>, i: nat, M: seq<Entry>, k: nat)
    requires i < |L| && Added(g, L, M, Candidates(g, L[i].id), L[i]) && |L| <= k < |M|
    ensures HasParent(g, M, k)
  {
    assert FromOneOf(g, M[k], Candidates(g, L[i].id), L[i]);
    var c :| c in Candidates(g, L[i].id) && c.edge.kind in g.allowed && M[k] == Discovery(c, L[i]);
    assert Arc(g, L[i].id, c);
    assert FoundFrom(g, M[k], M[i]);
  }

  lemma GrowRooted(g: Graph, s: nat, L: seq<Entry>, i: nat, depth: int, M: seq<Entry>)
    requires Rooted(g, s, L, depth) && i < |L| && L[i].depth < depth && Added(g, L, M, Candidates(g, L[i].id), L[i])
    ensures Rooted(g, s, M, depth)
  {
    forall k | s <= k < |M| ensures HasParent(g, M, k) {
      if k < |L| {
        ParentExtends(g, L, M, k);
      } else {
        NewHasParent(g, L, i, M, k);
      }
    }
    forall k | |L| <= k < |M| ensures M[k].depth <= depth {
      assert FromOneOf(g, M[k], Candidates(g, L[i].id), L[i]);
    }
  }

  lemma NewDepths(g: Graph, L: seq<Entry>, M: seq<Entry>, cands: seq<Candidate>, from: Entry)
    requires Added(g, L, M, cands, from)
    ensures forall k :: |L| <= k < |M| ==> M[k].depth == from.depth + 1
  {
    forall k | |L| <= k < |M| ensures M[k].depth == from.depth + 1 {
      assert FromOneOf(g, M[k], cands, from);
    }
  }

  lemma GrowLayered(L: seq<Entry>, i: nat, M: seq<Entry>)
    requires Layered(L, i) && i < |L| && L <= M
    requires forall k :: |L| <= k < |M| ==> M[k].depth == L[i].depth + 1
    ensures Layered(M, i + 1)
  {
    forall j, k | 0 <= j < k < |M| ensures M[j].depth <= M[k].depth {
      if j < |L| { assert L[j].depth <= L[|L| - 1].depth; }
    }
  }

  lemma GrowProcessed(g: Graph, L: seq<Entry>, i: nat, M: seq<Entry>, depth: int)
    requires Layered(L, i) && Processed(g, L, i, depth) && i < |L| && Added(g, L, M, Candidates(g, L[i].id), L[i])
    ensures Processed(g, M, i + 1, depth)
  {
    GrowCovers(g, L, i, M);
    forall j | 0 <= j < i && M[j].depth < depth ensures Covered(g, M, j) {
      CoveredExtends(g, L, M, j);
    }
  }

  lemma GrowKeeps(g: Graph, s: nat, L: seq<Entry>, i: nat, depth: int)
    requires Closed(g) && Grown(g, s, L, i, depth) && i < |L|
    ensures Grown(g, s, Grow(g, L, i, depth), i + 1, depth)
  {
    if L[i].depth < depth {
      var cands := Candidates(g, L[i].id);
      var M := TakeAll(g, L, cands, L[i]);
      CandidatesKnown(g, L[i].id);
      TakeAllProper(g, L, cands, L[i]);
      TakeAllAdds(g, L, cands, L[i]);
      GrowRooted(g, s, L, i, depth, M);
      NewDepths(g, L, M, cands, L[i]);
      GrowLayered(L, i, M);
      GrowProcessed(g, L, i, M, depth);
    }
  }

  lemma ExploreStep(g: Graph, L: seq<Entry>, i: nat, depth: int)
    requires Closed(g) && Proper(g, L) && i < |L|
    ensures Proper(g, Grow(g, L, i, depth)) && L <= Grow(g, L, i, depth)
    ensures Explore(g, L, i, depth) == Explore(g, Grow(g, L, i, depth), i + 1, depth)
  {
    CandidatesKnown(g, L[i].id);
    TakeAllProper(g, L, Candidates(g, L[i].id), L[i]);
  }

  lemma {:induction false} ExploreGrown(g: Graph, s: nat, L: seq<Entry>, i: nat, depth: int)
    requires Closed(g) && Grown(g, s, L, i, depth)
    ensures var R := Explore(g, L, i, depth); Grown(g, s, R, |R|, depth)
    decreases |g.nodes| - i
  {
    ProperIsBounded(g.nodes, L);
    if i < |L| {
      GrowKeeps(g, s, L, i, depth);
      ExploreStep(g, L, i, depth);
      ExploreGrown(g, s, Grow(g, L, i, depth), i + 1, depth);
    }
  }

  lemma EverythingGrown(g: Graph, seeds: seq<string>, depth: int)
    requires Closed(g) && ValidSeeds(g, seeds)
    ensures var R := Everything(g, seeds, depth); Grown(g, |seeds|, R, |R|, depth)
  {
    ExploreGrown(g, |seeds|, SeedEntries(seeds), 0, depth);
  }

  // ----- distances -----

  lemma {:induction false} EntryHasWalk(g: Graph, seeds: seq<string>, R: seq<Entry>, depth: int, k: nat)
    requires Rooted(g, |seeds|, R, depth) && SeedEntries(seeds) <= R && k < |R|
    ensures Walk(g, seeds, R[k].id, R[k].depth)
  {
    if k < |seeds| {
      assert R[k] == SeedEntries(seeds)[k];
    } else {
      assert HasParent(g, R, k);
      var j :| 0 <= j < k && FoundFrom(g, R[k], R[j]);
      EntryHasWalk(g, seeds, R, depth, j);
      assert Adjacent(g, R[j].id, R[k].id);
    }
  }

  lemma {:induction false} WalkIsCovered(g: Graph, seeds: seq<string>, R: seq<Entry>, depth: int, y: string, n: nat)
    requires Grown(g, |seeds|, R, |R|, depth) && SeedEntries(seeds) <= R
    requires Walk(g, seeds, y, n) && n <= depth
    ensures Met(R, y, n)
    decreases n
  {
    if n == 0 {
      var k :| 0 <= k < |seeds| && seeds[k] == y;
      assert R[k] == SeedEntries(seeds)[k];
    } else {
      var x :| Walk(g, seeds, x, n - 1) && Adjacent(g, x, y);
      WalkIsCovered(g, seeds, R, depth, x, n - 1);
      var j :| 0 <= j < |R| && R[j].id == x && R[j].depth <= n - 1;
      var c :| Arc(g, x, c) && c.neighbor == y;
      assert Covered(g, R, j);
    }
  }

  lemma TrueDistance(g: Graph, seeds: seq<string>, R: seq<Entry>, depth: int, k: nat)
    requires Grown(g, |seeds|, R, |R|, depth) && SeedEntries(seeds) <= R && k < |R|
    requires depth >= 0
    ensures Distance(g, seeds, R[k].id, R[k].depth)
  {
    EntryHasWalk(g, seeds, R, depth, k);
    forall m: nat | m < R[k].depth ensures !Walk(g, seeds, R[k].id, m) {
      if Walk(g, seeds, R[k].id, m) {
        WalkIsCovered(g, seeds, R, depth, R[k].id, m);
      }
    }
  }

  /** Result k names a seed, or an earlier result exactly one level up. */
  ghost predicate LinkedBack(seeds: seq<string>, E: seq<Entry>, k: nat)
    requires k < |E|
  {
    if E[k].depth == 1 then E[k].via in seeds
    else exists j :: 0 <= j < k && E[j].id == E[k].via && E[j].depth + 1 == E[k].depth
  }

  /** A result was reached over the allowed edge it reports. */
  ghost predicate OverArc(g: Graph, x: Entry) {
    exists c :: Arc(g, x.via, c) && c.neighbor == x.id && c.edge.kind == x.kind && c.tag == x.tag
  }

  ghost predicate GoodResult(g: Graph, seeds: seq<string>, E: seq<Entry>, k: nat, depth: int) {
    k < |E| && E[k].id !in seeds && 1 <= E[k].depth <= depth && LinkedBack(seeds, E, k) && OverArc(g, E[k])
  }

  /** Results are distinct, are not seeds, come in order of depth, and each one names an allowed edge
      from a seed or an earlier result exactly one level up. */
  ghost predicate WellFormed(g: Graph, seeds: seq<string>, E: seq<Entry>, depth: int) {
    && (forall i, j :: 0 <= i < j < |E| ==> E[i].id != E[j].id && E[i].depth <= E[j].depth)
    && forall k :: 0 <= k < |E| ==> GoodResult(g, seeds, E, k, depth)
  }

  lemma TailGood(g: Graph, seeds: seq<string>, R: seq<Entry>, depth: int, k: nat)
    requires Rooted(g, |seeds|, R, depth) && SeedEntries(seeds) <= R && |seeds| + k < |R|
    requires forall i :: 0 <= i < |seeds| ==> R[i].id != R[|seeds| + k].id
    ensures GoodResult(g, seeds, R[|seeds|..], k, depth)
  {
    var s, E := |seeds|, R[|seeds|..];
    SeedIds(seeds, R);
    assert HasParent(g, R, s + k);
    var j :| 0 <= j < s + k && FoundFrom(g, R[s + k], R[j]);
    if j < s {
      assert E[k].via == seeds[j];
    } else {
      assert E[j - s] == R[j];
      assert HasParent(g, R, j);
    }
  }

  lemma TailWellFormed(g: Graph, seeds: seq<string>, R: seq<Entry>, depth: int)
    requires Grown(g, |seeds|, R, |R|, depth) && SeedEntries(seeds) <= R
    ensures WellFormed(g, seeds, R[|seeds|..], depth)
  {
    var E := R[|seeds|..];
    forall k | 0 <= k < |E| ensures GoodResult(g, seeds, E, k, depth) { TailGood(g, seeds, R, depth, k); }
  }

  lemma PrefixGood(g: Graph, seeds: seq<string>, T: seq<Entry>, depth: int, n: nat, k: nat)
    requires GoodResult(g, seeds, T, k, depth) && k < n <= |T|
    ensures GoodResult(g, seeds, T[..n], k, depth)
  {
    var E := T[..n];
    assert E[k] == T[k];
    if T[k].depth != 1 {
      var j :| 0 <= j < k && T[j].id == T[k].via && T[j].depth + 1 == T[k].depth;
      assert E[j] == T[j];
    }
  }

  lemma PrefixWellFormed(g: Graph, seeds: seq<string>, T: seq<Entry>, depth: int, n: nat)
    requires WellFormed(g, seeds, T, depth) && n <= |T|
    ensures WellFormed(g, seeds, T[..n], depth)
  {
    forall k | 0 <= k < n ensures GoodResult(g, seeds, T[..n], k, depth) { PrefixGood(g, seeds, T, depth, n, k); }
  }

  /** Every node within depth steps of a seed. */
  ghost predicate Complete(g: Graph, seeds: seq<string>, E: seq<Entry>, depth: nat) {
    forall y, n: nat :: Walk(g, seeds, y, n) && n <= depth && y !in seeds ==> Seen(E, y)
  }

  lemma TailComplete(g: Graph, seeds: seq<string>, R: seq<Entry>, depth: nat)
    requires Grown(g, |seeds|, R, |R|, depth) && SeedEntries(seeds) <= R
    ensures Complete(g, seeds, R[|seeds|..], depth)
  {
    var E := R[|seeds|..];
    forall y, n: nat | Walk(g, seeds, y, n) && n <= depth && y !in seeds ensures Seen(E, y) {
      WalkIsCovered(g, seeds, R, depth, y, n);
      var k :| 0 <= k < |R| && R[k].id == y && R[k].depth <= n;
      SeedIds(seeds, R);
      assert k >= |seeds| && E[k - |seeds|] == R[k];
    }
  }

  lemma SeedIds(seeds: seq<string>, R: seq<Entry>)
    requires SeedEntries(seeds) <= R
    ensures forall i :: 0 <= i < |seeds| ==> R[i].id == seeds[i]
  {
    forall i | 0 <= i < |seeds| ensures R[i].id == seeds[i] {
      assert R[i] == SeedEntries(seeds)[i];
    }
  }

  ghost predicate AllAtDistance(g: Graph, seeds: seq<string>, E: seq<Entry>) {
    forall k {:trigger E[k]} :: 0 <= k < |E| ==> Distance(g, seeds, E[k].id, E[k].depth)
  }

  lemma TailDistances(g: Graph, seeds: seq<string>, R: seq<Entry>, depth: nat)
    requires Grown(g, |seeds|, R, |R|, depth) && SeedEntries(seeds) <= R
    ensures AllAtDistance(g, seeds, R[|seeds|..])
  {
    var T := R[|seeds|..];
    forall k | 0 <= k < |T| ensures Distance(g, seeds, T[k].id, T[k].depth) {
      TrueDistance(g, seeds, R, depth, |seeds| + k);
      assert T[k] == R[|seeds| + k];
    }
  }

  /** The results E keep the whole contract of graph_expand. */
  ghost predicate Correct(g: Graph, seeds: seq<string>, E: seq<Entry>, depth: nat, limit: nat) {
    && |E| <= limit
    && WellFormed(g, seeds, E, depth)
    && AllAtDistance(g, seeds, E)
    && (|E| < limit ==> Complete(g, seeds, E, depth))
  }

  lemma CutIsCorrect(g: Graph, seeds: seq<string>, T: seq<Entry>, depth: nat, limit: nat)
    requires WellFormed(g, seeds, T, depth) && AllAtDistance(g, seeds, T) && Complete(g, seeds, T, depth)
    ensures Correct(g, seeds, Cut(T, limit), depth, limit)
  {
    var E := Cut(T, limit);
    if |T| > limit {
      PrefixWellFormed(g, seeds, T, depth, limit);
      forall k | 0 <= k < |E| ensures Distance(g, seeds, E[k].id, E[k].depth) {
        assert E[k] == T[k];
      }
    }
  }

  /** The main theorem on graph_expand, for any depth and limit. */
  lemma ExpansionIsShortestPaths(g: Graph, seeds: seq<string>, depth: nat, limit: nat)
    requires Closed(g) && ValidSeeds(g, seeds)
    ensures Correct(g, seeds, Expansion(g, seeds, depth, limit), depth, limit)
  {
    var R := Everything(g, seeds, depth);
    EverythingGrown(g, seeds, depth);
    TailWellFormed(g, seeds, R, depth);
    TailComplete(g, seeds, R, depth);
    TailDistances(g, seeds, R, depth);
    CutIsCorrect(g, seeds, R[|seeds|..], depth, limit);
  }

  // ----- stability in limit and depth -----

  lemma LimitPrefix(g: Graph, seeds: seq<string>, depth: int, limit: nat, larger: nat)
    requires Closed(g) && ValidSeeds(g, seeds) && limit <= larger
    ensures Expansion(g, seeds, depth, limit) == Cut(Expansion(g, seeds, depth, larger), limit)
  {
  }

  lemma {:induction false} NoMoreGrowth(g: Graph, L: seq<Entry>, i: nat, depth: int)
    requires Closed(g) && Proper(g, L) && i <= |L|
    requires forall k :: i <= k < |L| ==> L[k].depth >= depth
    ensures Explore(g, L, i, depth) == L
    decreases |L| - i
  {
    if i < |L| { NoMoreGrowth(g, L, i + 1, depth); }
  }

  lemma LastLevel(g: Graph, s: nat, L: seq<Entry>, i: nat, depth: int)
    requires Closed(g) && Grown(g, s, L, i, depth) && i < |L| && L[i].depth >= depth
    ensures Explore(g, L, i, depth) == L
  {
    NoMoreGrowth(g, L, i, depth);
  }

  lemma {:induction false} ExplorePrefix(g: Graph, s: nat, L: seq<Entry>, i: nat, depth: int, deeper: int)
    requires Closed(g) && Grown(g, s, L, i, depth) && depth <= deeper
    ensures Explore(g, L, i, depth) <= Explore(g, L, i, deeper)
    decreases |g.nodes| - i
  {
    ProperIsBounded(g.nodes, L);
    if i < |L| {
      if L[i].depth >= depth {
        LastLevel(g, s, L, i, depth);
      } else {
        GrowKeeps(g, s, L, i, depth);
        ExploreStep(g, L, i, depth);
        ExploreStep(g, L, i, deeper);
        ExplorePrefix(g, s, Grow(g, L, i, depth), i + 1, depth, deeper);
      }
    }
  }

  /** Asking for one more level only appends results. */
  lemma DepthPrefix(g: Graph, seeds: seq<string>, depth: int, deeper: int, limit: nat)
    requires Closed(g) && ValidSeeds(g, seeds) && depth <= deeper
    ensures Expansion(g, seeds, depth, limit) <= Expansion(g, seeds, deeper, limit)
  {
    if depth >= 0 {
      ExplorePrefix(g, |seeds|, SeedEntries(seeds), 0, depth, deeper);
      var a, b := Everything(g, seeds, depth), Everything(g, seeds, deeper);
      assert a[|seeds|..] <= b[|seeds|..];
    } else {
      NoMoreGrowth(g, SeedEntries(seeds), 0, depth);
    }
  }
}

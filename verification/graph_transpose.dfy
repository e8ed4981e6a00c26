/** Following edges backwards is following the transposed edges forwards, up to the direction tag. */
module GraphTranspose {
  import opened Ordering
  import opened GraphSpec
  import opened GraphTheorems

  function FlipEdge(e: Edge): Edge { Edge(e.target, e.kind, e.source) }

  /** The transposed graph, read forwards. */
  ghost function Transposed(g: Graph): Graph {
    Graph(g.nodes, set e | e in g.edges :: FlipEdge(e), Outgoing, g.allowed)
  }

  /** A forward candidate of the transposed graph as a backward candidate of the graph. */
  function Back(c: Candidate): Candidate { Candidate(c.neighbor, FlipEdge(c.edge), INC) }

  function Retag(e: Entry): Entry { if e.tag == OUT then e.(tag := INC) else e }

  function RetagAll(L: seq<Entry>): (M: seq<Entry>)
    ensures |M| == |L| && forall k :: 0 <= k < |L| ==> M[k] == Retag(L[k])
  {
    seq(|L|, k requires 0 <= k < |L| => Retag(L[k]))
  }

  function BackAll(s: seq<Candidate>): (t: seq<Candidate>)
    ensures |t| == |s| && forall k :: 0 <= k < |s| ==> t[k] == Back(s[k])
  {
    seq(|s|, k requires 0 <= k < |s| => Back(s[k]))
  }

  lemma TransposedClosed(g: Graph)
    requires Closed(g)
    ensures Closed(Transposed(g))
  {
  }

  lemma TransposedAt(g: Graph, x: string, c: Candidate)
    requires g.direction == Incoming
    ensures At(Transposed(g), x, c) ==>
      At(g, x, Back(c)) && c.tag == OUT && c.edge.source == x && c.neighbor == c.edge.target
    ensures At(g, x, c) ==>
      var d := Candidate(c.neighbor, FlipEdge(c.edge), OUT);
      At(Transposed(g), x, d) && Back(d) == c
  {
    if At(Transposed(g), x, c) {
      var e :| e in g.edges && c.edge == FlipEdge(e);
    }
    if At(g, x, c) {
      assert FlipEdge(c.edge) in Transposed(g).edges;
    }
  }

  lemma TupleStep(a: seq<string>, b: seq<string>, x: string, y: string)
    ensures TupleLess([x] + a, [y] + b) == if x == y then TupleLess(a, b) else StrLess(x, y)
  {
    assert ([x] + a)[1..] == a && ([y] + b)[1..] == b;
  }

  /** A sort key with its first field split off, and so on. */
  lemma KeyLess(c: Candidate, d: Candidate)
    requires c.tag == d.tag
    ensures CandidateLess(c, d) ==
      if c.edge.kind != d.edge.kind then StrLess(c.edge.kind, d.edge.kind)
      else if c.neighbor != d.neighbor then StrLess(c.neighbor, d.neighbor)
      else TupleLess([c.edge.source, c.edge.target], [d.edge.source, d.edge.target])
  {
    var p, q := [c.edge.source, c.edge.target], [d.edge.source, d.edge.target];
    TupleStep(p, q, c.neighbor, d.neighbor);
    TupleStep([c.neighbor] + p, [d.neighbor] + q, c.tag, d.tag);
    TupleStep([c.tag] + ([c.neighbor] + p), [d.tag] + ([d.neighbor] + q), c.edge.kind, d.edge.kind);
    assert Key(c) == [c.edge.kind] + ([c.tag] + ([c.neighbor] + p));
    assert Key(d) == [d.edge.kind] + ([d.tag] + ([d.neighbor] + q));
  }

  lemma BackKeepsOrder(x: string, c: Candidate, d: Candidate)
    requires c.tag == d.tag && c.edge.source == d.edge.source == x
    requires c.neighbor == c.edge.target && d.neighbor == d.edge.target
    ensures CandidateLess(Back(c), Back(d)) == CandidateLess(c, d)
  {
    KeyLess(c, d);
    KeyLess(Back(c), Back(d));
    if c.neighbor == d.neighbor {
      LexIrreflexive(StrLess, [c.edge.source, c.edge.target]);
      LexIrreflexive(StrLess, [c.edge.target, c.edge.source]);
    }
  }

  lemma CandidatesTransposed(g: Graph, x: string)
    requires g.direction == Incoming
    ensures Candidates(g, x) == BackAll(Candidates(Transposed(g), x))
  {
    var s := Candidates(Transposed(g), x);
    var t := BackAll(s);
    forall k | 0 <= k < |s| ensures At(Transposed(g), x, s[k]) { assert s[k] in s; }
    forall k | 0 <= k < |s| ensures At(g, x, t[k]) { TransposedAt(g, x, s[k]); }
    forall c | At(g, x, c) ensures c in t {
      TransposedAt(g, x, c);
      var d := Candidate(c.neighbor, FlipEdge(c.edge), OUT);
      var k :| 0 <= k < |s| && s[k] == d;
      assert t[k] == c;
    }
    forall i, j | 0 <= i < j < |t| ensures t[i] != t[j] && !CandidateLess(t[j], t[i]) {
      TransposedAt(g, x, s[i]);
      TransposedAt(g, x, s[j]);
      BackKeepsOrder(x, s[j], s[i]);
    }
    CandidateOrder();
    ArrangeUnique(CandidateLess, Candidates(g, x), t, CandidateSet(g, x));
  }

  lemma {:induction false} TakeAllTransposed(g: Graph, L: seq<Entry>, cands: seq<Candidate>, from: Entry)
    requires forall k :: 0 <= k < |cands| ==> cands[k].tag == OUT
    ensures TakeAll(g, RetagAll(L), BackAll(cands), Retag(from)) == RetagAll(TakeAll(Transposed(g), L, cands, from))
    decreases |cands|
  {
    if cands != [] {
      var c := cands[0];
      var h := Transposed(g);
      assert Seen(RetagAll(L), c.neighbor) <==> Seen(L, c.neighbor) by {
        assert forall k :: 0 <= k < |L| ==> RetagAll(L)[k].id == L[k].id;
      }
      assert TakeOne(g, RetagAll(L), Back(c), Retag(from)) == RetagAll(TakeOne(h, L, c, from));
      assert BackAll(cands)[1..] == BackAll(cands[1..]);
      TakeAllTransposed(g, TakeOne(h, L, c, from), cands[1..], from);
    }
  }

  lemma RetagProper(g: Graph, L: seq<Entry>)
    requires Proper(Transposed(g), L)
    ensures Proper(g, RetagAll(L))
  {
  }

  lemma GrowTransposed(g: Graph, L: seq<Entry>, i: nat, depth: int)
    requires g.direction == Incoming && i < |L|
    ensures Grow(g, RetagAll(L), i, depth) == RetagAll(Grow(Transposed(g), L, i, depth))
  {
    CandidatesTransposed(g, L[i].id);
    var s := Candidates(Transposed(g), L[i].id);
    forall k | 0 <= k < |s| ensures s[k].tag == OUT {
      assert At(Transposed(g), L[i].id, s[k]);
    }
    TakeAllTransposed(g, L, s, L[i]);
  }

  lemma {:induction false} ExploreTransposed(g: Graph, L: seq<Entry>, i: nat, depth: int)
    requires g.direction == Incoming && Closed(g) && Proper(Transposed(g), L) && i <= |L|
    ensures Closed(Transposed(g)) && Proper(g, RetagAll(L))
    ensures Explore(g, RetagAll(L), i, depth) == RetagAll(Explore(Transposed(g), L, i, depth))
    decreases |g.nodes| - i
  {
    TransposedClosed(g);
    RetagProper(g, L);
    if i < |L| {
      ProperIsBounded(g.nodes, L);
      ExploreStep(g, RetagAll(L), i, depth);
      ExploreStep(Transposed(g), L, i, depth);
      GrowTransposed(g, L, i, depth);
      ExploreTransposed(g, Grow(Transposed(g), L, i, depth), i + 1, depth);
    }
  }

  /** incoming expansion of a graph is outgoing expansion of its transpose, up to the direction tag. */
  lemma IncomingIsTransposedOutgoing(g: Graph, seeds: seq<string>, depth: int, limit: nat)
    requires g.direction == Incoming && Closed(g) && ValidSeeds(g, seeds)
    ensures Closed(Transposed(g)) && ValidSeeds(Transposed(g), seeds)
    ensures Expansion(g, seeds, depth, limit) == RetagAll(Expansion(Transposed(g), seeds, depth, limit))
  {
    TransposedClosed(g);
    assert RetagAll(SeedEntries(seeds)) == SeedEntries(seeds);
    ExploreTransposed(g, SeedEntries(seeds), 0, depth);
    var R := Everything(Transposed(g), seeds, depth);
    assert RetagAll(R)[|seeds|..] == RetagAll(R[|seeds|..]);
    assert Cut(RetagAll(R[|seeds|..]), limit) == RetagAll(Cut(R[|seeds|..], limit));
  }
}

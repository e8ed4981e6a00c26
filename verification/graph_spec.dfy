/** tools/search/catalog_graph.py: what a bounded breadth-first expansion returns.
    The expansion is a function of the edge set alone; the class in graph_expand.dfy computes it. */
module GraphSpec {
  import opened Ordering

  /** One EdgeProjection. */
  datatype Edge = Edge(source: string, kind: string, target: string)

  datatype Direction = Outgoing | Incoming | Both

  /** An edge seen from one of its ends. */
  datatype Candidate = Candidate(neighbor: string, edge: Edge, tag: string)

  const OUT := "outgoing"
  const INC := "incoming"

  /** nodes are the documents; allowed is the relationship-type filter. */
  datatype Graph = Graph(nodes: set<string>, edges: set<Edge>, direction: Direction, allowed: set<string>)

  ghost predicate Closed(g: Graph) {
    forall e :: e in g.edges ==> e.source in g.nodes && e.target in g.nodes
  }

  /** c is one of the edges at x that the chosen direction follows. */
  ghost predicate At(g: Graph, x: string, c: Candidate) {
    && c.edge in g.edges
    && (|| (g.direction != Incoming && c.tag == OUT && c.edge.source == x && c.neighbor == c.edge.target)
        || (g.direction != Outgoing && c.tag == INC && c.edge.target == x && c.neighbor == c.edge.source))
  }

  ghost function CandidateSet(g: Graph, x: string): (S: set<Candidate>)
    ensures forall c :: c in S <==> At(g, x, c)
  {
    var out := set e | e in g.edges && e.source == x && g.direction != Incoming :: Candidate(e.target, e, OUT);
    var inc := set e | e in g.edges && e.target == x && g.direction != Outgoing :: Candidate(e.source, e, INC);
    out + inc
  }

  /** The sort key of line 360. */
  function Key(c: Candidate): seq<string> { [c.edge.kind, c.tag, c.neighbor, c.edge.source, c.edge.target] }

  predicate CandidateLess(a: Candidate, b: Candidate) { TupleLess(Key(a), Key(b)) }

  lemma CandidateOrder()
    ensures StrictTotal(CandidateLess) && StrictWeak(CandidateLess)
  {
    TupleStrictTotal();
    forall a, b | a != b ensures CandidateLess(a, b) || CandidateLess(b, a) {
      assert Key(a)[0] == a.edge.kind && Key(a)[1] == a.tag && Key(a)[2] == a.neighbor
          && Key(a)[3] == a.edge.source && Key(a)[4] == a.edge.target;
      assert Key(b)[0] == b.edge.kind && Key(b)[1] == b.tag && Key(b)[2] == b.neighbor
          && Key(b)[3] == b.edge.source && Key(b)[4] == b.edge.target;
      assert Key(a) != Key(b);
    }
    StrictTotalIsWeak(CandidateLess);
  }

  /** The sorted candidate list of one node. */
  ghost function Candidates(g: Graph, x: string): (s: seq<Candidate>)
    ensures forall c :: c in s <==> At(g, x, c)
    ensures NoDup(s) && Sorted(CandidateLess, s)
  {
    CandidateOrder();
    Arranged(CandidateLess, CandidateSet(g, x))
  }

  /** A seed, or a discovered node with the node it was reached from. */
  datatype Entry = Entry(id: string, depth: nat, via: string, kind: string, tag: string)

  function SeedEntry(id: string): Entry { Entry(id, 0, "", "", "") }

  function SeedEntries(seeds: seq<string>): seq<Entry> {
    seq(|seeds|, i requires 0 <= i < |seeds| => SeedEntry(seeds[i]))
  }

  ghost predicate Seen(L: seq<Entry>, x: string) { exists k :: 0 <= k < |L| && L[k].id == x }

  function Discovery(c: Candidate, from: Entry): Entry {
    Entry(c.neighbor, from.depth + 1, from.id, c.edge.kind, c.tag)
  }

  /** Take one candidate: skipped when its type is not allowed or its node was visited. */
  ghost function TakeOne(g: Graph, L: seq<Entry>, c: Candidate, from: Entry): seq<Entry> {
    if c.edge.kind !in g.allowed || Seen(L, c.neighbor) then L else L + [Discovery(c, from)]
  }

  ghost function TakeAll(g: Graph, L: seq<Entry>, cands: seq<Candidate>, from: Entry): seq<Entry>
    decreases |cands|
  {
    if cands == [] then L else TakeAll(g, TakeOne(g, L, cands[0], from), cands[1..], from)
  }

  // ----- lists of distinct known nodes -----

  ghost predicate Proper(g: Graph, L: seq<Entry>) {
    && (forall i, j :: 0 <= i < j < |L| ==> L[i].id != L[j].id)
    && (forall i :: 0 <= i < |L| ==> L[i].id in g.nodes)
  }

  lemma {:induction false} ProperIsBounded(nodes: set<string>, L: seq<Entry>)
    requires forall i, j :: 0 <= i < j < |L| ==> L[i].id != L[j].id
    requires forall i :: 0 <= i < |L| ==> L[i].id in nodes
    ensures |L| <= |nodes|
  {
    if L != [] {
      var last := |L| - 1;
      ProperIsBounded(nodes - {L[last].id}, L[..last]);
    }
  }

  ghost predicate KnownNeighbors(g: Graph, cands: seq<Candidate>) {
    forall i :: 0 <= i < |cands| ==> cands[i].neighbor in g.nodes
  }

  lemma CandidatesKnown(g: Graph, x: string)
    requires Closed(g)
    ensures KnownNeighbors(g, Candidates(g, x))
  {
    var s := Candidates(g, x);
    forall i | 0 <= i < |s| ensures s[i].neighbor in g.nodes {
      assert At(g, x, s[i]);
    }
  }

  lemma {:induction false} TakeAllProper(g: Graph, L: seq<Entry>, cands: seq<Candidate>, from: Entry)
    requires Proper(g, L) && KnownNeighbors(g, cands)
    ensures Proper(g, TakeAll(g, L, cands, from)) && L <= TakeAll(g, L, cands, from)
    decreases |cands|
  {
    if cands != [] {
      TakeAllProper(g, TakeOne(g, L, cands[0], from), cands[1..], from);
    }
  }

  // ----- the whole expansion -----

  /** Process entries from position i on, appending what they discover. */
  ghost function Explore(g: Graph, L: seq<Entry>, i: nat, depth: int): (R: seq<Entry>)
    requires Closed(g) && Proper(g, L) && i <= |L|
    ensures Proper(g, R) && L <= R
    decreases |g.nodes| - i
  {
    ProperIsBounded(g.nodes, L);
    if i == |L| then L
    else if L[i].depth >= depth then Explore(g, L, i + 1, depth)
    else
      CandidatesKnown(g, L[i].id);
      TakeAllProper(g, L, Candidates(g, L[i].id), L[i]);
      Explore(g, TakeAll(g, L, Candidates(g, L[i].id), L[i]), i + 1, depth)
  }

  ghost predicate ValidSeeds(g: Graph, seeds: seq<string>) {
    NoDup(seeds) && forall i :: 0 <= i < |seeds| ==> seeds[i] in g.nodes
  }

  ghost function Everything(g: Graph, seeds: seq<string>, depth: int): (R: seq<Entry>)
    requires Closed(g) && ValidSeeds(g, seeds)
    ensures Proper(g, R) && SeedEntries(seeds) <= R
  {
    Explore(g, SeedEntries(seeds), 0, depth)
  }

  function Cut<T>(s: seq<T>, limit: nat): seq<T> { if |s| <= limit then s else s[..limit] }

  /** What graph_expand returns. */
  ghost function Expansion(g: Graph, seeds: seq<string>, depth: int, limit: nat): seq<Entry>
    requires Closed(g) && ValidSeeds(g, seeds)
  {
    Cut(Everything(g, seeds, depth)[|seeds|..], limit)
  }

  // ----- reference: walks and distance -----

  ghost predicate Arc(g: Graph, x: string, c: Candidate) { At(g, x, c) && c.edge.kind in g.allowed }

  ghost predicate Adjacent(g: Graph, x: string, y: string) {
    exists c :: Arc(g, x, c) && c.neighbor == y
  }

  /** y can be reached from a seed in exactly n allowed steps. */
  ghost predicate Walk(g: Graph, seeds: seq<string>, y: string, n: nat)
    decreases n
  {
    if n == 0 then y in seeds else exists x :: Walk(g, seeds, x, n - 1) && Adjacent(g, x, y)
  }

  ghost predicate Distance(g: Graph, seeds: seq<string>, y: string, n: nat) {
    Walk(g, seeds, y, n) && forall m: nat :: m < n ==> !Walk(g, seeds, y, m)
  }

  // ----- what exploration maintains -----

  ghost predicate FoundFrom(g: Graph, child: Entry, parent: Entry) {
    && child.via == parent.id
    && child.depth == parent.depth + 1
    && exists c :: Arc(g, parent.id, c) && child == Discovery(c, parent)
  }

  /** Entry k was discovered from an entry before it. */
  ghost predicate HasParent(g: Graph, L: seq<Entry>, k: nat) {
    k < |L| && exists j :: 0 <= j < k && FoundFrom(g, L[k], L[j])
  }

  ghost predicate Rooted(g: Graph, s: nat, L: seq<Entry>, depth: int) {
    && s <= |L|
    && (forall k :: 0 <= k < s ==> L[k].depth == 0)
    && (forall k :: s <= k < |L| ==> L[k].depth <= depth)
    && (forall k {:trigger HasParent(g, L, k)} :: s <= k < |L| ==> HasParent(g, L, k))
  }

  ghost predicate Layered(L: seq<Entry>, i: nat) {
    && (forall j, k :: 0 <= j < k < |L| ==> L[j].depth <= L[k].depth)
    && (i < |L| ==> L[|L| - 1].depth <= L[i].depth + 1)
  }

  /** Node x has been met, at depth d or less. */
  ghost predicate Met(L: seq<Entry>, x: string, d: int) {
    exists k :: 0 <= k < |L| && L[k].id == x && L[k].depth <= d
  }

  /** Everything one step away from entry j has been met, at most one level further. */
  ghost predicate Covered(g: Graph, L: seq<Entry>, j: nat) {
    j < |L| && forall c {:trigger Arc(g, L[j].id, c)} :: Arc(g, L[j].id, c) ==> Met(L, c.neighbor, L[j].depth + 1)
  }

  ghost predicate Processed(g: Graph, L: seq<Entry>, i: nat, depth: int) {
    i <= |L| && forall j {:trigger Covered(g, L, j)} :: 0 <= j < i && L[j].depth < depth ==> Covered(g, L, j)
  }

  ghost predicate Grown(g: Graph, s: nat, L: seq<Entry>, i: nat, depth: int) {
    Proper(g, L) && Rooted(g, s, L, depth) && Layered(L, i) && Processed(g, L, i, depth)
  }

  ghost predicate FromOneOf(g: Graph, child: Entry, cands: seq<Candidate>, from: Entry) {
    exists c :: c in cands && c.edge.kind in g.allowed && child == Discovery(c, from)
  }

  /** What scanning one node's candidates adds. */
  ghost predicate Added(g: Graph, L: seq<Entry>, M: seq<Entry>, cands: seq<Candidate>, from: Entry) {
    && L <= M
    && (forall k :: |L| <= k < |M| ==> FromOneOf(g, M[k], cands, from))
    && (forall c :: c in cands && c.edge.kind in g.allowed ==> Seen(M, c.neighbor))
  }

  lemma {:induction false} TakeAllAdds(g: Graph, L: seq<Entry>, cands: seq<Candidate>, from: Entry)
    ensures Added(g, L, TakeAll(g, L, cands, from), cands, from)
    decreases |cands|
  {
    if cands != [] {
      var L1 := TakeOne(g, L, cands[0], from);
      TakeAllAdds(g, L1, cands[1..], from);
      var M := TakeAll(g, L, cands, from);
      assert cands == [cands[0]] + cands[1..];
      if cands[0].edge.kind in g.allowed {
        assert Seen(L1, cands[0].neighbor) by { assert L1[|L1| - 1] in L1; }
        var k :| 0 <= k < |L1| && L1[k].id == cands[0].neighbor;
        assert M[k] == L1[k];
      }
      forall k | |L| <= k < |M| ensures FromOneOf(g, M[k], cands, from) {
        if k < |L1| {
          assert M[k] == L1[k] == Discovery(cands[0], from);
        } else {
          assert FromOneOf(g, M[k], cands[1..], from);
        }
      }
    }
  }
}

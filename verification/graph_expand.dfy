/** CatalogGraphRuntime of tools/search/catalog_graph.py: adjacency lists built from the bundle's edges,
    and the breadth-first loop over a queue. */
module GraphExpand {
  import opened Wrappers
  import opened Ordering
  import opened GraphSpec
  import opened GraphTheorems
  import opened GraphAnswers

  const MAX_GRAPH_SEEDS := 20
  const MAX_GRAPH_RESULTS := 100
  const MAX_GRAPH_EDGES := 100_000
  const MAX_ALLOWED_RELATIONSHIP_TYPES := 32
  const MAX_GRAPH_DEPTH := 2

  datatype Document = Document(title: string, entityType: string)

  datatype Hit = Hit(found: Entry, document: Document)

  /** What the registry file and the module constant supply. */
  datatype Registry = Registry(types: set<string>, defaults: set<string>)

  function EdgeKey(e: Edge): seq<string> { [e.source, e.kind, e.target] }

  predicate EdgeLess(a: Edge, b: Edge) { TupleLess(EdgeKey(a), EdgeKey(b)) }

  function AdjacencyKey(e: Edge): seq<string> { [e.kind, e.source, e.target] }

  predicate AdjacencyLess(a: Edge, b: Edge) { TupleLess(AdjacencyKey(a), AdjacencyKey(b)) }

  ghost predicate AcceptedEdges(edges: seq<Edge>, nodes: set<string>, types: set<string>) {
    && |edges| <= MAX_GRAPH_EDGES
    && (forall k :: 0 <= k < |edges| ==> edges[k].source in nodes && edges[k].target in nodes && edges[k].kind in types)
    && (forall k :: 0 < k < |edges| ==> EdgeLess(edges[k - 1], edges[k]))
  }

  /** Edges of registered types between known documents, strictly increasing by source, type and target. */
  ghost predicate ValidEdges(edges: seq<Edge>, nodes: set<string>, types: set<string>) {
    && |edges| <= 100_000
    && (forall e :: e in edges ==> e.source in nodes && e.target in nodes && e.kind in types)
    && forall k :: 0 < k < |edges| ==>
         TupleBelow([edges[k - 1].source, edges[k - 1].kind, edges[k - 1].target],
                    [edges[k].source, edges[k].kind, edges[k].target])
  }

  lemma AcceptedMeans(edges: seq<Edge>, nodes: set<string>, types: set<string>)
    ensures AcceptedEdges(edges, nodes, types) <==> ValidEdges(edges, nodes, types)
  {
    forall k | 0 < k < |edges|
      ensures EdgeLess(edges[k - 1], edges[k]) <==>
        TupleBelow([edges[k - 1].source, edges[k - 1].kind, edges[k - 1].target],
                   [edges[k].source, edges[k].kind, edges[k].target])
    {
      TupleLessMeans(EdgeKey(edges[k - 1]), EdgeKey(edges[k]));
    }
    if ValidEdges(edges, nodes, types) {
      forall k | 0 <= k < |edges|
        ensures edges[k].source in nodes && edges[k].target in nodes && edges[k].kind in types
      {
        assert edges[k] in edges;
      }
    }
  }

  /** validate_phase544_bundle, the edge part. */
  method ValidateEdges(edges: seq<Edge>, nodes: set<string>, types: set<string>) returns (ok: bool)
    ensures ok <==> ValidEdges(edges, nodes, types)
  {
    AcceptedMeans(edges, nodes, types);
    if |edges| > MAX_GRAPH_EDGES { return false; }
    var previous := None;
    for k := 0 to |edges|
      invariant previous == if k == 0 then None else Some(edges[k - 1])
      invariant AcceptedEdges(edges[..k], nodes, types)
    {
      var e := edges[k];
      ghost var shorter := edges[..k + 1];
      assert shorter[k] == e && (k > 0 ==> shorter[k - 1] == edges[k - 1]);
      if e.source !in nodes || e.target !in nodes || e.kind !in types { return false; }
      if previous.Some? && !EdgeLess(previous.value, e) { return false; }
      assert forall j :: 0 <= j < k ==> shorter[j] == edges[..k][j];
      previous := Some(e);
    }
    assert edges[..|edges|] == edges;
    ok := true;
  }

  lemma {:induction false} IncreasingFrom(edges: seq<Edge>, i: nat, j: nat)
    requires forall k :: 0 < k < |edges| ==> EdgeLess(edges[k - 1], edges[k])
    requires i < j < |edges|
    ensures EdgeLess(edges[i], edges[j])
    decreases j
  {
    if i + 1 < j {
      IncreasingFrom(edges, i, j - 1);
      StrStrictTotal();
      LexTransitive(StrLess, EdgeKey(edges[i]), EdgeKey(edges[j - 1]), EdgeKey(edges[j]));
    }
  }

  lemma IncreasingDistinct(edges: seq<Edge>)
    requires forall k :: 0 < k < |edges| ==> EdgeLess(edges[k - 1], edges[k])
    ensures NoDup(edges)
  {
    forall i, j | 0 <= i < j < |edges| ensures edges[i] != edges[j] {
      IncreasingFrom(edges, i, j);
      LexIrreflexive(StrLess, EdgeKey(edges[i]));
    }
  }

  type Adjacency = map<string, seq<Edge>>

  function Listed(m: Adjacency, x: string): seq<Edge> { if x in m then m[x] else [] }

  function End(e: Edge, bySource: bool): string { if bySource then e.source else e.target }

  /** l holds exactly the edges that have x as their source (or as their target), once each. */
  ghost predicate ListsAt(l: seq<Edge>, edges: seq<Edge>, bySource: bool, x: string) {
    NoDup(l) && forall e :: e in l <==> e in edges && End(e, bySource) == x
  }

  ghost predicate Lists(m: Adjacency, edges: seq<Edge>, bySource: bool) {
    forall x {:trigger Listed(m, x)} :: ListsAt(Listed(m, x), edges, bySource, x)
  }

  lemma AppendLists(l: seq<Edge>, edges: seq<Edge>, e: Edge, bySource: bool, x: string)
    requires ListsAt(l, edges, bySource, x) && e !in edges
    ensures ListsAt(if End(e, bySource) == x then l + [e] else l, edges + [e], bySource, x)
  {
  }

  method BuildAdjacency(edges: seq<Edge>, bySource: bool) returns (m: Adjacency)
    requires NoDup(edges)
    ensures Lists(m, edges, bySource)
  {
    m := map[];
    for k := 0 to |edges|
      invariant Lists(m, edges[..k], bySource)
    {
      var e := edges[k];
      ghost var before := m;
      m := m[End(e, bySource) := Listed(m, End(e, bySource)) + [e]];
      assert edges[..k + 1] == edges[..k] + [e];
      forall y ensures ListsAt(Listed(m, y), edges[..k + 1], bySource, y) {
        assert e !in edges[..k];
        AppendLists(Listed(before, y), edges[..k], e, bySource, y);
        assert Listed(m, y) == if End(e, bySource) == y then Listed(before, y) + [e] else Listed(before, y);
      }
    }
    assert edges[..|edges|] == edges;
  }

  lemma SortLists(l: seq<Edge>, edges: seq<Edge>, bySource: bool, x: string)
    requires ListsAt(l, edges, bySource, x)
    ensures ListsAt(Sort(AdjacencyLess, l), edges, bySource, x)
  {
    MultisetNoDup(l, Sort(AdjacencyLess, l));
    SameElements(l, Sort(AdjacencyLess, l));
  }

  method SortAdjacency(m: Adjacency, ghost edges: seq<Edge>, ghost bySource: bool) returns (r: Adjacency)
    requires Lists(m, edges, bySource)
    ensures Lists(r, edges, bySource)
  {
    r := m;
    var todo := m.Keys;
    while todo != {}
      invariant Lists(r, edges, bySource) && r.Keys == m.Keys && todo <= m.Keys
      decreases todo
    {
      var x :| x in todo;
      ghost var before := r;
      r := r[x := Sort(AdjacencyLess, r[x])];
      SortLists(Listed(before, x), edges, bySource, x);
      forall y ensures ListsAt(Listed(r, y), edges, bySource, y) {
        assert ListsAt(Listed(before, y), edges, bySource, y);
      }
      todo := todo - {x};
    }
  }

  function OutCandidates(s: seq<Edge>): (t: seq<Candidate>)
    ensures |t| == |s| && forall k :: 0 <= k < |s| ==> t[k] == Candidate(s[k].target, s[k], OUT)
  {
    seq(|s|, k requires 0 <= k < |s| => Candidate(s[k].target, s[k], OUT))
  }

  function InCandidates(s: seq<Edge>): (t: seq<Candidate>)
    ensures |t| == |s| && forall k :: 0 <= k < |s| ==> t[k] == Candidate(s[k].source, s[k], INC)
  {
    seq(|s|, k requires 0 <= k < |s| => Candidate(s[k].source, s[k], INC))
  }

  class CatalogGraphRuntime {
    const documents: map<string, Document>
    const registry: Registry
    ghost const edges: seq<Edge>
    const outgoing: Adjacency
    const incoming: Adjacency

    ghost predicate Valid() {
      && NoDup(edges)
      && (forall k :: 0 <= k < |edges| ==> edges[k].source in documents && edges[k].target in documents)
      && Lists(outgoing, edges, true)
      && Lists(incoming, edges, false)
    }

    ghost function View(direction: Direction, allowed: set<string>): Graph {
      Graph(documents.Keys, (set e | e in edges), direction, allowed)
    }

    constructor (documents: map<string, Document>, bundleEdges: seq<Edge>, registry: Registry)
      requires ValidEdges(bundleEdges, documents.Keys, registry.types)
      ensures Valid() && this.documents == documents && this.registry == registry && edges == bundleEdges
    {
      AcceptedMeans(bundleEdges, documents.Keys, registry.types);
      IncreasingDistinct(bundleEdges);
      var out := BuildAdjacency(bundleEdges, true);
      var inc := BuildAdjacency(bundleEdges, false);
      out := SortAdjacency(out, bundleEdges, true);
      inc := SortAdjacency(inc, bundleEdges, false);
      this.documents, this.registry, this.edges := documents, registry, bundleEdges;
      this.outgoing, this.incoming := out, inc;
    }

    /** The sorted candidates of one node. */
    method CandidatesAt(x: string, direction: Direction, ghost allowed: set<string>) returns (cands: seq<Candidate>)
      requires Valid()
      ensures cands == Candidates(View(direction, allowed), x)
    {
      ghost var g := View(direction, allowed);
      var out := if direction == Incoming then [] else OutCandidates(Listed(outgoing, x));
      var inc := if direction == Outgoing then [] else InCandidates(Listed(incoming, x));
      CollectsAll(x, direction, allowed, out, inc);
      CandidateOrder();
      cands := Sort(CandidateLess, out + inc);
      SortArranges(CandidateLess, out + inc, CandidateSet(g, x));
      ArrangeUnique(CandidateLess, cands, Candidates(g, x), CandidateSet(g, x));
    }

    lemma CollectsAll(x: string, direction: Direction, allowed: set<string>, out: seq<Candidate>, inc: seq<Candidate>)
      requires Valid()
      requires out == if direction == Incoming then [] else OutCandidates(Listed(outgoing, x))
      requires inc == if direction == Outgoing then [] else InCandidates(Listed(incoming, x))
      ensures NoDup(out + inc)
      ensures forall c :: c in out + inc <==> c in CandidateSet(View(direction, allowed), x)
    {
      var g, s, t := View(direction, allowed), Listed(outgoing, x), Listed(incoming, x);
      forall c ensures c in out + inc <==> At(g, x, c) {
        if c in out {
          var k :| 0 <= k < |out| && out[k] == c;
          assert s[k] in s;
        }
        if c in inc {
          var k :| 0 <= k < |inc| && inc[k] == c;
          assert t[k] in t;
        }
        if At(g, x, c) && c.tag == OUT {
          assert c.edge in s;
          var k :| 0 <= k < |s| && s[k] == c.edge;
          assert out[k] == c;
        }
        if At(g, x, c) && c.tag == INC {
          assert c.edge in t;
          var k :| 0 <= k < |t| && t[k] == c.edge;
          assert inc[k] == c;
        }
      }
    }

    /** The results so far are what exploration found after the seeds. */
    ghost predicate Shown(discovered: seq<Hit>, L: seq<Entry>, s: nat) {
      && |L| == s + |discovered|
      && forall k :: 0 <= k < |discovered| ==>
           && discovered[k].found == L[s + k]
           && L[s + k].id in documents && discovered[k].document == documents[L[s + k].id]
    }

    /** The queue holds the entries still to be processed. */
    ghost predicate Pending(queue: seq<(string, nat)>, L: seq<Entry>, i: nat) {
      && i <= |L| && |queue| == |L| - i
      && forall k :: 0 <= k < |queue| ==> queue[k] == (L[i + k].id, L[i + k].depth)
    }

    ghost predicate Visited(visited: set<string>, L: seq<Entry>) {
      forall x :: x in visited <==> Seen(L, x)
    }

    ghost predicate SameResults(hits: seq<Hit>, E: seq<Entry>) {
      && |hits| == |E|
      && forall k :: 0 <= k < |hits| ==>
           hits[k].found == E[k] && E[k].id in documents && hits[k].document == documents[E[k].id]
    }

    /** One pass over the sorted candidates of a node taken from the queue. */
    method Scan(cands: seq<Candidate>, allowed: set<string>, current: string, currentDepth: nat, limit: nat,
                visited0: set<string>, queue0: seq<(string, nat)>, discovered0: seq<Hit>,
                ghost g: Graph, ghost L0: seq<Entry>, ghost from: Entry, ghost s: nat, ghost i: nat)
      returns (visited: set<string>, queue: seq<(string, nat)>, discovered: seq<Hit>, ghost L: seq<Entry>)
      requires g.nodes == documents.Keys && g.allowed == allowed
      requires Proper(g, L0) && KnownNeighbors(g, cands)
      requires from.id == current && from.depth == currentDepth
      requires s <= |L0| && i <= |L0|
      requires Shown(discovered0, L0, s) && Pending(queue0, L0, i) && Visited(visited0, L0)
      requires |discovered0| < limit
      ensures L0 <= L && Proper(g, L) && Shown(discovered, L, s) && Visited(visited, L)
      ensures |discovered| <= limit && L <= TakeAll(g, L0, cands, from)
      ensures |discovered| < limit ==> L == TakeAll(g, L0, cands, from) && Pending(queue, L, i)
    {
      visited, queue, discovered, L := visited0, queue0, discovered0, L0;
      assert cands[0..] == cands;
      for c := 0 to |cands|
        invariant L0 <= L && Proper(g, L)
        invariant Shown(discovered, L, s) && Visited(visited, L) && Pending(queue, L, i)
        invariant |discovered| < limit
        invariant TakeAll(g, L, cands[c..], from) == TakeAll(g, L0, cands, from)
      {
        TakeNext(g, L, cands, c, from);
        ghost var next := TakeOne(g, L, cands[c], from);
        var neighbor, edge := cands[c].neighbor, cands[c].edge;
        if edge.kind in allowed && neighbor !in visited {
          var hit := Hit(Entry(neighbor, currentDepth + 1, current, edge.kind, cands[c].tag), documents[neighbor]);
          AppendEntry(discovered, queue, visited, L, s, i, hit);
          visited := visited + {neighbor};
          discovered := discovered + [hit];
          assert next == L + [hit.found];
          L := next;
          if |discovered| >= limit {
            return;
          }
          queue := queue + [(neighbor, currentDepth + 1)];
        } else {
          assert next == L;
        }
      }
      assert cands[|cands|..] == [];
    }

    lemma TakeNext(g: Graph, L: seq<Entry>, cands: seq<Candidate>, c: nat, from: Entry)
      requires c < |cands| && Proper(g, L) && KnownNeighbors(g, cands)
      ensures TakeAll(g, L, cands[c..], from) == TakeAll(g, TakeOne(g, L, cands[c], from), cands[c + 1..], from)
      ensures Proper(g, TakeOne(g, L, cands[c], from))
      ensures TakeOne(g, L, cands[c], from) <= TakeAll(g, L, cands[c..], from)
    {
      assert cands[c..][0] == cands[c] && cands[c..][1..] == cands[c + 1..];
      TakeAllProper(g, TakeOne(g, L, cands[c], from), cands[c + 1..], from);
    }

    lemma AppendEntry(discovered: seq<Hit>, queue: seq<(string, nat)>, visited: set<string>, L: seq<Entry>,
                      s: nat, i: nat, hit: Hit)
      requires Shown(discovered, L, s) && Pending(queue, L, i) && Visited(visited, L)
      requires hit.found.id in documents && hit.document == documents[hit.found.id]
      ensures Shown(discovered + [hit], L + [hit.found], s)
      ensures Pending(queue + [(hit.found.id, hit.found.depth)], L + [hit.found], i)
      ensures Visited(visited + {hit.found.id}, L + [hit.found])
    {
      SeenMore(L, hit.found);
    }

    lemma SeenMore(L: seq<Entry>, e: Entry)
      ensures forall x :: Seen(L + [e], x) <==> Seen(L, x) || x == e.id
    {
      forall x ensures Seen(L + [e], x) <==> Seen(L, x) || x == e.id {
        var M := L + [e];
        if Seen(L, x) {
          var k :| 0 <= k < |L| && L[k].id == x;
          assert M[k].id == x;
        }
        assert M[|L|].id == e.id;
      }
    }

    /** The loop's state stands for a point of the exploration whose whole result is full. */
    ghost predicate Exploring(g: Graph, s: nat, full: seq<Entry>, depth: int, limit: nat, L: seq<Entry>, i: nat,
                              visited: set<string>, queue: seq<(string, nat)>, discovered: seq<Hit>) {
      && Closed(g) && Proper(g, L) && L <= full && i <= |L|
      && Shown(discovered, L, s) && Visited(visited, L) && |discovered| <= limit
      && (|discovered| < limit ==> Pending(queue, L, i) && Explore(g, L, i, depth) == full)
    }

    lemma ExploringStarts(g: Graph, seeds: seq<string>, depth: int, limit: nat)
      requires Closed(g) && ValidSeeds(g, seeds)
      ensures var queue := seq(|seeds|, k requires 0 <= k < |seeds| => (seeds[k], 0 as nat));
              Exploring(g, |seeds|, Everything(g, seeds, depth), depth, limit, SeedEntries(seeds), 0,
                        (set x | x in seeds), queue, [])
    {
      SeedsVisited(seeds);
    }

    /** An entry at the depth bound is dropped from the queue. */
    lemma SkipKeeps(g: Graph, s: nat, full: seq<Entry>, depth: int, limit: nat, L: seq<Entry>, i: nat,
                    visited: set<string>, queue: seq<(string, nat)>, discovered: seq<Hit>)
      requires Exploring(g, s, full, depth, limit, L, i, visited, queue, discovered)
      requires queue != [] && |discovered| < limit && queue[0].1 >= depth
      ensures Exploring(g, s, full, depth, limit, L, i + 1, visited, queue[1..], discovered)
    {
      TakeFirst(queue, L, i);
      ExploreStep(g, L, i, depth);
    }

    lemma ScanKeeps(g: Graph, s: nat, full: seq<Entry>, depth: int, limit: nat, L0: seq<Entry>, i: nat, L: seq<Entry>,
                    visited: set<string>, queue: seq<(string, nat)>, discovered: seq<Hit>)
      requires Closed(g) && Proper(g, L0) && i < |L0| && L0[i].depth < depth && Explore(g, L0, i, depth) == full
      requires L0 <= L && Proper(g, L) && Shown(discovered, L, s) && Visited(visited, L) && |discovered| <= limit
      requires L <= Grow(g, L0, i, depth)
      requires |discovered| < limit ==> L == Grow(g, L0, i, depth) && Pending(queue, L, i + 1)
      ensures Exploring(g, s, full, depth, limit, L, i + 1, visited, queue, discovered)
    {
      ExploreStep(g, L0, i, depth);
    }

    /** The breadth-first loop of graph_expand, for any depth and limit. */
    method BreadthFirst(seeds: seq<string>, depth: int, allowed: set<string>, direction: Direction, limit: nat)
      returns (discovered: seq<Hit>)
      requires Valid() && NoDup(seeds) && forall k :: 0 <= k < |seeds| ==> seeds[k] in documents
      ensures Closed(View(direction, allowed)) && ValidSeeds(View(direction, allowed), seeds)
      ensures SameResults(discovered, Expansion(View(direction, allowed), seeds, depth, limit))
    {
      ghost var g := View(direction, allowed);
      ghost var s, L, i := |seeds|, SeedEntries(seeds), 0;
      ghost var full := Everything(g, seeds, depth);
      var visited := set x | x in seeds;
      var queue := seq(|seeds|, k requires 0 <= k < |seeds| => (seeds[k], 0 as nat));
      discovered := [];
      ExploringStarts(g, seeds, depth, limit);
      while queue != [] && |discovered| < limit
        invariant Exploring(g, s, full, depth, limit, L, i, visited, queue, discovered)
        decreases |g.nodes| - i
      {
        var (current, currentDepth) := queue[0];
        TakeFirst(queue, L, i);
        ProperIsBounded(g.nodes, L);
        if currentDepth < depth {
          queue := queue[1..];
          var cands := CandidatesAt(current, direction, allowed);
          CandidatesKnown(g, current);
          ghost var L0 := L;
          visited, queue, discovered, L :=
            Scan(cands, allowed, current, currentDepth, limit, visited, queue, discovered, g, L, L[i], s, i + 1);
          ScanKeeps(g, s, full, depth, limit, L0, i, L, visited, queue, discovered);
        } else {
          SkipKeeps(g, s, full, depth, limit, L, i, visited, queue, discovered);
          queue := queue[1..];
        }
        i := i + 1;
      }
      LoopIsDone(discovered, L, full, s, limit);
    }

    lemma TakeFirst(queue: seq<(string, nat)>, L: seq<Entry>, i: nat)
      requires Pending(queue, L, i) && queue != []
      ensures i < |L| && queue[0] == (L[i].id, L[i].depth) && Pending(queue[1..], L, i + 1)
    {
      assert queue[0] == (L[i + 0].id, L[i + 0].depth);
    }

    /** At the end of the loop the results are the first ones of the whole exploration. */
    lemma LoopIsDone(discovered: seq<Hit>, L: seq<Entry>, full: seq<Entry>, s: nat, limit: nat)
      requires Shown(discovered, L, s) && L <= full && |discovered| <= limit
      requires |discovered| < limit ==> L == full
      ensures SameResults(discovered, Cut(full[s..], limit))
    {
      assert |discovered| == limit ==> Cut(full[s..], limit) == L[s..];
      assert |discovered| < limit ==> Cut(full[s..], limit) == L[s..];
    }

    lemma SeedsVisited(seeds: seq<string>)
      ensures Visited((set x | x in seeds), SeedEntries(seeds))
    {
      var L := SeedEntries(seeds);
      forall x ensures x in seeds <==> Seen(L, x) {
        if x in seeds {
          var k :| 0 <= k < |seeds| && seeds[k] == x;
          assert L[k].id == x;
        }
      }
    }

    /** Every condition graph_expand checks before it looks at an edge. */
    ghost predicate Acceptable(seedIds: seq<string>, depth: int, types: Option<seq<string>>, direction: string,
                               limit: int) {
      && 1 <= |seedIds| <= 20 && 0 <= depth <= 2 && 1 <= limit <= 100
      && (direction == "outgoing" || direction == "incoming" || direction == "both")
      && (forall k :: 0 <= k < |seedIds| ==> seedIds[k] in documents)
      && var kinds := Kinds(types);
         1 <= |kinds| <= 32 && kinds <= registry.types
    }

    /** The requested types, or the default ones. */
    ghost function Kinds(types: Option<seq<string>>): set<string> {
      if types.None? then registry.defaults else set v | v in types.value
    }

    function Allowed(types: Option<seq<string>>): set<string> {
      match types
      case None => registry.defaults
      case Some(values) => set v | v in values
    }

    static function DirectionOf(direction: string): Direction {
      if direction == "outgoing" then Outgoing else if direction == "incoming" then Incoming else Both
    }

    /** sorted({...}) over the requested ids. */
    static method SortSeeds(seedIds: seq<string>) returns (sorted: seq<string>)
      ensures Arranges(StrLess, sorted, set v | v in seedIds)
    {
      StrStrictTotal();
      StrictTotalIsWeak(StrLess);
      SortArranges(StrLess, Dedup(seedIds), set v | v in seedIds);
      sorted := Sort(StrLess, Dedup(seedIds));
    }

    function Found(hits: seq<Hit>): (E: seq<Entry>)
      ensures |E| == |hits| && forall k :: 0 <= k < |hits| ==> E[k] == hits[k].found
    {
      seq(|hits|, k requires 0 <= k < |hits| => hits[k].found)
    }

    /** The distinct seeds by code point. */
    ghost predicate InCodeOrder(seeds: seq<string>) {
      forall i, j :: 0 <= i < j < |seeds| ==> StrBelow(seeds[i], seeds[j])
    }

    lemma SortedByCode(seeds: seq<string>, S: set<string>)
      requires Arranges(StrLess, seeds, S)
      ensures InCodeOrder(seeds)
    {
      StrStrictTotal();
      forall i, j | 0 <= i < j < |seeds| ensures StrBelow(seeds[i], seeds[j]) {
        assert seeds[i] != seeds[j] && !StrLess(seeds[j], seeds[i]);
        StrLessMeans(seeds[i], seeds[j]);
      }
    }

    /** The expansion proper, once the request is accepted; depth 0 returns before the loop. */
    method Answer(seeds: seq<string>, depth: nat, allowed: set<string>, direction: string, limit: nat)
      returns (hits: seq<Hit>)
      requires Valid() && NoDup(seeds) && forall k :: 0 <= k < |seeds| ==> seeds[k] in documents
      ensures var g := View(DirectionOf(direction), allowed);
              Closed(g) && ValidSeeds(g, seeds) && SameResults(hits, Expansion(g, seeds, depth, limit))
      ensures Answers((set e | e in edges), direction, allowed, seeds, depth, limit, Found(hits))
    {
      ghost var g := View(DirectionOf(direction), allowed);
      ExpansionAnswers(g, (set e | e in edges), direction, allowed, seeds, depth, limit);
      if depth == 0 {
        NoMoreGrowth(g, SeedEntries(seeds), 0, 0);
        hits := [];
      } else {
        hits := BreadthFirst(seeds, depth, allowed, DirectionOf(direction), limit);
      }
      assert Found(hits) == Expansion(g, seeds, depth, limit);
    }

    /** The checks before any edge is looked at; error is what they raise. */
    method CheckRequest(seedIds: seq<string>, depth: int, types: Option<seq<string>>, direction: string, limit: int)
      returns (error: Option<string>, sorted: seq<string>)
      ensures error.None? <==> Acceptable(seedIds, depth, types, direction, limit)
      ensures Arranges(StrLess, sorted, set v | v in seedIds)
    {
      sorted := SortSeeds(seedIds);
      assert forall x :: x in sorted <==> x in seedIds;
      assert Allowed(types) == Kinds(types);
      var allowed := Allowed(types);
      if seedIds == [] || |seedIds| > MAX_GRAPH_SEEDS { return Some("graph seed count"), sorted; }
      if depth < 0 || depth > MAX_GRAPH_DEPTH { return Some("graph depth"), sorted; }
      if limit < 1 || limit > MAX_GRAPH_RESULTS { return Some("graph limit"), sorted; }
      if direction != "outgoing" && direction != "incoming" && direction != "both" {
        return Some("graph direction"), sorted;
      }
      if exists x :: x in sorted && x !in documents { return Some("graph seed is not present"), sorted; }
      if allowed == {} || |allowed| > MAX_ALLOWED_RELATIONSHIP_TYPES {
        return Some("invalid relationship-type set"), sorted;
      }
      if !(allowed <= registry.types) { return Some("unregistered relationship types"), sorted; }
      error := None;
    }

    /** graph_expand: refused requests raise; accepted ones get the answer that the request, the edges and the
        documents determine. */
    method GraphExpand(seedIds: seq<string>, depth: int, types: Option<seq<string>>, direction: string, limit: int)
      returns (r: Result<seq<Hit>>, ghost seeds: seq<string>)
      requires Valid()
      ensures r.Ok? <==> Acceptable(seedIds, depth, types, direction, limit)
      ensures r.Ok? ==>
        var g := View(DirectionOf(direction), Allowed(types));
        Closed(g) && ValidSeeds(g, seeds) && SameResults(r.value, Expansion(g, seeds, depth, limit))
      ensures r.Ok? ==>
        && InCodeOrder(seeds) && (forall x :: x in seeds <==> x in seedIds)
        && Answers((set e | e in edges), direction, Kinds(types), seeds, depth, limit, Found(r.value))
        && forall hit :: hit in r.value ==> hit.found.id in documents && hit.document == documents[hit.found.id]
    {
      var error, sorted := CheckRequest(seedIds, depth, types, direction, limit);
      seeds := sorted;
      if error.Some? { return Err(error.value), seeds; }
      SortedByCode(sorted, set v | v in seedIds);
      forall k | 0 <= k < |sorted| ensures sorted[k] in documents { assert sorted[k] in sorted; }
      var hits := Answer(sorted, depth, Allowed(types), direction, limit);
      r := Ok(hits);
    }
  }
}

/** What graph_expand answers, in terms of the request and the bundle's edges alone. */
module GraphAnswers {
  import opened Ordering
  import opened GraphSpec
  import opened GraphTheorems
  import opened GraphOrder

  /** One allowed step from x to y, over an edge of this type, read in the direction of the tag. */
  predicate Joins(edges: set<Edge>, direction: string, kinds: set<string>, x: string, y: string, kind: string,
                  tag: string) {
    && kind in kinds
    && (|| (tag == "outgoing" && direction != "incoming" && Edge(source := x, kind := kind, target := y) in edges)
        || (tag == "incoming" && direction != "outgoing" && Edge(source := y, kind := kind, target := x) in edges))
  }

  ghost predicate Neighbors(edges: set<Edge>, direction: string, kinds: set<string>, x: string, y: string) {
    exists kind, tag :: Joins(edges, direction, kinds, x, y, kind, tag)
  }

  /** y lies exactly n allowed steps away from some seed. */
  ghost predicate Hops(edges: set<Edge>, direction: string, kinds: set<string>, seeds: seq<string>, y: string, n: nat)
    decreases n
  {
    if n == 0 then y in seeds
    else exists x :: Hops(edges, direction, kinds, seeds, x, n - 1) && Neighbors(edges, direction, kinds, x, y)
  }

  function Ids(E: seq<Entry>): (ids: seq<string>)
    ensures |ids| == |E| && forall k :: 0 <= k < |ids| ==> ids[k] == E[k].id
  {
    seq(|E|, k requires 0 <= k < |E| => E[k].id)
  }

  /** Result k is new, lies as many steps away as it says and no fewer, and was reached over an allowed edge from a
      seed or from an earlier result one level up. */
  ghost predicate Reached(edges: set<Edge>, direction: string, kinds: set<string>, seeds: seq<string>, depth: nat,
                          E: seq<Entry>, k: nat)
    requires k < |E|
  {
    var x := E[k];
    && x.id !in seeds && 1 <= x.depth <= depth
    && Joins(edges, direction, kinds, x.via, x.id, x.kind, x.tag)
    && (if x.depth == 1 then x.via in seeds
        else exists j :: 0 <= j < k && E[j].id == x.via && E[j].depth + 1 == x.depth)
    && Hops(edges, direction, kinds, seeds, x.id, x.depth)
    && forall n: nat :: n < x.depth ==> !Hops(edges, direction, kinds, seeds, x.id, n)
  }

  /** Results come in the order of the nodes they were reached from, and those from one node by type, tag and ID. */
  ghost predicate InLine(seeds: seq<string>, E: seq<Entry>) {
    var line := seeds + Ids(E);
    forall j, k, l, m ::
      0 <= k < m < |E| && 0 <= j < |line| && 0 <= l < |line| && line[j] == E[k].via && line[l] == E[m].via ==>
        j < l || (j == l && TupleBelow([E[k].kind, E[k].tag, E[k].id], [E[m].kind, E[m].tag, E[m].id]))
  }

  /** No node before the one a result was reached from leads to it. */
  ghost predicate FromFirst(edges: set<Edge>, direction: string, kinds: set<string>, seeds: seq<string>,
                            E: seq<Entry>) {
    var line := seeds + Ids(E);
    forall h, j, k :: 0 <= k < |E| && 0 <= h < j < |line| && line[j] == E[k].via ==>
      !Neighbors(edges, direction, kinds, line[h], E[k].id)
  }

  /** The edge reported is the least that joins the two nodes, by type and tag. */
  ghost predicate OverLeast(edges: set<Edge>, direction: string, kinds: set<string>, x: Entry) {
    forall kind, tag :: Joins(edges, direction, kinds, x.via, x.id, kind, tag) ==>
      (x.kind == kind && x.tag == tag) || TupleBelow([x.kind, x.tag], [kind, tag])
  }

  /** E is the answer: nothing here is left to choose. */
  ghost predicate Answers(edges: set<Edge>, direction: string, kinds: set<string>, seeds: seq<string>, depth: nat,
                          limit: nat,
                          E: seq<Entry>)
  {
    && |E| <= limit
    && (forall i, j :: 0 <= i < j < |E| ==> E[i].id != E[j].id && E[i].depth <= E[j].depth)
    && (forall k :: 0 <= k < |E| ==> Reached(edges, direction, kinds, seeds, depth, E, k))
    && (|E| < limit ==>
          forall y, n: nat :: Hops(edges, direction, kinds, seeds, y, n) && n <= depth && y !in seeds ==> y in Ids(E))
    && InLine(seeds, E) && FromFirst(edges, direction, kinds, seeds, E)
    && forall k :: 0 <= k < |E| ==> OverLeast(edges, direction, kinds, E[k])
  }

  // ----- from the graph to the edges -----

  /** g is the graph that the request's direction and types select. */
  ghost predicate Selects(g: Graph, edges: set<Edge>, direction: string, kinds: set<string>) {
    && g.edges == edges && g.allowed == kinds
    && (direction == "outgoing" ==> g.direction == Outgoing)
    && (direction == "incoming" ==> g.direction == Incoming)
    && (direction != "outgoing" && direction != "incoming" ==> g.direction == Both)
  }

  lemma JoinsIff(g: Graph, edges: set<Edge>, direction: string, kinds: set<string>, x: string, y: string, kind: string,
                 tag: string)
    requires Selects(g, edges, direction, kinds)
    ensures Joins(edges, direction, kinds, x, y, kind, tag)
       <==> exists c :: Arc(g, x, c) && c.neighbor == y && c.edge.kind == kind && c.tag == tag
  {
    if Joins(edges, direction, kinds, x, y, kind, tag) {
      var e := if tag == "outgoing" then Edge(source := x, kind := kind, target := y)
               else Edge(source := y, kind := kind, target := x);
      assert Arc(g, x, Candidate(y, e, tag));
    }
    if c :| Arc(g, x, c) && c.neighbor == y && c.edge.kind == kind && c.tag == tag {
      assert c.edge == if tag == OUT then Edge(source := x, kind := kind, target := y)
                       else Edge(source := y, kind := kind, target := x);
    }
  }

  lemma NeighborsIff(g: Graph, edges: set<Edge>, direction: string, kinds: set<string>, x: string, y: string)
    requires Selects(g, edges, direction, kinds)
    ensures Neighbors(edges, direction, kinds, x, y) <==> Adjacent(g, x, y)
  {
    if kind, tag :| Joins(edges, direction, kinds, x, y, kind, tag) {
      JoinsIff(g, edges, direction, kinds, x, y, kind, tag);
    }
    if c :| Arc(g, x, c) && c.neighbor == y { JoinsIff(g, edges, direction, kinds, x, y, c.edge.kind, c.tag); }
  }

  lemma {:induction false} HopsIff(g: Graph, edges: set<Edge>, direction: string, kinds: set<string>,
                                   seeds: seq<string>,
                                   y: string, n: nat)
    requires Selects(g, edges, direction, kinds)
    ensures Hops(edges, direction, kinds, seeds, y, n) <==> Walk(g, seeds, y, n)
    decreases n
  {
    if n > 0 {
      var m: nat := n - 1;
      forall x ensures Hops(edges, direction, kinds, seeds, x, m) <==> Walk(g, seeds, x, m) {
        HopsIff(g, edges, direction, kinds, seeds, x, m);
      }
      forall x ensures Neighbors(edges, direction, kinds, x, y) <==> Adjacent(g, x, y) {
        NeighborsIff(g, edges, direction, kinds, x, y);
      }
    }
  }

  lemma ReachedAll(g: Graph, edges: set<Edge>, direction: string, kinds: set<string>, seeds: seq<string>, depth: nat,
                   E: seq<Entry>, k: nat)
    requires Selects(g, edges, direction, kinds) && WellFormed(g, seeds, E, depth) && AllAtDistance(g, seeds, E)
        && k < |E|
    ensures Reached(edges, direction, kinds, seeds, depth, E, k)
  {
    assert GoodResult(g, seeds, E, k, depth);
    JoinsIff(g, edges, direction, kinds, E[k].via, E[k].id, E[k].kind, E[k].tag);
    HopsIff(g, edges, direction, kinds, seeds, E[k].id, E[k].depth);
    forall n: nat | n < E[k].depth ensures !Hops(edges, direction, kinds, seeds, E[k].id, n) {
      HopsIff(g, edges, direction, kinds, seeds, E[k].id, n);
    }
  }

  lemma CompleteAll(g: Graph, edges: set<Edge>, direction: string, kinds: set<string>, seeds: seq<string>, depth: nat,
                    E: seq<Entry>)
    requires Selects(g, edges, direction, kinds) && Complete(g, seeds, E, depth)
    ensures forall y, n: nat :: Hops(edges, direction, kinds, seeds, y, n) && n <= depth && y !in seeds ==> y in Ids(E)
  {
    forall y, n: nat | Hops(edges, direction, kinds, seeds, y, n) && n <= depth && y !in seeds ensures y in Ids(E) {
      HopsIff(g, edges, direction, kinds, seeds, y, n);
      var k :| 0 <= k < |E| && E[k].id == y;
      assert Ids(E)[k] == y;
    }
  }

  // ----- the order of a cut -----

  /** E is what follows the seeds in the first part of R. */
  ghost predicate Follows(seeds: seq<string>, R: seq<Entry>, E: seq<Entry>) {
    && |seeds| + |E| <= |R|
    && (forall i :: 0 <= i < |seeds| ==> R[i].id == seeds[i])
    && forall k :: 0 <= k < |E| ==> E[k] == R[|seeds| + k]
  }

  lemma LineIs(seeds: seq<string>, R: seq<Entry>, E: seq<Entry>, j: nat)
    requires Follows(seeds, R, E) && j < |seeds| + |E|
    ensures (seeds + Ids(E))[j] == R[j].id
  {
    if j >= |seeds| { assert (seeds + Ids(E))[j] == Ids(E)[j - |seeds|]; }
  }

  lemma CutInLine(seeds: seq<string>, R: seq<Entry>, E: seq<Entry>)
    requires Follows(seeds, R, E) && InOrder(|seeds|, R)
    ensures InLine(seeds, E)
  {
    var line, s := seeds + Ids(E), |seeds|;
    forall j, k, l, m | 0 <= k < m < |E| && 0 <= j < |line| && 0 <= l < |line| && line[j] == E[k].via
        && line[l] == E[m].via
      ensures j < l || (j == l && TupleBelow([E[k].kind, E[k].tag, E[k].id], [E[m].kind, E[m].tag, E[m].id]))
    {
      LineIs(seeds, R, E, j);
      LineIs(seeds, R, E, l);
      assert From(R, j, s + k) && From(R, l, s + m);
    }
  }

  lemma CutFromFirst(g: Graph, edges: set<Edge>, direction: string, kinds: set<string>, seeds: seq<string>,
                     R: seq<Entry>,
                     E: seq<Entry>)
    requires Selects(g, edges, direction, kinds) && Follows(seeds, R, E) && Earliest(g, |seeds|, R)
    ensures FromFirst(edges, direction, kinds, seeds, E)
  {
    var line, s := seeds + Ids(E), |seeds|;
    forall h, j, k | 0 <= k < |E| && 0 <= h < j < |line| && line[j] == E[k].via
      ensures !Neighbors(edges, direction, kinds, line[h], E[k].id)
    {
      LineIs(seeds, R, E, j);
      LineIs(seeds, R, E, h);
      NeighborsIff(g, edges, direction, kinds, line[h], E[k].id);
      assert From(R, j, s + k) && !Adjacent(g, R[h].id, R[s + k].id);
    }
  }

  lemma CutOverLeast(g: Graph, edges: set<Edge>, direction: string, kinds: set<string>, x: Entry)
    requires Selects(g, edges, direction, kinds) && LeastEdge(g, x)
    ensures OverLeast(edges, direction, kinds, x)
  {
    forall kind, tag | Joins(edges, direction, kinds, x.via, x.id, kind, tag)
      ensures (x.kind == kind && x.tag == tag) || TupleBelow([x.kind, x.tag], [kind, tag])
    {
      JoinsIff(g, edges, direction, kinds, x.via, x.id, kind, tag);
      var c :| Arc(g, x.via, c) && c.neighbor == x.id && c.edge.kind == kind && c.tag == tag;
      assert EdgeAtMost(x, c);
    }
  }

  /** The expansion of the selected graph is the answer to the request. */
  lemma ExpansionAnswers(g: Graph, edges: set<Edge>, direction: string, kinds: set<string>, seeds: seq<string>,
                         depth: nat,
                         limit: nat)
    requires Selects(g, edges, direction, kinds) && Closed(g) && ValidSeeds(g, seeds)
    ensures Answers(edges, direction, kinds, seeds, depth, limit, Expansion(g, seeds, depth, limit))
  {
    var R, E := Everything(g, seeds, depth), Expansion(g, seeds, depth, limit);
    ExpansionIsShortestPaths(g, seeds, depth, limit);
    EverythingArranged(g, seeds, depth);
    SeedIds(seeds, R);
    assert Follows(seeds, R, E);
    CutInLine(seeds, R, E);
    CutFromFirst(g, edges, direction, kinds, seeds, R, E);
    forall k | 0 <= k < |E|
      ensures Reached(edges, direction, kinds, seeds, depth, E, k) && OverLeast(edges, direction, kinds, E[k])
    {
      ReachedAll(g, edges, direction, kinds, seeds, depth, E, k);
      assert LeastEdge(g, R[|seeds| + k]);
      CutOverLeast(g, edges, direction, kinds, E[k]);
    }
    if |E| < limit { CompleteAll(g, edges, direction, kinds, seeds, depth, E); }
  }
}

/** ingestion/parsers/mitre_d3fend_turtle.py: what the serialisation of a blank node means.
    The meaning is the plain unfolding of the node, defined when no cycle can be reached from it. */
module BlankSpec {
  import opened Ordering

  /** An RDF term. str() of a named term forgets its kind (IRI, language, datatype). */
  datatype Term = Blank(name: string) | Named(kind: string, text: string)

  datatype Triple = Triple(subject: Term, property: string, obj: Term)

  type Graph = set<Triple>

  // ----- reachability through blank nodes -----

  ghost predicate Edge(g: Graph, a: Term, b: Term) {
    a.Blank? && b.Blank? && exists p :: Triple(a, p, b) in g
  }

  ghost predicate Steps(g: Graph, a: Term, b: Term, k: nat)
    decreases k
  {
    if k == 0 then a == b else exists m :: Edge(g, a, m) && Steps(g, m, b, k - 1)
  }

  ghost predicate Reaches(g: Graph, a: Term, b: Term) { exists k: nat :: Steps(g, a, b, k) }

  /** In at least one step. */
  ghost predicate Precedes(g: Graph, a: Term, b: Term) { exists m :: Edge(g, a, m) && Reaches(g, m, b) }

  ghost predicate Acyclic(g: Graph, n: Term) {
    forall x :: Reaches(g, n, x) ==> !Precedes(g, x, x)
  }

  lemma ReachesSelf(g: Graph, a: Term)
    ensures Reaches(g, a, a)
  {
    assert Steps(g, a, a, 0);
  }

  lemma EdgeThenReaches(g: Graph, a: Term, m: Term, b: Term)
    requires Edge(g, a, m) && Reaches(g, m, b)
    ensures Reaches(g, a, b)
  {
    var k: nat :| Steps(g, m, b, k);
    assert Steps(g, a, b, k + 1);
  }

  lemma {:induction false} StepsTransitive(g: Graph, a: Term, b: Term, c: Term, j: nat)
    requires Steps(g, a, b, j) && Reaches(g, b, c)
    ensures Reaches(g, a, c)
    decreases j
  {
    if j > 0 {
      var m :| Edge(g, a, m) && Steps(g, m, b, j - 1);
      StepsTransitive(g, m, b, c, j - 1);
      EdgeThenReaches(g, a, m, c);
    }
  }

  lemma ReachesTransitive(g: Graph, a: Term, b: Term, c: Term)
    requires Reaches(g, a, b) && Reaches(g, b, c)
    ensures Reaches(g, a, c)
  {
    var j: nat :| Steps(g, a, b, j);
    StepsTransitive(g, a, b, c, j);
  }

  lemma ReachesEdge(g: Graph, a: Term, b: Term, c: Term)
    requires Reaches(g, a, b) && Edge(g, b, c)
    ensures Reaches(g, a, c) && Precedes(g, a, c)
  {
    ReachesSelf(g, c);
    EdgeThenReaches(g, b, c, c);
    ReachesTransitive(g, a, b, c);
    var j: nat :| Steps(g, a, b, j);
    if j > 0 {
      var m :| Edge(g, a, m) && Steps(g, m, b, j - 1);
      assert Reaches(g, m, b);
      ReachesTransitive(g, m, b, c);
    }
  }

  lemma PrecedesReaches(g: Graph, a: Term, b: Term)
    requires Precedes(g, a, b)
    ensures Reaches(g, a, b)
  {
    var m :| Edge(g, a, m) && Reaches(g, m, b);
    EdgeThenReaches(g, a, m, b);
  }

  /** Reaching b means being b or going through a child. */
  lemma ReachesCases(g: Graph, a: Term, b: Term)
    requires Reaches(g, a, b)
    ensures a == b || Precedes(g, a, b)
  {
    var k: nat :| Steps(g, a, b, k);
    if k > 0 {
      var m :| Edge(g, a, m) && Steps(g, m, b, k - 1);
      assert Reaches(g, m, b);
    }
  }

  ghost function Objects(g: Graph): set<Term> { set t | t in g :: t.obj }

  lemma {:induction false} StepsStayInGraph(g: Graph, a: Term, b: Term, k: nat)
    requires Steps(g, a, b, k)
    ensures a == b || b in Objects(g)
    decreases k
  {
    if k > 0 {
      var m :| Edge(g, a, m) && Steps(g, m, b, k - 1);
      var p :| Triple(a, p, m) in g;
      StepsStayInGraph(g, m, b, k - 1);
    }
  }

  /** Everything reachable from n, n included. */
  ghost function ReachSet(g: Graph, n: Term): (S: set<Term>)
    ensures forall x :: x in S <==> Reaches(g, n, x)
  {
    var S := set x | x in Objects(g) + {n} && Reaches(g, n, x);
    forall x | Reaches(g, n, x) ensures x in S {
      var k: nat :| Steps(g, n, x, k);
      StepsStayInGraph(g, n, x, k);
    }
    S
  }

  lemma ChildIsSmaller(g: Graph, n: Term, m: Term)
    requires Acyclic(g, n) && Edge(g, n, m)
    ensures Acyclic(g, m) && ReachSet(g, m) < ReachSet(g, n) && |ReachSet(g, m)| < |ReachSet(g, n)|
  {
    forall x | Reaches(g, m, x) ensures Reaches(g, n, x) { EdgeThenReaches(g, n, m, x); }
    ReachesSelf(g, n);
    assert !Precedes(g, n, n);
    assert n in ReachSet(g, n) && n !in ReachSet(g, m);
    assert ReachSet(g, m) <= ReachSet(g, n) - {n};
    Smaller(ReachSet(g, m), ReachSet(g, n) - {n});
  }

  lemma {:induction false} Smaller<T>(a: set<T>, b: set<T>)
    requires a <= b
    ensures |a| <= |b|
  {
    assert b == a + (b - a);
    assert |b| == |a| + |b - a|;
  }

  /** A node is acyclic when its blank children are. */
  lemma AcyclicFromChildren(g: Graph, n: Term)
    requires forall m :: Edge(g, n, m) ==> Acyclic(g, m)
    ensures Acyclic(g, n)
  {
    forall x | Reaches(g, n, x) ensures !Precedes(g, x, x) {
      ReachesCases(g, n, x);
      forall m | Edge(g, n, m) ensures Reaches(g, m, x) ==> !Precedes(g, x, x) {
        assert Acyclic(g, m);
      }
    }
  }

  // ----- serialised values -----

  datatype Value = Text(text: string) | Structure(properties: seq<Property>, digest: string)

  datatype Property = Property(key: string, values: seq<Value>)

  /** canonical_json of a value and sha256_digest of the properties. */
  datatype Codec = Codec(json: Value -> string, digest: seq<Property> -> string)

  ghost predicate Faithful(c: Codec) { forall a, b :: c.json(a) == c.json(b) ==> a == b }

  function ByJson(c: Codec): (Value, Value) -> bool {
    (a: Value, b: Value) => StrLess(c.json(a), c.json(b))
  }

  lemma ByJsonOrder(c: Codec)
    requires Faithful(c)
    ensures StrictTotal(ByJson(c)) && StrictWeak(ByJson(c))
  {
    StrStrictTotal();
    StrictTotalIsWeak(ByJson(c));
  }

  /** The distinct values in the order of their JSON text. */
  ghost function InOrder(c: Codec, S: set<Value>): (s: seq<Value>)
    requires Faithful(c)
    ensures Arranges(ByJson(c), s, S)
  {
    ByJsonOrder(c);
    Arranged(ByJson(c), S)
  }

  ghost function KeyList(m: map<string, set<Value>>): (ks: seq<string>)
    ensures ks == SortedStrings(m.Keys) && forall i :: 0 <= i < |ks| ==> ks[i] in m
  {
    var ks := SortedStrings(m.Keys);
    assert forall i :: 0 <= i < |ks| ==> ks[i] in ks;
    ks
  }

  /** A dictionary of value sets, written as sorted keys with sorted distinct values. */
  ghost function Catalogue(c: Codec, m: map<string, set<Value>>): (s: seq<Property>)
    requires Faithful(c)
    ensures var ks := SortedStrings(m.Keys);
            |s| == |ks| && forall i :: 0 <= i < |ks| ==> ks[i] in m && s[i] == Property(ks[i], InOrder(c, m[ks[i]]))
  {
    var ks := KeyList(m);
    seq(|ks|, i requires 0 <= i < |ks| => Property(ks[i], InOrder(c, m[ks[i]])))
  }

  ghost function Keys(g: Graph, n: Term): set<string> {
    set t | t in g && t.subject == n :: t.property
  }

  // ----- the plain unfolding -----

  ghost function ObjectValue(c: Codec, g: Graph, o: Term): Value
    requires Faithful(c) && (o.Blank? ==> Acyclic(g, o))
    decreases if o.Blank? then |ReachSet(g, o)| else 0, 4
  {
    if o.Blank? then Unfold(c, g, o) else Text(o.text)
  }

  /** A blank node as nested properties, without memory of what was expanded elsewhere. */
  ghost function Unfold(c: Codec, g: Graph, n: Term): Value
    requires Faithful(c) && n.Blank? && Acyclic(g, n)
    decreases |ReachSet(g, n)|, 3
  {
    var properties := PropertiesOf(c, g, n);
    Structure(properties, c.digest(properties))
  }

  ghost function PropertiesOf(c: Codec, g: Graph, n: Term): seq<Property>
    requires Faithful(c) && n.Blank? && Acyclic(g, n)
    decreases |ReachSet(g, n)|, 2
  {
    Catalogue(c, map key | key in Keys(g, n) :: ValuesAt(c, g, n, key))
  }

  ghost function ValuesAt(c: Codec, g: Graph, n: Term, key: string): set<Value>
    requires Faithful(c) && n.Blank? && Acyclic(g, n)
    decreases |ReachSet(g, n)|, 1
  {
    forall t | t in g && t.subject == n && t.obj.Blank?
      ensures Acyclic(g, t.obj) && |ReachSet(g, t.obj)| < |ReachSet(g, n)|
    {
      assert Triple(n, t.property, t.obj) == t;
      ChildIsSmaller(g, n, t.obj);
    }
    ReachesSelf(g, n);
    assert n in ReachSet(g, n);
    set t | t in g && t.subject == n && t.property == key :: ObjectValue(c, g, t.obj)
  }

  /** The triples whose subject a fresh expansion of root visits, when the nodes of done are cached. */
  ghost function FreshEdges(g: Graph, root: Term, done: set<Term>): set<Triple> {
    set t | t in g && t.subject in ReachSet(g, root) && t.subject !in done
  }

  /** The condition under which one root fails when the nodes of done are cached. */
  ghost predicate Refused(g: Graph, root: Term, done: set<Term>, limit: nat) {
    !Acyclic(g, root) || |FreshEdges(g, root, done)| > limit
  }

  /** The triples of a technique that the parser does not interpret. */
  function Unknown(g: Graph, subject: Term, known: set<string>): set<Triple> {
    set t | t in g && t.subject == subject && t.property !in known
  }
}

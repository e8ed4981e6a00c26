/** The recursion of _stable_blank_node_value with its shared cache, stack and edge budget. */
module BlankSession {
  import opened Wrappers
  import opened Ordering
  import opened BlankSpec
  import opened BlankCanonicalizer
  import opened BlankVisits
  import opened BlankFields

  // ----- the cache -----

  ghost predicate ClosedUnderEdges(g: Graph, S: set<Term>) {
    forall x, m :: x in S && Edge(g, x, m) ==> m in S
  }

  /** Cached values are unfoldings, and the cache is closed under following edges. */
  ghost predicate CacheInv(c: Codec, g: Graph, cache: map<Term, Value>)
    requires Faithful(c)
  {
    && (forall x :: x in cache ==> x.Blank? && Acyclic(g, x))
    && (forall x {:trigger Unfold(c, g, x)} :: x in cache ==> cache[x] == Unfold(c, g, x))
    && ClosedUnderEdges(g, cache.Keys)
  }

  lemma {:induction false} StepsStayClosed(g: Graph, S: set<Term>, x: Term, y: Term, k: nat)
    requires ClosedUnderEdges(g, S) && x in S && Steps(g, x, y, k)
    ensures y in S
    decreases k
  {
    if k > 0 {
      var m :| Edge(g, x, m) && Steps(g, m, y, k - 1);
      StepsStayClosed(g, S, m, y, k - 1);
    }
  }

  lemma ReachStaysClosed(g: Graph, S: set<Term>, x: Term)
    requires ClosedUnderEdges(g, S) && x in S
    ensures ReachSet(g, x) <= S
  {
    forall y | Reaches(g, x, y) ensures y in S {
      var k: nat :| Steps(g, x, y, k);
      StepsStayClosed(g, S, x, y, k);
    }
  }

  // ----- the work below one root -----

  /** The durable part of the traversal: the cache, the nodes being expanded, the edges charged so far. */
  datatype Work = Work(cache: map<Term, Value>, stack: set<Term>, counted: set<Triple>)

  /** Charged edges leave nodes on the stack or newly cached, all below the root. */
  ghost predicate Charged(g: Graph, root: Term, start: set<Term>, w: Work) {
    forall t :: t in w.counted ==>
      t in g && Reaches(g, root, t.subject) && t.subject !in start && (t.subject in w.stack || t.subject in w.cache)
  }

  ghost predicate WorkInv(c: Codec, g: Graph, root: Term, start: set<Term>, w: Work)
    requires Faithful(c)
  {
    CacheInv(c, g, w.cache) && start <= w.cache.Keys && w.stack !! w.cache.Keys && Charged(g, root, start, w)
  }

  /** n is about to be visited: it lies below the root and below everything being expanded. */
  ghost predicate Below(g: Graph, root: Term, stack: set<Term>, n: Term) {
    n.Blank? && Reaches(g, root, n) && forall x :: x in stack ==> Precedes(g, x, n)
  }

  lemma TooManyEdges(g: Graph, root: Term, start: set<Term>, w: Work, limit: nat)
    requires Charged(g, root, start, w) && |w.counted| > limit
    ensures Refused(g, root, start, limit)
  {
    assert w.counted <= FreshEdges(g, root, start);
    Smaller(w.counted, FreshEdges(g, root, start));
  }

  ghost predicate CacheGrew(g: Graph, n: Term, a: map<Term, Value>, b: map<Term, Value>) {
    && (forall x :: x in a ==> x in b && b[x] == a[x])
    && (forall x :: x in b && x !in a ==> Reaches(g, n, x))
  }

  /** What a successful visit of n turns work a into. */
  ghost predicate Visited(c: Codec, g: Graph, root: Term, start: set<Term>, n: Term, v: Value, a: Work, b: Work)
    requires Faithful(c)
  {
    && WorkInv(c, g, root, start, b)
    && b.stack == a.stack
    && n in b.cache && v == b.cache[n]
    && CacheGrew(g, n, a.cache, b.cache)
    && ChargedSince(g, a, b, [])
  }

  /** The charges between a and b: the triples of the nodes cached in between, and those in done. */
  ghost predicate ChargedSince(g: Graph, a: Work, b: Work, done: seq<Triple>) {
    forall t :: t in b.counted <==>
      t in a.counted || (t in g && t.subject in b.cache && t.subject !in a.cache) || t in done
  }

  lemma AlreadyCached(c: Codec, g: Graph, root: Term, start: set<Term>, n: Term, w: Work)
    requires Faithful(c) && WorkInv(c, g, root, start, w) && n in w.cache
    ensures Visited(c, g, root, start, n, w.cache[n], w, w)
  {
  }

  /** Halfway through the triples of n: those in done are charged and their objects serialised. */
  ghost predicate Midway(c: Codec, g: Graph, root: Term, start: set<Term>, n: Term, a: Work, w: Work, done: seq<Triple>)
    requires Faithful(c)
  {
    && WorkInv(c, g, root, start, w)
    && w.stack == a.stack + {n} && n !in a.stack && n !in a.cache
    && CacheGrew(g, n, a.cache, w.cache)
    && (forall t :: t in done ==> t in g && t.subject == n && (t.obj.Blank? ==> t.obj in w.cache))
    && ChargedSince(g, a, w, done)
  }

  lemma Enter(c: Codec, g: Graph, root: Term, start: set<Term>, n: Term, a: Work)
    requires Faithful(c) && WorkInv(c, g, root, start, a) && n !in a.cache && n !in a.stack
    ensures Midway(c, g, root, start, n, a, a.(stack := a.stack + {n}), [])
  {
  }

  /** Charging the next triple. */
  lemma Charge(c: Codec, g: Graph, root: Term, start: set<Term>, n: Term, a: Work, w: Work, done: seq<Triple>,
               t: Triple)
    requires Faithful(c) && WorkInv(c, g, root, start, a) && Midway(c, g, root, start, n, a, w, done)
    requires Below(g, root, a.stack, n) && t in g && t.subject == n && t !in done
    ensures t !in w.counted
    ensures WorkInv(c, g, root, start, w.(counted := w.counted + {t}))
    ensures t.obj.Blank? ==> Below(g, root, w.stack, t.obj)
  {
    if t.obj.Blank? {
      assert Triple(n, t.property, t.obj) == t;
      assert Edge(g, n, t.obj);
      ReachesEdge(g, root, n, t.obj);
      ReachesSelf(g, n);
      ReachesEdge(g, n, n, t.obj);
      forall x | x in w.stack ensures Precedes(g, x, t.obj) {
        if x != n {
          PrecedesReaches(g, x, n);
          ReachesEdge(g, x, n, t.obj);
        }
      }
    }
  }

  lemma NextNamed(c: Codec, g: Graph, root: Term, start: set<Term>, n: Term, a: Work, w: Work, done: seq<Triple>,
                  t: Triple)
    requires Faithful(c) && Midway(c, g, root, start, n, a, w, done) && t in g && t.subject == n && !t.obj.Blank?
    requires WorkInv(c, g, root, start, w.(counted := w.counted + {t}))
    ensures Midway(c, g, root, start, n, a, w.(counted := w.counted + {t}), done + [t])
  {
  }

  lemma NextBlank(c: Codec, g: Graph, root: Term, start: set<Term>, n: Term, a: Work, w: Work, done: seq<Triple>,
                  t: Triple,
                  v: Value, b: Work)
    requires Faithful(c) && Midway(c, g, root, start, n, a, w, done) && t in g && t.subject == n && t.obj.Blank?
    requires n.Blank? && Visited(c, g, root, start, t.obj, v, w.(counted := w.counted + {t}), b)
    ensures Midway(c, g, root, start, n, a, b, done + [t])
  {
    assert Triple(n, t.property, t.obj) == t;
    assert Edge(g, n, t.obj);
    forall x | x in b.cache && x !in a.cache ensures Reaches(g, n, x) {
      if x !in w.cache { EdgeThenReaches(g, n, t.obj, x); }
    }
  }

  lemma CacheOneMore(c: Codec, g: Graph, cache: map<Term, Value>, n: Term)
    requires Faithful(c) && n.Blank? && CacheInv(c, g, cache)
    requires forall m :: Edge(g, n, m) ==> m in cache
    ensures Acyclic(g, n) && CacheInv(c, g, cache[n := Unfold(c, g, n)])
  {
    forall m | Edge(g, n, m) ensures Acyclic(g, m) { assert m in cache; }
    AcyclicFromChildren(g, n);
  }

  lemma ChildrenCached(c: Codec, g: Graph, root: Term, start: set<Term>, n: Term, a: Work, w: Work, done: seq<Triple>)
    requires Faithful(c) && n.Blank? && Midway(c, g, root, start, n, a, w, done)
    requires forall t :: t in done <==> t in g && t.subject == n
    ensures Acyclic(g, n) && n !in w.cache && CacheInv(c, g, w.cache[n := Unfold(c, g, n)])
    ensures CacheGrew(g, n, a.cache, w.cache[n := Unfold(c, g, n)])
  {
    forall m | Edge(g, n, m) ensures m in w.cache {
      var p :| Triple(n, p, m) in g;
      assert Triple(n, p, m) in done;
    }
    CacheOneMore(c, g, w.cache, n);
    ReachesSelf(g, n);
    assert n in w.stack;
  }

  lemma LeavingCharges(g: Graph, root: Term, start: set<Term>, n: Term, a: Work, w: Work, cache: map<Term, Value>)
    requires Charged(g, root, start, w) && w.stack == a.stack + {n} && cache.Keys == w.cache.Keys + {n}
    ensures Charged(g, root, start, Work(cache, a.stack, w.counted))
  {
  }

  lemma LeavingSince(g: Graph, n: Term, a: Work, w: Work, done: seq<Triple>, b: Work)
    requires ChargedSince(g, a, w, done) && n !in a.cache && forall t :: t in done <==> t in g && t.subject == n
    requires b.cache.Keys == w.cache.Keys + {n} && b.counted == w.counted
    ensures ChargedSince(g, a, b, [])
  {
    forall t: Triple ensures t.subject in b.cache <==> t.subject in w.cache || t.subject == n {
      assert t.subject in b.cache.Keys <==> t.subject in w.cache.Keys || t.subject == n;
    }
  }

  /** All triples of n done: n is acyclic and may be cached. */
  lemma Leave(c: Codec, g: Graph, root: Term, start: set<Term>, n: Term, a: Work, w: Work, done: seq<Triple>)
    requires Faithful(c) && n.Blank? && WorkInv(c, g, root, start, a) && Midway(c, g, root, start, n, a, w, done)
    requires forall t :: t in done <==> t in g && t.subject == n
    ensures Acyclic(g, n)
    ensures var v := Unfold(c, g, n);
            Visited(c, g, root, start, n, v, a, Work(w.cache[n := v], a.stack, w.counted))
  {
    ChildrenCached(c, g, root, start, n, a, w, done);
    var cache := w.cache[n := Unfold(c, g, n)];
    assert cache.Keys == w.cache.Keys + {n};
    LeavingCharges(g, root, start, n, a, w, cache);
    var b := Work(cache, a.stack, w.counted);
    LeavingSince(g, n, a, w, done, b);
    assert b.stack !! b.cache.Keys;
  }

  /** Blank objects sort as the empty string, so they tie. */
  predicate TripleLess(a: Triple, b: Triple) {
    TupleLess([a.property, if a.obj.Blank? then "" else a.obj.text], [b.property,
        if b.obj.Blank? then "" else b.obj.text])
  }

  /** The value of a node whose triples have been gathered. */
  method Assemble(c: Codec, ghost g: Graph, ghost n: Term, props: map<string, seq<Value>>) returns (v: Value)
    requires Faithful(c) && n.Blank? && Acyclic(g, n) && Catalogue(c, AsSets(props)) == PropertiesOf(c, g, n)
    ensures v == Unfold(c, g, n)
  {
    var properties := Finish(c, props);
    v := Structure(properties, c.digest(properties));
  }

  class Canonicalizer {
    const c: Codec
    const g: Graph
    const limit: nat
    var cache: map<Term, Value>
    var stack: set<Term>
    var edges: nat
    ghost var counted: set<Triple>

    constructor (c: Codec, g: Graph, limit: nat)
      requires Faithful(c)
      ensures this.c == c && this.g == g && this.limit == limit
      ensures cache == map[] && Valid()
    {
      this.c, this.g, this.limit := c, g, limit;
      cache, stack, edges, counted := map[], {}, 0, {};
    }

    /** Between roots. */
    ghost predicate Valid()
      reads this
    {
      Faithful(c) && CacheInv(c, g, cache)
    }

    ghost function Now(): Work
      reads this
    {
      Work(cache, stack, counted)
    }

    ghost predicate Budgeted()
      reads this
    {
      |counted| == edges <= limit
    }

    /** The triples of n sorted by property and text; ties keep an arbitrary order. */
    method SortedTriples(n: Term) returns (s: seq<Triple>)
      ensures NoDup(s) && forall t :: t in s <==> t in g && t.subject == n
    {
      var listing := Enumerate(set t | t in g && t.subject == n);
      s := Sort(TripleLess, listing);
      MultisetNoDup(listing, s);
      SameElements(listing, s);
    }

    /** _stable_blank_node_value below some root. */
    method Visit(n: Term, ghost root: Term, ghost start: set<Term>) returns (r: Result<Value>)
      requires Faithful(c) && WorkInv(c, g, root, start, Now()) && Budgeted()
      requires Below(g, root, stack, n)
      modifies this`cache, this`stack, this`edges, this`counted
      ensures r.Ok? ==> Budgeted() && Visited(c, g, root, start, n, r.value, old(Now()), Now())
      ensures r.Err? ==> Valid() && Refused(g, root, start, limit)
      decreases ReachSet(g, root) - stack, 0
    {
      if n in cache {
        AlreadyCached(c, g, root, start, n, Now());
        return Ok(cache[n]);
      }
      if n in stack { return Err("blank-node structure contains a cycle"); }
      ghost var a := Now();
      stack := stack + {n};
      Enter(c, g, root, start, n, a);
      var gathered, triples := Expand(n, root, start, a);
      if gathered.Err? { return Err(gathered.error); }
      var result := Remember(n, gathered.value, root, start, a, triples);
      r := Ok(result);
    }

    /** The end of a visit: off the stack, into the cache. */
    method Remember(n: Term, props: map<string, seq<Value>>, ghost root: Term, ghost start: set<Term>, ghost a: Work,
                    ghost triples: seq<Triple>)
      returns (result: Value)
      requires Faithful(c) && n.Blank? && WorkInv(c, g, root, start, a)
      requires Midway(c, g, root, start, n, a, Now(), triples)
      requires forall t :: t in triples <==> t in g && t.subject == n
      requires Acyclic(g, n) && Catalogue(c, AsSets(props)) == PropertiesOf(c, g, n)
      modifies this`cache, this`stack
      ensures Visited(c, g, root, start, n, result, a, Now())
    {
      ghost var w := Now();
      Leave(c, g, root, start, n, a, w, triples);
      stack := stack - {n};
      assert stack == a.stack;
      result := Assemble(c, g, n, props);
      cache := cache[n := result];
    }

    /** The loop over the sorted triples of n. */
    method Expand(n: Term, ghost root: Term, ghost start: set<Term>, ghost a: Work)
      returns (r: Result<map<string, seq<Value>>>, ghost triples: seq<Triple>)
      requires Faithful(c) && WorkInv(c, g, root, start, a) && Below(g, root, a.stack, n) && Budgeted()
      requires Midway(c, g, root, start, n, a, Now(), [])
      modifies this`cache, this`stack, this`edges, this`counted
      ensures forall t :: t in triples <==> t in g && t.subject == n
      ensures r.Ok? ==> Budgeted() && Midway(c, g, root, start, n, a, Now(), triples)
      ensures r.Ok? ==> Acyclic(g, n) && Catalogue(c, AsSets(r.value)) == PropertiesOf(c, g, n)
      ensures r.Err? ==> Valid() && Refused(g, root, start, limit)
      decreases ReachSet(g, root) - stack, 2
    {
      var listing := SortedTriples(n);
      triples := listing;
      var props: map<string, seq<Value>> := map[];
      assert listing[..0] == [];
      for k := 0 to |listing|
        invariant Budgeted() && Midway(c, g, root, start, n, a, Now(), listing[..k])
        invariant ObjectsAcyclic(g, listing[..k]) && Collected(c, g, props, listing[..k])
      {
        NextTriple(listing, k);
        var value := Charge1(n, listing[k], root, start, a, listing[..k]);
        if value.Err? { return Err(value.error), triples; }
        var t := listing[k];
        CollectOne(c, g, props, listing[..k], t, value.value);
        props := props[t.property := Listed(props, t.property) + [value.value]];
      }
      assert listing[..|listing|] == listing;
      Leave(c, g, root, start, n, a, Now(), triples);
      CollectedIsComplete(c, g, n, props, triples);
      r := Ok(props);
    }

    /** One edge: charge the budget, then serialise its object. */
    method Charge1(n: Term, t: Triple, ghost root: Term, ghost start: set<Term>, ghost a: Work, ghost done: seq<Triple>)
      returns (r: Result<Value>)
      requires Faithful(c) && WorkInv(c, g, root, start, a) && Below(g, root, a.stack, n) && Budgeted()
      requires Midway(c, g, root, start, n, a, Now(), done) && t in g && t.subject == n && t !in done
      modifies this`cache, this`stack, this`edges, this`counted
      ensures r.Ok? ==> Budgeted() && Midway(c, g, root, start, n, a, Now(), done + [t])
      ensures r.Ok? ==> (t.obj.Blank? ==> Acyclic(g, t.obj)) && r.value == ObjectValue(c, g, t.obj)
      ensures r.Err? ==> Valid() && Refused(g, root, start, limit)
      decreases ReachSet(g, root) - stack, 1
    {
      ghost var w := Now();
      Charge(c, g, root, start, n, a, w, done, t);
      edges := edges + 1;
      counted := counted + {t};
      if edges > limit {
        TooManyEdges(g, root, start, Now(), limit);
        return Err("blank-node structure exceeds bounded parser limit");
      }
      if t.obj.Blank? {
        r := Visit(t.obj, root, start);
        if r.Ok? {
          NextBlank(c, g, root, start, n, a, w, done, t, r.value, Now());
        }
      } else {
        NextNamed(c, g, root, start, n, a, w, done, t);
        r := Ok(Text(t.obj.text));
      }
    }
  
    /** _stable_blank_node_value as called for a root: an empty stack, a fresh budget, the shared cache.
        It succeeds exactly when no cycle is reachable and the nodes not yet cached have few enough edges,
        and then it returns the plain unfolding. */
    method StableValue(root: Term) returns (r: Result<Value>)
      requires Valid() && root.Blank?
      modifies this`cache, this`stack, this`edges, this`counted
      ensures Valid()
      ensures r.Ok? <==> !Refused(g, root, old(cache.Keys), limit)
      ensures r.Ok? ==> r.value == Unfold(c, g, root)
      ensures r.Ok? ==> cache.Keys == old(cache.Keys) + ReachSet(g, root)
    {
      ghost var start := cache.Keys;
      stack, edges, counted := {}, 0, {};
      ReachesSelf(g, root);
      ghost var a := Now();
      r := Visit(root, root, start);
      if r.Ok? {
        ReachStaysClosed(g, cache.Keys, root);
        assert FreshEdges(g, root, start) <= counted;
        Smaller(FreshEdges(g, root, start), counted);
        assert cache.Keys == start + ReachSet(g, root);
      }
    }

    /** The loop over the predicates of one technique: known ones are skipped, the rest serialised, in whatever
        order the graph lists them. */
    method RecordFields(subject: Term, known: set<string>) returns (r: Result<seq<Property>>,
                        ghost triples: seq<Triple>)
      requires Valid()
      modifies this`cache, this`stack, this`edges, this`counted
      ensures Valid() && Lists(triples, Unknown(g, subject, known))
      ensures r.Ok? <==> Accepted(g, Roots(triples), old(cache.Keys), limit)
      ensures r.Ok? ==> cache.Keys == old(cache.Keys) + ReachAll(g, Roots(triples))
      ensures r.Ok? ==> IsRecord(c, g, subject, known, r.value)
      ensures forall t :: t in triples <==> t in g && t.subject == subject && t.property !in known
      ensures r.Ok? ==> HoldsFields(c, g, subject, known, r.value)
    {
      var listing := Enumerate(Unknown(g, subject, known));
      triples := listing;
      var props := GatherUnknown(listing);
      if props.Err? { return Err(props.error), triples; }
      UnknownIsComplete(c, g, subject, known, props.value, listing);
      var fields := Finish(c, props.value);
      UnknownFieldsMean(c, g, subject, known);
      r := Ok(fields);
    }

    /** The values of the listed triples, by predicate. */
    method GatherUnknown(listing: seq<Triple>) returns (r: Result<map<string, seq<Value>>>)
      requires Valid() && NoDup(listing) && forall t :: t in listing ==> t in g
      modifies this`cache, this`stack, this`edges, this`counted
      ensures Valid()
      ensures r.Ok? <==> Accepted(g, Roots(listing), old(cache.Keys), limit)
      ensures r.Ok? ==> cache.Keys == old(cache.Keys) + ReachAll(g, Roots(listing))
      ensures r.Ok? ==> ObjectsAcyclic(g, listing) && Collected(c, g, r.value, listing)
    {
      ghost var start := cache.Keys;
      var props: map<string, seq<Value>> := map[];
      assert listing[..0] == [];
      for k := 0 to |listing|
        invariant Valid() && ObjectsAcyclic(g, listing[..k]) && Collected(c, g, props, listing[..k])
        invariant HasVisited(g, Roots(listing[..k]), start, limit, cache.Keys)
      {
        NextTriple(listing, k);
        NextRoot(g, listing, k, start, limit, cache.Keys);
        var value := UnknownValue(listing[k].obj);
        if value.Err? { return Err(value.error); }
        CollectOne(c, g, props, listing[..k], listing[k], value.value);
        props := props[listing[k].property := Listed(props, listing[k].property) + [value.value]];
      }
      assert listing[..|listing|] == listing;
      r := Ok(props);
    }

    /** _stable_unknown_value */
    method UnknownValue(o: Term) returns (r: Result<Value>)
      requires Valid()
      modifies this`cache, this`stack, this`edges, this`counted
      ensures Valid()
      ensures r.Ok? <==> o.Blank? ==> !Refused(g, o, old(cache.Keys), limit)
      ensures r.Ok? ==> (o.Blank? ==> Acyclic(g, o)) && r.value == ObjectValue(c, g, o)
      ensures r.Ok? ==> cache.Keys == old(cache.Keys) + if o.Blank? then ReachSet(g, o) else {}
    {
      if o.Blank? { r := StableValue(o); } else { r := Ok(Text(o.text)); }
    }

    /** unknown_fields of every technique, in the given order, through one shared cache. */
    method UnknownFieldsOfAll(subjects: seq<Term>, known: set<string>)
      returns (r: Result<seq<seq<Property>>>, ghost order: seq<seq<Triple>>)
      requires Valid()
      modifies this`cache, this`stack, this`edges, this`counted
      ensures Valid() && IsOrder(g, subjects, known, order)
      ensures forall k, t :: 0 <= k < |subjects| ==>
        (t in order[k] <==> t in g && t.subject == subjects[k] && t.property !in known)
      ensures r.Ok? <==> Accepted(g, AllRoots(order), old(cache.Keys), limit)
      ensures r.Ok? ==> AreRecords(c, g, subjects, known, r.value)
      ensures r.Ok? ==>
        && |r.value| == |subjects|
        && forall i :: 0 <= i < |subjects| ==> HoldsFields(c, g, subjects[i], known, r.value[i])
    {
      ghost var start := cache.Keys;
      var records: seq<seq<Property>> := [];
      order := [];
      for k := 0 to |subjects|
        invariant Valid() && AreRecords(c, g, subjects[..k], known, records)
        invariant IsOrder(g, subjects[..k], known, order)
        invariant HasVisited(g, AllRoots(order), start, limit, cache.Keys)
      {
        ghost var triples, keys := [], cache.Keys;
        var fields;
        fields, triples := RecordFields(subjects[k], known);
        NextSubject(subjects, k);
        OneMoreOrder(g, subjects[..k], known, order, subjects[k], triples, start, limit, keys);
        order := order + [triples];
        if fields.Err? {
          order := RefusedAnyway(g, subjects, known, order, start, limit);
          return Err(fields.error), order;
        }
        OneMoreRecord(c, g, subjects[..k], known, records, subjects[k], fields.value);
        records := records + [fields.value];
      }
      assert subjects[..|subjects|] == subjects;
      forall i | 0 <= i < |subjects| ensures HoldsFields(c, g, subjects[i], known, records[i]) {
        assert IsRecord(c, g, subjects[i], known, records[i]);
        UnknownFieldsMean(c, g, subjects[i], known);
      }
      r := Ok(records);
    }
  }

  ghost predicate UnknownAcyclic(g: Graph, subject: Term, known: set<string>) {
    forall t :: t in Unknown(g, subject, known) && t.obj.Blank? ==> Acyclic(g, t.obj)
  }

  ghost function UnknownKeys(g: Graph, subject: Term, known: set<string>): set<string> {
    set t | t in Unknown(g, subject, known) :: t.property
  }

  ghost function UnknownAt(c: Codec, g: Graph, subject: Term, known: set<string>, key: string): set<Value>
    requires Faithful(c) && UnknownAcyclic(g, subject, known)
  {
    set t | t in Unknown(g, subject, known) && t.property == key :: ObjectValue(c, g, t.obj)
  }

  /** unknown_fields of one record, from the graph alone. */
  ghost function UnknownFields(c: Codec, g: Graph, subject: Term, known: set<string>): seq<Property>
    requires Faithful(c) && UnknownAcyclic(g, subject, known)
  {
    Catalogue(c, map key | key in UnknownKeys(g, subject, known) :: UnknownAt(c, g, subject, known, key))
  }

  lemma UnknownKeyMeans(g: Graph, subject: Term, known: set<string>, key: string)
    ensures key in UnknownKeys(g, subject, known) <==> key !in known && HasTriple(g, subject, key)
  {
    if t :| t in g && t.subject == subject && t.property == key && key !in known {
      assert t in Unknown(g, subject, known);
    }
  }

  lemma UnknownValueMeans(c: Codec, g: Graph, subject: Term, known: set<string>, key: string, v: Value)
    requires Faithful(c) && UnknownAcyclic(g, subject, known) && key !in known
    ensures v in UnknownAt(c, g, subject, known, key) <==> HasValue(c, g, subject, key, v)
  {
    if v in UnknownAt(c, g, subject, known, key) {
      var t :| t in Unknown(g, subject, known) && t.property == key && v == ObjectValue(c, g, t.obj);
      assert MakesValue(c, g, subject, key, v, t);
    }
    if t :| MakesValue(c, g, subject, key, v, t) {
      assert t in Unknown(g, subject, known);
    }
  }

  lemma UnknownFieldsMean(c: Codec, g: Graph, subject: Term, known: set<string>)
    requires Faithful(c) && UnknownAcyclic(g, subject, known)
    ensures HoldsFields(c, g, subject, known, UnknownFields(c, g, subject, known))
  {
    var m := map key | key in UnknownKeys(g, subject, known) :: UnknownAt(c, g, subject, known, key);
    CatalogueMeans(c, m);
    forall key ensures key in m <==> key !in known && HasTriple(g, subject, key) {
      UnknownKeyMeans(g, subject, known, key);
    }
    forall key, v | key in m ensures v in m[key] <==> HasValue(c, g, subject, key, v) {
      UnknownValueMeans(c, g, subject, known, key, v);
    }
    FieldsOfCatalogue(c, g, subject, known, m, UnknownFields(c, g, subject, known));
  }

  ghost predicate IsRecord(c: Codec, g: Graph, subject: Term, known: set<string>, fields: seq<Property>)
    requires Faithful(c)
  {
    UnknownAcyclic(g, subject, known) && fields == UnknownFields(c, g, subject, known)
  }

  ghost predicate AreRecords(c: Codec, g: Graph, subjects: seq<Term>, known: set<string>, records: seq<seq<Property>>)
    requires Faithful(c)
  {
    |records| == |subjects| && forall i :: 0 <= i < |subjects| ==> IsRecord(c, g, subjects[i], known, records[i])
  }

  lemma OneMoreRecord(c: Codec, g: Graph, subjects: seq<Term>, known: set<string>, records: seq<seq<Property>>,
                      subject: Term, fields: seq<Property>)
    requires Faithful(c) && AreRecords(c, g, subjects, known, records) && IsRecord(c, g, subject, known, fields)
    ensures AreRecords(c, g, subjects + [subject], known, records + [fields])
  {
    var s, r := subjects + [subject], records + [fields];
    forall i | 0 <= i < |s| ensures IsRecord(c, g, s[i], known, r[i]) {
      if i < |subjects| { assert IsRecord(c, g, subjects[i], known, records[i]); }
    }
  }

  lemma UnknownIsComplete(c: Codec, g: Graph, subject: Term, known: set<string>, props: map<string, seq<Value>>,
                          triples: seq<Triple>)
    requires Faithful(c) && ObjectsAcyclic(g, triples)
    requires forall t :: t in triples <==> t in Unknown(g, subject, known)
    requires Collected(c, g, props, triples)
    ensures UnknownAcyclic(g, subject, known)
    ensures Catalogue(c, AsSets(props)) == UnknownFields(c, g, subject, known)
  {
    var m := map key | key in UnknownKeys(g, subject, known) :: UnknownAt(c, g, subject, known, key);
    assert props.Keys == UnknownKeys(g, subject, known);
    forall key | key in props ensures AsSets(props)[key] == m[key] {
      assert props[key] == Listed(props, key);
    }
    assert AsSets(props) == m;
  }

  ghost predicate ObjectsAcyclic(g: Graph, triples: seq<Triple>) {
    forall t :: t in triples && t.obj.Blank? ==> Acyclic(g, t.obj)
  }

  lemma NextSubject(subjects: seq<Term>, k: nat)
    requires k < |subjects|
    ensures subjects[..k + 1] == subjects[..k] + [subjects[k]]
  {
  }

  lemma NextTriple(triples: seq<Triple>, k: nat)
    requires NoDup(triples) && k < |triples|
    ensures triples[..k + 1] == triples[..k] + [triples[k]] && triples[k] !in triples[..k] && triples[k] in triples
  {
  }
}

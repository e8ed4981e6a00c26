/** _stable_blank_node_value: a memoised depth-first traversal with a cycle stack and an edge budget,
    proved against the plain unfolding of BlankSpec. */
module BlankCanonicalizer {
  import opened Wrappers
  import opened Ordering
  import opened BlankSpec

  ghost predicate KeyedByJson(c: Codec, keyed: map<string, Value>, values: seq<Value>) {
    && (forall key :: key in keyed ==> keyed[key] in values && c.json(keyed[key]) == key)
    && (forall v :: v in values ==> c.json(v) in keyed)
  }

  lemma KeyedInOrder(c: Codec, keyed: map<string, Value>, values: seq<Value>, ks: seq<string>, s: seq<Value>)
    requires Faithful(c) && KeyedByJson(c, keyed, values) && ks == SortedStrings(keyed.Keys)
    requires |s| == |ks| && forall i :: 0 <= i < |ks| ==> ks[i] in keyed && s[i] == keyed[ks[i]]
    ensures s == InOrder(c, set v | v in values)
  {
    var S := set v | v in values;
    forall v ensures v in s <==> v in S {
      if v in s {
        var i :| 0 <= i < |s| && s[i] == v;
        assert ks[i] in keyed;
      }
      if v in S {
        assert c.json(v) in ks;
        var i :| 0 <= i < |ks| && ks[i] == c.json(v);
        assert c.json(s[i]) == c.json(v);
      }
    }
    forall i | 0 <= i < |s| ensures c.json(s[i]) == ks[i] { assert ks[i] in keyed; }
    ByJsonOrder(c);
    ArrangeUnique(ByJson(c), s, InOrder(c, S), S);
  }

  function Picked(keyed: map<string, Value>, ks: seq<string>): (s: seq<Value>)
    requires forall key :: key in ks ==> key in keyed
    ensures |s| == |ks| && forall i :: 0 <= i < |s| ==> ks[i] in keyed && s[i] == keyed[ks[i]]
  {
    seq(|ks|, i requires 0 <= i < |ks| => assert ks[i] in ks; keyed[ks[i]])
  }

  /** Keyed by JSON text, then listed in the order of the texts. */
  method SortedDistinct(c: Codec, values: seq<Value>) returns (s: seq<Value>)
    requires Faithful(c)
    ensures s == InOrder(c, set v | v in values)
  {
    var keyed: map<string, Value> := map[];
    for k := 0 to |values|
      invariant KeyedByJson(c, keyed, values[..k])
    {
      keyed := keyed[c.json(values[k]) := values[k]];
      assert values[..k + 1] == values[..k] + [values[k]];
    }
    assert values[..|values|] == values;
    var ks := SortStrings(keyed.Keys);
    s := Picked(keyed, ks);
    KeyedInOrder(c, keyed, values, ks, s);
  }

  function Listed(m: map<string, seq<Value>>, key: string): seq<Value> { if key in m then m[key] else [] }

  /** props holds, under each property, the values of the given triples. */
  ghost predicate Collected(c: Codec, g: Graph, props: map<string, seq<Value>>, triples: seq<Triple>)
    requires Faithful(c) && forall t :: t in triples && t.obj.Blank? ==> Acyclic(g, t.obj)
  {
    && (forall key :: key in props <==> exists t :: t in triples && t.property == key)
    && (forall key, v :: v in Listed(props, key) <==>
          exists t :: t in triples && t.property == key && v == ObjectValue(c, g, t.obj))
  }

  lemma CollectOne(c: Codec, g: Graph, props: map<string, seq<Value>>, triples: seq<Triple>, t: Triple, v: Value)
    requires Faithful(c) && forall u :: u in triples + [t] && u.obj.Blank? ==> Acyclic(g, u.obj)
    requires Collected(c, g, props, triples) && v == ObjectValue(c, g, t.obj)
    ensures Collected(c, g, props[t.property := Listed(props, t.property) + [v]], triples + [t])
  {
    var more := props[t.property := Listed(props, t.property) + [v]];
    assert t in triples + [t];
    forall key ensures key in more <==> exists u :: u in triples + [t] && u.property == key {
      if key in props {
        var u :| u in triples && u.property == key;
        assert u in triples + [t];
      }
    }
    forall key, w ensures w in Listed(more, key) <==>
        exists u :: u in triples + [t] && u.property == key && w == ObjectValue(c, g, u.obj)
    {
      if w in Listed(props, key) {
        var u :| u in triples && u.property == key && w == ObjectValue(c, g, u.obj);
        assert u in triples + [t];
      }
    }
  }

  ghost predicate ValuesSorted(c: Codec, props: map<string, seq<Value>>, done: map<string, seq<Value>>,
                               todo: set<string>)
    requires Faithful(c)
  {
    && todo <= props.Keys && done.Keys == props.Keys - todo
    && forall key :: key in done ==> done[key] == InOrder(c, set w | w in props[key])
  }

  /** Each property's values, distinct and in order. */
  method SortValues(c: Codec, props: map<string, seq<Value>>) returns (done: map<string, seq<Value>>)
    requires Faithful(c)
    ensures ValuesSorted(c, props, done, {})
  {
    done := map[];
    var todo := props.Keys;
    while todo != {}
      invariant ValuesSorted(c, props, done, todo)
      decreases todo
    {
      var key :| key in todo;
      var sorted := SortedDistinct(c, props[key]);
      done := done[key := sorted];
      todo := todo - {key};
    }
  }

  /** The values of each key as a set. */
  ghost function AsSets(props: map<string, seq<Value>>): map<string, set<Value>> {
    map key | key in props :: set w | w in props[key]
  }

  lemma CollectedIsComplete(c: Codec, g: Graph, n: Term, props: map<string, seq<Value>>, triples: seq<Triple>)
    requires Faithful(c) && n.Blank? && Acyclic(g, n)
    requires forall t :: t in triples <==> t in g && t.subject == n
    requires forall t :: t in triples && t.obj.Blank? ==> Acyclic(g, t.obj)
    requires Collected(c, g, props, triples)
    ensures Catalogue(c, AsSets(props)) == PropertiesOf(c, g, n)
  {
    var m := map key | key in Keys(g, n) :: ValuesAt(c, g, n, key);
    assert props.Keys == Keys(g, n);
    forall key | key in props ensures AsSets(props)[key] == m[key] {
      assert props[key] == Listed(props, key);
    }
    assert AsSets(props) == m;
  }

  function InKeyOrder(ks: seq<string>, done: map<string, seq<Value>>): (s: seq<Property>)
    requires forall i :: 0 <= i < |ks| ==> ks[i] in done
    ensures |s| == |ks| && forall i :: 0 <= i < |ks| ==> s[i] == Property(ks[i], done[ks[i]])
  {
    seq(|ks|, i requires 0 <= i < |ks| => Property(ks[i], done[ks[i]]))
  }

  /** The loop that sorts each property's values, and the final sort by property name. */
  method Finish(c: Codec, props: map<string, seq<Value>>) returns (s: seq<Property>)
    requires Faithful(c)
    ensures s == Catalogue(c, AsSets(props))
  {
    var done := SortValues(c, props);
    var ks := SortStrings(props.Keys);
    assert AsSets(props).Keys == props.Keys;
    forall i | 0 <= i < |ks| ensures ks[i] in done { assert ks[i] in props.Keys; }
    s := InKeyOrder(ks, done);
    forall i | 0 <= i < |ks| ensures s[i] == Catalogue(c, AsSets(props))[i] {
      assert ks[i] in done;
    }
  }
}

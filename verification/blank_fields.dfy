/** What serialised fields hold, triple by triple. */
module BlankFields {
  import opened Ordering
  import opened BlankSpec

  ghost predicate HasTriple(g: Graph, subject: Term, key: string) {
    exists t :: t in g && t.subject == subject && t.property == key
  }

  ghost predicate MakesValue(c: Codec, g: Graph, subject: Term, key: string, v: Value, t: Triple)
    requires Faithful(c)
  {
    && t in g && t.subject == subject && t.property == key
    && (t.obj.Blank? ==> Acyclic(g, t.obj)) && v == ObjectValue(c, g, t.obj)
  }

  ghost predicate HasValue(c: Codec, g: Graph, subject: Term, key: string, v: Value)
    requires Faithful(c)
  {
    exists t :: MakesValue(c, g, subject, key, v, t)
  }

  /** Keys by code point, once each; the values of a key by their JSON text, once each. */
  ghost predicate Tidy(c: Codec, fields: seq<Property>) {
    && (forall i, j :: 0 <= i < j < |fields| ==> StrBelow(fields[i].key, fields[j].key))
    && forall i :: 0 <= i < |fields| ==> TidyValues(c, fields[i].values)
  }

  ghost predicate TidyValues(c: Codec, values: seq<Value>) {
    forall a, b :: 0 <= a < b < |values| ==> StrBelow(c.json(values[a]), c.json(values[b]))
  }

  ghost predicate HasField(fields: seq<Property>, key: string) { exists i :: 0 <= i < |fields| && fields[i].key == key }

  /** The fields are the predicates of the subject that are not known, and each holds the values of its objects. */
  ghost predicate HoldsFields(c: Codec, g: Graph, subject: Term, known: set<string>, fields: seq<Property>)
    requires Faithful(c)
  {
    && Tidy(c, fields)
    && (forall key :: HasField(fields, key) <==> key !in known && HasTriple(g, subject, key))
    && forall i, v :: 0 <= i < |fields| ==> (v in fields[i].values <==> HasValue(c, g, subject, fields[i].key, v))
  }

  ghost predicate IsCatalogue(m: map<string, set<Value>>, fields: seq<Property>) {
    && (forall key :: HasField(fields, key) <==> key in m)
    && forall i, v :: 0 <= i < |fields| ==> fields[i].key in m && (v in fields[i].values <==> v in m[fields[i].key])
  }

  lemma ValuesAscend(c: Codec, s: seq<Value>, S: set<Value>)
    requires Faithful(c) && Arranges(ByJson(c), s, S)
    ensures TidyValues(c, s)
  {
    StrStrictTotal();
    forall a, b | 0 <= a < b < |s| ensures StrBelow(c.json(s[a]), c.json(s[b])) {
      assert s[a] != s[b] && !ByJson(c)(s[b], s[a]);
      assert c.json(s[a]) != c.json(s[b]);
      StrLessMeans(c.json(s[a]), c.json(s[b]));
    }
  }

  lemma KeysAscend(ks: seq<string>, S: set<string>)
    requires Arranges(StrLess, ks, S)
    ensures forall i, j :: 0 <= i < j < |ks| ==> StrBelow(ks[i], ks[j])
  {
    StrStrictTotal();
    forall i, j | 0 <= i < j < |ks| ensures StrBelow(ks[i], ks[j]) {
      assert ks[i] != ks[j] && !StrLess(ks[j], ks[i]);
      StrLessMeans(ks[i], ks[j]);
    }
  }

  lemma KeysOfCatalogue(m: map<string, set<Value>>, fields: seq<Property>, ks: seq<string>, key: string)
    requires |fields| == |ks| && (forall i :: 0 <= i < |ks| ==> fields[i].key == ks[i])
    requires forall k :: k in ks <==> k in m.Keys
    ensures HasField(fields, key) <==> key in m
  {
    if key in m {
      assert key in ks;
      var i :| 0 <= i < |ks| && ks[i] == key;
      assert fields[i].key == key;
    }
    if i :| 0 <= i < |fields| && fields[i].key == key { assert ks[i] in ks; }
  }

  lemma FieldOfCatalogue(c: Codec, m: map<string, set<Value>>, i: nat)
    requires Faithful(c) && i < |Catalogue(c, m)|
    ensures var x := Catalogue(c, m)[i];
            && TidyValues(c, x.values) && x.key == KeyList(m)[i] && x.key in m
            && forall v :: v in x.values <==> v in m[x.key]
  {
    ValuesAscend(c, Catalogue(c, m)[i].values, m[KeyList(m)[i]]);
  }

  lemma CatalogueMeans(c: Codec, m: map<string, set<Value>>)
    requires Faithful(c)
    ensures Tidy(c, Catalogue(c, m)) && IsCatalogue(m, Catalogue(c, m))
  {
    var fields, ks := Catalogue(c, m), KeyList(m);
    KeysAscend(ks, m.Keys);
    forall i | 0 <= i < |fields|
      ensures TidyValues(c, fields[i].values) && fields[i].key == ks[i] && fields[i].key in m
      ensures forall v :: v in fields[i].values <==> v in m[fields[i].key]
    {
      FieldOfCatalogue(c, m, i);
    }
    forall key ensures HasField(fields, key) <==> key in m { KeysOfCatalogue(m, fields, ks, key); }
  }

  lemma FieldsOfCatalogue(c: Codec, g: Graph, subject: Term, known: set<string>, m: map<string, set<Value>>,
                          fields: seq<Property>)
    requires Faithful(c) && Tidy(c, fields) && IsCatalogue(m, fields)
    requires forall key :: key in m <==> key !in known && HasTriple(g, subject, key)
    requires forall key, v :: key in m ==> (v in m[key] <==> HasValue(c, g, subject, key, v))
    ensures HoldsFields(c, g, subject, known, fields)
  {
  }

  lemma ValueAtMeans(c: Codec, g: Graph, n: Term, key: string, v: Value)
    requires Faithful(c) && n.Blank? && Acyclic(g, n)
    ensures v in ValuesAt(c, g, n, key) <==> HasValue(c, g, n, key, v)
  {
    forall t | t in g && t.subject == n && t.obj.Blank? ensures Acyclic(g, t.obj) {
      assert Triple(n, t.property, t.obj) == t;
      ChildIsSmaller(g, n, t.obj);
    }
    if v in ValuesAt(c, g, n, key) {
      var t :| t in g && t.subject == n && t.property == key && v == ObjectValue(c, g, t.obj);
      assert MakesValue(c, g, n, key, v, t);
    }
  }

  lemma KeyMeans(g: Graph, n: Term, key: string)
    ensures key in Keys(g, n) <==> HasTriple(g, n, key)
  {
  }

  lemma NodeFields(c: Codec, g: Graph, n: Term, m: map<string, set<Value>>)
    requires Faithful(c) && n.Blank? && Acyclic(g, n) && m.Keys == Keys(g, n)
    requires forall key :: key in m ==> m[key] == ValuesAt(c, g, n, key)
    ensures forall key :: key in m <==> key !in {} && HasTriple(g, n, key)
    ensures forall key, v :: key in m ==> (v in m[key] <==> HasValue(c, g, n, key, v))
  {
    forall key ensures key in m <==> HasTriple(g, n, key) { KeyMeans(g, n, key); }
    forall key, v | key in m ensures v in m[key] <==> HasValue(c, g, n, key, v) { ValueAtMeans(c, g, n, key, v); }
  }

  lemma PropertiesMean(c: Codec, g: Graph, n: Term)
    requires Faithful(c) && n.Blank? && Acyclic(g, n)
    ensures HoldsFields(c, g, n, {}, PropertiesOf(c, g, n))
  {
    var m := map key | key in Keys(g, n) :: ValuesAt(c, g, n, key);
    NodeFields(c, g, n, m);
    CatalogueMeans(c, m);
    FieldsOfCatalogue(c, g, n, {}, m, Catalogue(c, m));
  }

  /** The plain unfolding of a node holds all its triples in this way, and the digest of that. */
  lemma UnfoldMeans(c: Codec, g: Graph, n: Term)
    requires Faithful(c) && n.Blank? && Acyclic(g, n)
    ensures var v := Unfold(c, g, n);
            v.Structure? && HoldsFields(c, g, n, {}, v.properties) && v.digest == c.digest(v.properties)
  {
    PropertiesMean(c, g, n);
  }
}

/** Blank-node labels do not matter: section 3.6 of RDF 1.1 Concepts and Abstract Syntax identifies
    graphs that differ only by a renaming of blank nodes, and so does the serialisation. */
module BlankRename {
  import opened Ordering
  import opened BlankSpec
  import opened BlankSession

  type Renaming = string -> string

  ghost predicate Injective(r: Renaming) { forall a, b :: r(a) == r(b) ==> a == b }

  function RenameTerm(r: Renaming, t: Term): Term { if t.Blank? then Blank(r(t.name)) else t }

  function RenameTriple(r: Renaming, t: Triple): Triple {
    Triple(RenameTerm(r, t.subject), t.property, RenameTerm(r, t.obj))
  }

  ghost function Rename(r: Renaming, g: Graph): Graph { set t | t in g :: RenameTriple(r, t) }

  lemma TermInjective(r: Renaming, a: Term, b: Term)
    requires Injective(r) && RenameTerm(r, a) == RenameTerm(r, b)
    ensures a == b
  {
  }

  /** Every triple of the renamed graph around a renamed node comes from one of the graph. */
  lemma TripleBack(r: Renaming, g: Graph, a: Term, u: Triple) returns (t: Triple)
    requires Injective(r) && u in Rename(r, g) && u.subject == RenameTerm(r, a)
    ensures t in g && t.subject == a && u == RenameTriple(r, t)
  {
    t :| t in g && u == RenameTriple(r, t);
    TermInjective(r, t.subject, a);
  }

  lemma EdgeThere(r: Renaming, g: Graph, a: Term, b: Term)
    requires Edge(g, a, b)
    ensures Edge(Rename(r, g), RenameTerm(r, a), RenameTerm(r, b))
  {
    var p :| Triple(a, p, b) in g;
    assert RenameTriple(r, Triple(a, p, b)) in Rename(r, g);
  }

  lemma EdgeBack(r: Renaming, g: Graph, a: Term, y: Term) returns (b: Term)
    requires Injective(r) && Edge(Rename(r, g), RenameTerm(r, a), y)
    ensures y == RenameTerm(r, b) && Edge(g, a, b)
  {
    var p :| Triple(RenameTerm(r, a), p, y) in Rename(r, g);
    var t := TripleBack(r, g, a, Triple(RenameTerm(r, a), p, y));
    b := t.obj;
    assert Triple(a, p, b) == t;
  }

  lemma {:induction false} StepsThere(r: Renaming, g: Graph, a: Term, b: Term, k: nat)
    requires Steps(g, a, b, k)
    ensures Steps(Rename(r, g), RenameTerm(r, a), RenameTerm(r, b), k)
    decreases k
  {
    if k > 0 {
      var m :| Edge(g, a, m) && Steps(g, m, b, k - 1);
      EdgeThere(r, g, a, m);
      StepsThere(r, g, m, b, k - 1);
    }
  }

  lemma {:induction false} StepsBack(r: Renaming, g: Graph, a: Term, y: Term, k: nat) returns (b: Term)
    requires Injective(r) && Steps(Rename(r, g), RenameTerm(r, a), y, k)
    ensures y == RenameTerm(r, b) && Steps(g, a, b, k)
    decreases k
  {
    if k == 0 {
      b := a;
    } else {
      var z :| Edge(Rename(r, g), RenameTerm(r, a), z) && Steps(Rename(r, g), z, y, k - 1);
      var m := EdgeBack(r, g, a, z);
      b := StepsBack(r, g, m, y, k - 1);
    }
  }

  lemma ReachesThere(r: Renaming, g: Graph, a: Term, b: Term)
    requires Reaches(g, a, b)
    ensures Reaches(Rename(r, g), RenameTerm(r, a), RenameTerm(r, b))
  {
    var k: nat :| Steps(g, a, b, k);
    StepsThere(r, g, a, b, k);
  }

  lemma ReachesBack(r: Renaming, g: Graph, a: Term, y: Term) returns (b: Term)
    requires Injective(r) && Reaches(Rename(r, g), RenameTerm(r, a), y)
    ensures y == RenameTerm(r, b) && Reaches(g, a, b)
  {
    var k: nat :| Steps(Rename(r, g), RenameTerm(r, a), y, k);
    b := StepsBack(r, g, a, y, k);
  }

  lemma PrecedesRenamed(r: Renaming, g: Graph, a: Term)
    requires Injective(r)
    ensures Precedes(g, a, a) <==> Precedes(Rename(r, g), RenameTerm(r, a), RenameTerm(r, a))
  {
    if Precedes(g, a, a) {
      var m :| Edge(g, a, m) && Reaches(g, m, a);
      EdgeThere(r, g, a, m);
      ReachesThere(r, g, m, a);
    }
    if Precedes(Rename(r, g), RenameTerm(r, a), RenameTerm(r, a)) {
      var z :| Edge(Rename(r, g), RenameTerm(r, a), z) && Reaches(Rename(r, g), z, RenameTerm(r, a));
      var m := EdgeBack(r, g, a, z);
      var b := ReachesBack(r, g, m, RenameTerm(r, a));
      TermInjective(r, a, b);
    }
  }

  lemma AcyclicRenamed(r: Renaming, g: Graph, n: Term)
    requires Injective(r)
    ensures Acyclic(g, n) <==> Acyclic(Rename(r, g), RenameTerm(r, n))
  {
    if Acyclic(g, n) {
      forall y | Reaches(Rename(r, g), RenameTerm(r, n), y) ensures !Precedes(Rename(r, g), y, y) {
        var b := ReachesBack(r, g, n, y);
        PrecedesRenamed(r, g, b);
      }
    }
    if Acyclic(Rename(r, g), RenameTerm(r, n)) {
      forall x | Reaches(g, n, x) ensures !Precedes(g, x, x) {
        ReachesThere(r, g, n, x);
        PrecedesRenamed(r, g, x);
      }
    }
  }

  // ----- values -----

  lemma KeysRenamed(r: Renaming, g: Graph, n: Term)
    requires Injective(r)
    ensures Keys(Rename(r, g), RenameTerm(r, n)) == Keys(g, n)
  {
    forall key | key in Keys(Rename(r, g), RenameTerm(r, n)) ensures key in Keys(g, n) {
      var u :| u in Rename(r, g) && u.subject == RenameTerm(r, n) && u.property == key;
      var t := TripleBack(r, g, n, u);
    }
    forall key | key in Keys(g, n) ensures key in Keys(Rename(r, g), RenameTerm(r, n)) {
      var t :| t in g && t.subject == n && t.property == key;
      assert RenameTriple(r, t) in Rename(r, g);
    }
  }

  /** The unfolding of a renamed node in the renamed graph is the unfolding of the node. */
  lemma {:induction false} UnfoldRenamed(c: Codec, r: Renaming, g: Graph, n: Term)
    requires Faithful(c) && Injective(r) && n.Blank? && Acyclic(g, n)
    ensures Acyclic(Rename(r, g), RenameTerm(r, n))
    ensures Unfold(c, Rename(r, g), RenameTerm(r, n)) == Unfold(c, g, n)
    decreases |ReachSet(g, n)|, 1
  {
    AcyclicRenamed(r, g, n);
    KeysRenamed(r, g, n);
    var h, m := Rename(r, g), RenameTerm(r, n);
    forall key ensures ValuesAt(c, h, m, key) == ValuesAt(c, g, n, key) {
      ValuesRenamed(c, r, g, n, key);
    }
    SameProperties(c, h, m, g, n);
  }

  lemma SameProperties(c: Codec, h: Graph, m: Term, g: Graph, n: Term)
    requires Faithful(c) && n.Blank? && Acyclic(g, n) && m.Blank? && Acyclic(h, m)
    requires Keys(h, m) == Keys(g, n)
    requires forall key :: ValuesAt(c, h, m, key) == ValuesAt(c, g, n, key)
    ensures Unfold(c, h, m) == Unfold(c, g, n)
  {
    assert (map key | key in Keys(h, m) :: ValuesAt(c, h, m, key)) == (map key | key in Keys(g, n) :: ValuesAt(c, g,
        n, key));
    assert PropertiesOf(c, h, m) == PropertiesOf(c, g, n);
  }

  lemma {:induction false} ValuesRenamed(c: Codec, r: Renaming, g: Graph, n: Term, key: string)
    requires Faithful(c) && Injective(r) && n.Blank? && Acyclic(g, n)
    requires Acyclic(Rename(r, g), RenameTerm(r, n))
    ensures ValuesAt(c, Rename(r, g), RenameTerm(r, n), key) == ValuesAt(c, g, n, key)
    decreases |ReachSet(g, n)|, 0
  {
    var h, m := Rename(r, g), RenameTerm(r, n);
    forall t | t in g && t.subject == n
      ensures t.obj.Blank? ==> Acyclic(g, t.obj)
      ensures RenameTerm(r, t.obj).Blank? ==> Acyclic(h, RenameTerm(r, t.obj))
      ensures ObjectValue(c, h, RenameTerm(r, t.obj)) == ObjectValue(c, g, t.obj)
    {
      if t.obj.Blank? {
        assert Triple(n, t.property, t.obj) == t;
        ChildIsSmaller(g, n, t.obj);
        UnfoldRenamed(c, r, g, t.obj);
      }
    }
    forall v | v in ValuesAt(c, h, m, key) ensures v in ValuesAt(c, g, n, key) {
      var u :| u in h && u.subject == m && u.property == key && v == ObjectValue(c, h, u.obj);
      var t := TripleBack(r, g, n, u);
    }
    forall v | v in ValuesAt(c, g, n, key) ensures v in ValuesAt(c, h, m, key) {
      var t :| t in g && t.subject == n && t.property == key && v == ObjectValue(c, g, t.obj);
      assert RenameTriple(r, t) in h;
    }
  }

  // ----- the budget -----

  ghost function Image<T, U>(a: set<T>, f: T -> U): set<U> { set x | x in a :: f(x) }

  lemma {:induction false} ImageSize<T(!new), U>(a: set<T>, f: T -> U)
    requires forall x, y :: x in a && y in a && f(x) == f(y) ==> x == y
    ensures |Image(a, f)| == |a|
  {
    if a != {} {
      var x :| x in a;
      var rest := a - {x};
      ImageSize(rest, f);
      assert Image(a, f) == Image(rest, f) + {f(x)};
      assert f(x) !in Image(rest, f);
    }
  }

  lemma FreshEdgesRenamed(r: Renaming, g: Graph, root: Term)
    requires Injective(r)
    ensures |FreshEdges(Rename(r, g), RenameTerm(r, root), {})| == |FreshEdges(g, root, {})|
  {
    var h, top := Rename(r, g), RenameTerm(r, root);
    var E := FreshEdges(g, root, {});
    var f := (t: Triple) => RenameTriple(r, t);
    forall u | u in FreshEdges(h, top, {}) ensures u in Image(E, f) {
      var b := ReachesBack(r, g, root, u.subject);
      var t := TripleBack(r, g, b, u);
      assert t in E && f(t) == u;
    }
    forall t | t in E ensures f(t) in FreshEdges(h, top, {}) {
      ReachesThere(r, g, root, t.subject);
    }
    assert FreshEdges(h, top, {}) == Image(E, f);
    forall t, u | t in E && u in E && f(t) == f(u) ensures t == u {
      TermInjective(r, t.subject, u.subject);
      TermInjective(r, t.obj, u.obj);
    }
    ImageSize(E, f);
  }

  /** With a fresh cache, renaming blank nodes changes neither success nor the value. */
  lemma SerialisationIsLabelFree(c: Codec, r: Renaming, g: Graph, root: Term, limit: nat)
    requires Faithful(c) && Injective(r) && root.Blank?
    ensures Refused(Rename(r, g), RenameTerm(r, root), {}, limit) <==> Refused(g, root, {}, limit)
    ensures Acyclic(g, root) ==>
      Acyclic(Rename(r, g), RenameTerm(r, root)) && Unfold(c, Rename(r, g), RenameTerm(r, root)) == Unfold(c, g, root)
  {
    AcyclicRenamed(r, g, root);
    FreshEdgesRenamed(r, g, root);
    if Acyclic(g, root) { UnfoldRenamed(c, r, g, root); }
  }

  // ----- whole records -----

  lemma UnknownBack(r: Renaming, g: Graph, subject: Term, known: set<string>, u: Triple) returns (t: Triple)
    requires Injective(r) && !subject.Blank? && u in Unknown(Rename(r, g), subject, known)
    ensures t in Unknown(g, subject, known) && u == RenameTriple(r, t)
  {
    t := TripleBack(r, g, subject, u);
  }

  lemma UnknownThere(r: Renaming, g: Graph, subject: Term, known: set<string>, t: Triple)
    requires !subject.Blank? && t in Unknown(g, subject, known)
    ensures RenameTriple(r, t) in Unknown(Rename(r, g), subject, known)
  {
  }

  lemma ObjectRenamed(c: Codec, r: Renaming, g: Graph, o: Term)
    requires Faithful(c) && Injective(r) && (o.Blank? ==> Acyclic(g, o))
    ensures RenameTerm(r, o).Blank? ==> Acyclic(Rename(r, g), RenameTerm(r, o))
    ensures ObjectValue(c, Rename(r, g), RenameTerm(r, o)) == ObjectValue(c, g, o)
  {
    if o.Blank? { UnfoldRenamed(c, r, g, o); }
  }

  lemma UnknownAtRenamed(c: Codec, r: Renaming, g: Graph, subject: Term, known: set<string>, key: string)
    requires Faithful(c) && Injective(r) && !subject.Blank?
    requires UnknownAcyclic(g, subject, known) && UnknownAcyclic(Rename(r, g), subject, known)
    ensures UnknownAt(c, Rename(r, g), subject, known, key) == UnknownAt(c, g, subject, known, key)
  {
    var h := Rename(r, g);
    forall v | v in UnknownAt(c, h, subject, known, key) ensures v in UnknownAt(c, g, subject, known, key) {
      var u :| u in Unknown(h, subject, known) && u.property == key && v == ObjectValue(c, h, u.obj);
      var t := UnknownBack(r, g, subject, known, u);
      ObjectRenamed(c, r, g, t.obj);
    }
    forall v | v in UnknownAt(c, g, subject, known, key) ensures v in UnknownAt(c, h, subject, known, key) {
      var t :| t in Unknown(g, subject, known) && t.property == key && v == ObjectValue(c, g, t.obj);
      UnknownThere(r, g, subject, known, t);
      ObjectRenamed(c, r, g, t.obj);
    }
  }

  lemma UnknownKeysRenamed(r: Renaming, g: Graph, subject: Term, known: set<string>)
    requires Injective(r) && !subject.Blank?
    ensures UnknownKeys(Rename(r, g), subject, known) == UnknownKeys(g, subject, known)
  {
    var h := Rename(r, g);
    forall key | key in UnknownKeys(h, subject, known) ensures key in UnknownKeys(g, subject, known) {
      var u :| u in Unknown(h, subject, known) && u.property == key;
      var t := UnknownBack(r, g, subject, known, u);
    }
    forall key | key in UnknownKeys(g, subject, known) ensures key in UnknownKeys(h, subject, known) {
      var t :| t in Unknown(g, subject, known) && t.property == key;
      UnknownThere(r, g, subject, known, t);
    }
  }

  lemma UnknownFieldsRenamed(c: Codec, r: Renaming, g: Graph, subject: Term, known: set<string>)
    requires Faithful(c) && Injective(r) && !subject.Blank?
    requires UnknownAcyclic(g, subject, known) && UnknownAcyclic(Rename(r, g), subject, known)
    ensures UnknownFields(c, Rename(r, g), subject, known) == UnknownFields(c, g, subject, known)
  {
    var h := Rename(r, g);
    UnknownKeysRenamed(r, g, subject, known);
    forall key ensures UnknownAt(c, h, subject, known, key) == UnknownAt(c, g, subject, known, key) {
      UnknownAtRenamed(c, r, g, subject, known, key);
    }
    assert (map key | key in UnknownKeys(h, subject, known) :: UnknownAt(c, h, subject, known, key))
        == (map key | key in UnknownKeys(g, subject, known) :: UnknownAt(c, g, subject, known, key));
  }

  /** Two successful parses of graphs that differ by blank-node labels and triple order agree on every record. */
  lemma ParsesAgree(c: Codec, r: Renaming, g: Graph, subjects: seq<Term>, known: set<string>,
                    one: seq<seq<Property>>, two: seq<seq<Property>>)
    requires Faithful(c) && Injective(r) && forall i :: 0 <= i < |subjects| ==> !subjects[i].Blank?
    requires AreRecords(c, g, subjects, known, one) && AreRecords(c, Rename(r, g), subjects, known, two)
    ensures one == two
  {
    forall i | 0 <= i < |subjects| ensures one[i] == two[i] {
      assert IsRecord(c, g, subjects[i], known, one[i]) && IsRecord(c, Rename(r, g), subjects[i], known, two[i]);
      UnknownFieldsRenamed(c, r, g, subjects[i], known);
    }
  }
}

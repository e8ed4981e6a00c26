/** Orders on strings and on tuples of strings, and a stable insertion sort.
    The program sorts by tuples of folded strings everywhere; Python compares strings
    by code point and tuples component by component. */
module Ordering {

  ghost predicate StrictTotal<T(!new)>(lt: (T, T) -> bool) {
    && (forall x :: !lt(x, x))
    && (forall x, y :: x != y ==> lt(x, y) || lt(y, x))
    && (forall x, y, z :: lt(x, y) && lt(y, z) ==> lt(x, z))
  }

  /** Elements may tie, but "not below" is transitive. */
  ghost predicate StrictWeak<T(!new)>(lt: (T, T) -> bool) {
    && (forall x, y :: lt(x, y) ==> !lt(y, x))
    && (forall x, y, z :: !lt(x, y) && !lt(y, z) ==> !lt(x, z))
  }

  predicate LexLess<T(==)>(lt: (T, T) -> bool, a: seq<T>, b: seq<T>) {
    if b == [] then false
    else if a == [] then true
    else if a[0] == b[0] then LexLess(lt, a[1..], b[1..])
    else lt(a[0], b[0])
  }

  lemma {:induction false} LexIrreflexive<T(!new)>(lt: (T, T) -> bool, a: seq<T>)
    ensures !LexLess(lt, a, a)
  {
    if a != [] { LexIrreflexive(lt, a[1..]); }
  }

  lemma {:induction false} LexTotal<T(!new)>(lt: (T, T) -> bool, a: seq<T>, b: seq<T>)
    requires StrictTotal(lt)
    ensures a == b || LexLess(lt, a, b) || LexLess(lt, b, a)
  {
    if a != [] && b != [] && a[0] == b[0] {
      LexTotal(lt, a[1..], b[1..]);
      assert a == [a[0]] + a[1..] && b == [b[0]] + b[1..];
    }
  }

  lemma {:induction false} LexTransitive<T(!new)>(lt: (T, T) -> bool, a: seq<T>, b: seq<T>, c: seq<T>)
    requires StrictTotal(lt)
    requires LexLess(lt, a, b) && LexLess(lt, b, c)
    ensures LexLess(lt, a, c)
  {
    if a != [] && a[0] == b[0] && b[0] == c[0] {
      LexTransitive(lt, a[1..], b[1..], c[1..]);
    }
  }

  lemma {:induction false} LexPrefix<T>(lt: (T, T) -> bool, p: seq<T>, a: seq<T>, b: seq<T>)
    ensures LexLess(lt, p + a, p + b) == LexLess(lt, a, b)
  {
    if p == [] {
      assert p + a == a && p + b == b;
    } else {
      assert (p + a)[1..] == p[1..] + a && (p + b)[1..] == p[1..] + b;
      LexPrefix(lt, p[1..], a, b);
    }
  }

  /** Position i decides between a and b: all before it is equal, and there a ends or has the lesser element. */
  ghost predicate DecidedAt<T>(lt: (T, T) -> bool, a: seq<T>, b: seq<T>, i: nat) {
    i <= |a| && i < |b| && a[..i] == b[..i] && (i == |a| || (a[i] != b[i] && lt(a[i], b[i])))
  }

  lemma DecidedLater<T>(lt: (T, T) -> bool, a: seq<T>, b: seq<T>, i: nat)
    requires a != [] && b != [] && a[0] == b[0]
    ensures DecidedAt(lt, a, b, i + 1) <==> DecidedAt(lt, a[1..], b[1..], i)
  {
    if i + 1 <= |a| && i + 1 < |b| {
      assert a[..i + 1] == [a[0]] + a[1..][..i] && b[..i + 1] == [b[0]] + b[1..][..i];
      assert a[1..][..i] == a[..i + 1][1..] && b[1..][..i] == b[..i + 1][1..];
    }
  }

  lemma HeadsAgree<T>(lt: (T, T) -> bool, a: seq<T>, b: seq<T>, i: nat)
    requires a != [] && b != []
    ensures DecidedAt(lt, a, b, i) && i > 0 ==> a[0] == b[0]
  {
    if DecidedAt(lt, a, b, i) && i > 0 { assert a[..i][0] == a[0] && b[..i][0] == b[0]; }
  }

  /** The order of sequences: the first difference decides, and a proper prefix comes first. */
  lemma {:induction false} LexMeans<T>(lt: (T, T) -> bool, a: seq<T>, b: seq<T>)
    ensures LexLess(lt, a, b) <==> exists i: nat :: DecidedAt(lt, a, b, i)
  {
    if b == [] {
    } else if a == [] {
      assert DecidedAt(lt, a, b, 0);
    } else if a[0] == b[0] {
      LexMeans(lt, a[1..], b[1..]);
      forall i: nat ensures DecidedAt(lt, a, b, i + 1) <==> DecidedAt(lt, a[1..], b[1..], i) {
        DecidedLater(lt, a, b, i);
      }
      assert !DecidedAt(lt, a, b, 0);
      if i: nat :| DecidedAt(lt, a, b, i) { assert DecidedAt(lt, a[1..], b[1..], i - 1); }
    } else {
      assert DecidedAt(lt, a, b, 0) <==> lt(a[0], b[0]);
      forall i: nat ensures DecidedAt(lt, a, b, i) && i > 0 ==> a[0] == b[0] { HeadsAgree(lt, a, b, i); }
    }
  }

  /** Strings compare by code point at the first difference; a proper prefix comes first. */
  ghost predicate StrBelow(a: string, b: string) {
    exists i: nat :: i <= |a| && i < |b| && a[..i] == b[..i] && (i == |a| || a[i] < b[i])
  }

  lemma StrLessMeans(a: string, b: string)
    ensures StrLess(a, b) <==> StrBelow(a, b)
  {
    LexMeans(CharLess, a, b);
    if i: nat :| DecidedAt(CharLess, a, b, i) { assert a[..i] == b[..i]; }
    if i: nat :| i <= |a| && i < |b| && a[..i] == b[..i] && (i == |a| || a[i] < b[i]) {
      assert DecidedAt(CharLess, a, b, i);
    }
  }

  /** Tuples of strings compare by the first component that differs. */
  ghost predicate TupleBelow(a: seq<string>, b: seq<string>) {
    exists i: nat :: i <= |a| && i < |b| && a[..i] == b[..i] && (i == |a| || StrBelow(a[i], b[i]))
  }

  lemma TupleLessMeans(a: seq<string>, b: seq<string>)
    ensures TupleLess(a, b) <==> TupleBelow(a, b)
  {
    LexMeans(StrLess, a, b);
    if i: nat :| DecidedAt(StrLess, a, b, i) {
      assert a[..i] == b[..i];
      if i < |a| { StrLessMeans(a[i], b[i]); }
    }
    if i: nat :| i <= |a| && i < |b| && a[..i] == b[..i] && (i == |a| || StrBelow(a[i], b[i])) {
      if i < |a| {
        StrLessMeans(a[i], b[i]);
        LexIrreflexive(CharLess, a[i]);
      }
      assert DecidedAt(StrLess, a, b, i);
    }
  }

  lemma LexStrictTotal<T(!new)>(lt: (T, T) -> bool)
    requires StrictTotal(lt)
    ensures forall a :: !LexLess(lt, a, a)
    ensures forall a, b :: a != b ==> LexLess(lt, a, b) || LexLess(lt, b, a)
    ensures forall a, b, c :: LexLess(lt, a, b) && LexLess(lt, b, c) ==> LexLess(lt, a, c)
  {
    forall a ensures !LexLess(lt, a, a) { LexIrreflexive(lt, a); }
    forall a, b | a != b ensures LexLess(lt, a, b) || LexLess(lt, b, a) { LexTotal(lt, a, b); }
    forall a, b, c | LexLess(lt, a, b) && LexLess(lt, b, c) ensures LexLess(lt, a, c) {
      LexTransitive(lt, a, b, c);
    }
  }

  predicate CharLess(x: char, y: char) { x < y }

  predicate StrLess(a: string, b: string) { LexLess(CharLess, a, b) }

  predicate TupleLess(a: seq<string>, b: seq<string>) { LexLess(StrLess, a, b) }

  lemma StrStrictTotal()
    ensures StrictTotal(StrLess)
  {
    LexStrictTotal(CharLess);
  }

  lemma TupleStrictTotal()
    ensures StrictTotal(TupleLess)
  {
    StrStrictTotal();
    LexStrictTotal(StrLess);
  }

  // ----- sorting -----

  ghost predicate Sorted<T>(lt: (T, T) -> bool, s: seq<T>) {
    forall i, j :: 0 <= i < j < |s| ==> !lt(s[j], s[i])
  }

  function Insert<T>(lt: (T, T) -> bool, x: T, s: seq<T>): (r: seq<T>)
    ensures multiset(r) == multiset(s) + multiset{x}
  {
    if s == [] then [x]
    else if lt(s[0], x) then
      assert s == [s[0]] + s[1..];
      [s[0]] + Insert(lt, x, s[1..])
    else [x] + s
  }

  /** Python's sorted(): a stable sort. */
  function Sort<T>(lt: (T, T) -> bool, s: seq<T>): (r: seq<T>)
    ensures multiset(r) == multiset(s)
  {
    if s == [] then [] else
      assert s == [s[0]] + s[1..];
      Insert(lt, s[0], Sort(lt, s[1..]))
  }

  lemma SameElements<T>(a: seq<T>, b: seq<T>)
    requires multiset(a) == multiset(b)
    ensures |a| == |b|
    ensures forall x :: x in a <==> x in b
  {
    assert |a| == |multiset(a)| && |b| == |multiset(b)|;
    forall x ensures x in a <==> x in b {
      assert x in a <==> x in multiset(a);
      assert x in b <==> x in multiset(b);
    }
  }

  lemma {:induction false} InsertSorted<T(!new)>(lt: (T, T) -> bool, x: T, s: seq<T>)
    requires StrictWeak(lt) && Sorted(lt, s)
    ensures Sorted(lt, Insert(lt, x, s))
  {
    var r := Insert(lt, x, s);
    if s != [] && lt(s[0], x) {
      InsertSorted(lt, x, s[1..]);
      assert s == [s[0]] + s[1..];
      SameElements(r[1..], s[1..] + [x]);
      forall i, j | 0 <= i < j < |r| ensures !lt(r[j], r[i]) {
        assert r[j] == r[1..][j - 1] && r[j] in r[1..];
        if i > 0 { assert r[i] == r[1..][i - 1]; }
      }
    } else if s != [] {
      forall j | 0 < j < |r| ensures !lt(r[j], r[0]) {
        assert r[j] == s[j - 1] && !lt(s[0], x);
      }
    }
  }

  lemma {:induction false} SortSorted<T(!new)>(lt: (T, T) -> bool, s: seq<T>)
    requires StrictWeak(lt)
    ensures Sorted(lt, Sort(lt, s))
  {
    if s != [] {
      SortSorted(lt, s[1..]);
      InsertSorted(lt, s[0], Sort(lt, s[1..]));
    }
  }

  lemma StrictTotalIsWeak<T(!new)>(lt: (T, T) -> bool)
    requires StrictTotal(lt)
    ensures StrictWeak(lt)
  {
    forall x, y, z | !lt(x, y) && !lt(y, z) ensures !lt(x, z) {
      if x != y && y != z {
        assert lt(z, x) by { assert lt(z, y) && lt(y, x); }
      }
    }
  }

  /** Sorting by a key in a strict total order is a strict weak order on the items. */
  ghost predicate OrderedByKey<T(!new), K(!new)>(lt: (T, T) -> bool, key: T -> K, klt: (K, K) -> bool) {
    StrictTotal(klt) && forall x, y :: lt(x, y) == klt(key(x), key(y))
  }

  lemma KeyOrderIsWeak<T(!new), K(!new)>(lt: (T, T) -> bool, key: T -> K, klt: (K, K) -> bool)
    requires OrderedByKey(lt, key, klt)
    ensures StrictWeak(lt)
  {
    StrictTotalIsWeak(klt);
    forall x, y, z | !lt(x, y) && !lt(y, z) ensures !lt(x, z) {
      assert !klt(key(x), key(y)) && !klt(key(y), key(z));
    }
  }

  /** No two different elements of s tie. */
  ghost predicate Separated<T>(lt: (T, T) -> bool, s: seq<T>) {
    forall x, y :: x in s && y in s && x != y ==> lt(x, y) || lt(y, x)
  }

  lemma FirstAgrees<T(!new)>(lt: (T, T) -> bool, a: seq<T>, b: seq<T>)
    requires multiset(a) == multiset(b) && a != [] && b != []
    requires Sorted(lt, a) && Sorted(lt, b) && Separated(lt, a)
    ensures a[0] == b[0]
  {
    SameElements(a, b);
    assert a[0] in b && b[0] in a;
    var i :| 0 <= i < |b| && b[i] == a[0];
    var j :| 0 <= j < |a| && a[j] == b[0];
  }

  lemma RestAgrees<T>(a: seq<T>, b: seq<T>)
    requires multiset(a) == multiset(b) && a != [] && b != [] && a[0] == b[0]
    ensures multiset(a[1..]) == multiset(b[1..])
  {
    assert a == [a[0]] + a[1..] && b == [b[0]] + b[1..];
    assert multiset(a[1..]) == multiset(a) - multiset{a[0]};
    assert multiset(b[1..]) == multiset(b) - multiset{b[0]};
  }

  /** A sequence whose elements never tie has one sorted rearrangement. */
  lemma {:induction false} SortedUnique<T(!new)>(lt: (T, T) -> bool, a: seq<T>, b: seq<T>)
    requires multiset(a) == multiset(b)
    requires Sorted(lt, a) && Sorted(lt, b) && Separated(lt, a)
    ensures a == b
  {
    SameElements(a, b);
    if a != [] {
      FirstAgrees(lt, a, b);
      RestAgrees(a, b);
      SortedUnique(lt, a[1..], b[1..]);
      assert a == [a[0]] + a[1..] && b == [b[0]] + b[1..];
    }
  }

  /** Permuting the input of a sort whose keys never tie does not change its output. */
  lemma SortPermutation<T(!new)>(lt: (T, T) -> bool, a: seq<T>, b: seq<T>)
    requires StrictWeak(lt) && multiset(a) == multiset(b) && Separated(lt, a)
    ensures Sort(lt, a) == Sort(lt, b)
  {
    SortSorted(lt, a);
    SortSorted(lt, b);
    SameElements(a, Sort(lt, a));
    SortedUnique(lt, Sort(lt, a), Sort(lt, b));
  }

  // ----- sorted sets -----

  ghost predicate NoDup<T>(s: seq<T>) {
    forall i, j :: 0 <= i < j < |s| ==> s[i] != s[j]
  }

  /** s is sorted(S): every element once, in order. */
  ghost predicate Arranges<T(!new)>(lt: (T, T) -> bool, s: seq<T>, S: set<T>) {
    NoDup(s) && Sorted(lt, s) && forall x :: x in s <==> x in S
  }

  lemma {:induction false} NoDupMultiset<T(!new)>(s: seq<T>, S: set<T>)
    requires NoDup(s) && forall x :: x in s <==> x in S
    ensures multiset(s) == multiset(S)
  {
    if s == [] {
      assert S == {};
    } else {
      assert s == [s[0]] + s[1..];
      assert s[0] in S && s[0] !in s[1..];
      forall x ensures x in s[1..] <==> x in S - {s[0]} { assert x in s <==> x == s[0] || x in s[1..]; }
      NoDupMultiset(s[1..], S - {s[0]});
      assert S == (S - {s[0]}) + {s[0]};
    }
  }

  lemma MultisetNoDup<T(!new)>(a: seq<T>, b: seq<T>)
    requires NoDup(a) && multiset(a) == multiset(b)
    ensures NoDup(b)
  {
    NoDupMultiset(a, set x | x in a);
    forall i, j | 0 <= i < j < |b| ensures b[i] != b[j] {
      assert b == b[..j] + [b[j]] + b[j + 1..];
      assert b[i] in multiset(b[..j]);
      assert multiset(b)[b[j]] == multiset(b[..j])[b[j]] + 1 + multiset(b[j + 1..])[b[j]];
    }
  }

  lemma ArrangeUnique<T(!new)>(lt: (T, T) -> bool, a: seq<T>, b: seq<T>, S: set<T>)
    requires Arranges(lt, a, S) && Arranges(lt, b, S) && Separated(lt, a)
    ensures a == b
  {
    NoDupMultiset(a, S);
    NoDupMultiset(b, S);
    SortedUnique(lt, a, b);
  }

  /** Sorting any duplicate-free listing of S arranges S. */
  lemma SortArranges<T(!new)>(lt: (T, T) -> bool, s: seq<T>, S: set<T>)
    requires StrictWeak(lt) && NoDup(s) && forall x :: x in s <==> x in S
    ensures Arranges(lt, Sort(lt, s), S)
  {
    SortSorted(lt, s);
    MultisetNoDup(s, Sort(lt, s));
    SameElements(s, Sort(lt, s));
  }

  ghost function Listing<T(!new)>(S: set<T>): (s: seq<T>)
    ensures NoDup(s) && forall x :: x in s <==> x in S
  {
    if S == {} then [] else
      var x :| x in S;
      var rest := Listing(S - {x});
      assert x !in rest;
      [x] + rest
  }

  /** sorted(S) for a set whose elements never tie. */
  ghost function Arranged<T(!new)>(lt: (T, T) -> bool, S: set<T>): (s: seq<T>)
    requires StrictWeak(lt)
    ensures Arranges(lt, s, S)
  {
    SortArranges(lt, Listing(S), S);
    Sort(lt, Listing(S))
  }

  /** The distinct elements of a list, as in a Python set built from it. */
  function Dedup<T(==,!new)>(s: seq<T>): (r: seq<T>)
    ensures NoDup(r) && forall x :: x in r <==> x in s
  {
    if s == [] then [] else
      var last := |s| - 1;
      var r := Dedup(s[..last]);
      assert s == s[..last] + [s[last]];
      if s[last] in r then r else r + [s[last]]
  }

  /** sorted(S) for a set of strings. */
  ghost function SortedStrings(S: set<string>): (s: seq<string>)
    ensures Arranges(StrLess, s, S)
  {
    StrStrictTotal();
    StrictTotalIsWeak(StrLess);
    Arranged(StrLess, S)
  }

  /** The elements of a set in some order; nothing may depend on which. */
  method Enumerate<T(!new,==)>(S: set<T>) returns (s: seq<T>)
    ensures NoDup(s) && forall x :: x in s <==> x in S
  {
    s := [];
    var rest := S;
    while rest != {}
      invariant rest <= S && NoDup(s) && forall x :: x in s <==> x in S - rest
      decreases rest
    {
      var x :| x in rest;
      assert x !in s;
      s := s + [x];
      rest := rest - {x};
    }
  }

  method SortStrings(S: set<string>) returns (ks: seq<string>)
    ensures ks == SortedStrings(S)
  {
    var listing := Enumerate(S);
    ks := Sort(StrLess, listing);
    StrStrictTotal();
    StrictTotalIsWeak(StrLess);
    SortArranges(StrLess, listing, S);
    ArrangeUnique(StrLess, ks, SortedStrings(S), S);
  }
}

/** What build_projection_bundle accepts and what the bundle holds, field by field. */
module SearchContents {
  import opened Wrappers
  import opened Ordering
  import opened Text
  import opened SearchBundle

  // ----- valid input -----

  predicate Decimal(s: string) { s != "" && forall k :: 0 <= k < |s| ==> '0' <= s[k] <= '9' }

  /** Distinct Atlas IDs; every identifier has a namespace of its own or its record's, and a decimal value if
      numeric. */
  ghost predicate Acceptable(records: seq<Record>) {
    && records != []
    && (forall i, j :: 0 <= i < j < |records| ==> records[i].id != records[j].id)
    && forall r :: r in records ==>
         && |r.id| >= 6 && r.id[..6] == "atlas:"
         && forall n :: n in r.natives ==>
              && (r.scope.namespace.Some? || (n.namespace.Some? && n.namespace.value != ""))
              && (n.numeric ==> Decimal(n.value))
  }

  lemma AcceptableMeans(records: seq<Record>)
    ensures ValidInput(records) <==> Acceptable(records)
  {
    if ValidInput(records) {
      forall r | r in records ensures ValidRecord(r) && |r.id| >= 6 && r.id[..6] == "atlas:" {
        var k :| 0 <= k < |records| && records[k] == r;
        assert ValidRecord(records[k]);
      }
      forall r, n | r in records && n in r.natives ensures ValidNative(r, n) {
        var k :| 0 <= k < |r.natives| && r.natives[k] == n;
        assert ValidRecord(r);
      }
    }
    if Acceptable(records) {
      forall k | 0 <= k < |records| ensures ValidRecord(records[k]) {
        assert records[k] in records;
        forall j | 0 <= j < |records[k].natives| ensures ValidNative(records[k], records[k].natives[j]) {
          assert records[k].natives[j] in records[k].natives;
        }
      }
    }
  }

  // ----- rows -----

  predicate IsDocumentOf(r: Record, d: Document) {
    d.target == r.id && d.entityType == r.entityType && d.title == r.title && d.scope == r.scope
        && d.lifecycle == r.lifecycle
  }

  predicate IsIdentifierOf(r: Record, n: Native, i: Identifier) {
    && i.target == r.id && i.kind == n.kind && i.value == n.value
    && i.caseSensitive == n.caseSensitive && i.primary == n.primary && i.numeric == n.numeric
    && Some(i.namespace) == (if n.namespace.Some? && n.namespace.value != "" then n.namespace else r.scope.namespace)
    && (if n.numeric then Decimal(n.value) && i.number == Some(ToNat(n.value)) else i.number == None)
  }

  predicate IsAliasOf(r: Record, s: AliasSeed, a: Alias) {
    && a.target == r.id && a.value == s.value && a.caseSensitive == s.caseSensitive
    && a.kind == (if s.kind.None? || s.kind.value == "" then "alias" else s.kind.value)
  }

  ghost predicate HasNative(r: Record, i: Identifier) { exists n :: n in r.natives && IsIdentifierOf(r, n, i) }

  ghost predicate HasSeed(r: Record, a: Alias) { exists s :: s in r.aliases && IsAliasOf(r, s, a) }

  ghost predicate FromNative(records: seq<Record>, i: Identifier) { exists r :: r in records && HasNative(r, i) }

  ghost predicate FromSeed(records: seq<Record>, a: Alias) { exists r :: r in records && HasSeed(r, a) }

  /** One document per record, by ID. */
  ghost predicate DocumentsAre(records: seq<Record>, ds: seq<Document>) {
    && |ds| == |records|
    && (forall d :: d in ds <==> exists r :: r in records && IsDocumentOf(r, d))
    && forall j, k :: 0 <= j < k < |ds| ==> StrBelow(ds[j].target, ds[k].target)
  }

  /** The identifiers of the records, by namespace, type, value and ID. */
  ghost predicate IdentifiersAre(records: seq<Record>, s: seq<Identifier>) {
    && (forall i :: i in s <==> FromNative(records, i))
    && forall j, k :: 0 <= j < k < |s| ==> !TupleBelow(Columns(s[k]), Columns(s[j]))
  }

  /** The aliases of the records, by folded value and ID. */
  ghost predicate AliasesAre(u: Unicode, records: seq<Record>, s: seq<Alias>) {
    && (forall a :: a in s <==> FromSeed(records, a))
    && forall j, k :: 0 <= j < k < |s| ==> !TupleBelow(AliasColumns(u, s[k]), AliasColumns(u, s[j]))
  }

  ghost predicate BundleOf(u: Unicode, records: seq<Record>, b: Bundle) {
    DocumentsAre(records, b.documents) && IdentifiersAre(records, b.identifiers) && AliasesAre(u, records, b.aliases)
  }

  function Columns(i: Identifier): seq<string> { [i.namespace, i.kind, i.value, i.target] }

  function AliasColumns(u: Unicode, a: Alias): seq<string> { [u.casefold(u.nfkc(a.value)), a.target] }

  // ----- the projection holds them -----

  lemma {:induction false} GatheredIdentifiers(rs: seq<Record>, k: nat, i: Identifier)
    requires ValidInput(rs) && k <= |rs|
    ensures i in Gather(rs, k).identifiers <==> FromNative(rs[..k], i)
  {
    if k > 0 {
      GatheredIdentifiers(rs, k - 1, i);
      NativeRows(rs[k - 1], i);
      assert rs[..k] == rs[..k - 1] + [rs[k - 1]];
      OneMoreRecord(rs[..k - 1], rs[k - 1]);
    }
  }

  lemma NativeRows(r: Record, i: Identifier)
    requires ValidRecord(r)
    ensures i in NativesOf(r, |r.natives|) <==> HasNative(r, i)
  {
    if i in NativesOf(r, |r.natives|) {
      var j :| 0 <= j < |r.natives| && i == IdentifierOf(r, r.natives[j]);
      assert r.natives[j] in r.natives && IsIdentifierOf(r, r.natives[j], i);
    }
    if n :| n in r.natives && IsIdentifierOf(r, n, i) {
      var j :| 0 <= j < |r.natives| && r.natives[j] == n;
      assert i == IdentifierOf(r, r.natives[j]);
    }
  }

  lemma OneMoreRecord(front: seq<Record>, r: Record)
    ensures forall i :: FromNative(front + [r], i) <==> FromNative(front, i) || HasNative(r, i)
    ensures forall a :: FromSeed(front + [r], a) <==> FromSeed(front, a) || HasSeed(r, a)
  {
    assert forall x :: x in front + [r] <==> x in front || x == r;
  }

  lemma {:induction false} SeedRows(r: Record, k: nat, a: Alias)
    requires k <= |r.aliases|
    ensures a in AliasesOf(r, k) <==> exists s :: s in r.aliases[..k] && IsAliasOf(r, s, a)
  {
    if k > 0 {
      SeedRows(r, k - 1, a);
      assert r.aliases[..k] == r.aliases[..k - 1] + [r.aliases[k - 1]];
      assert IsAliasOf(r, r.aliases[k - 1], a) <==> a == AliasOf(r, r.aliases[k - 1]);
    }
  }

  lemma {:induction false} GatheredAliases(rs: seq<Record>, k: nat, a: Alias)
    requires ValidInput(rs) && k <= |rs|
    ensures a in Gather(rs, k).aliases <==> FromSeed(rs[..k], a)
  {
    if k > 0 {
      GatheredAliases(rs, k - 1, a);
      SeedRows(rs[k - 1], |rs[k - 1].aliases|, a);
      assert rs[k - 1].aliases[..|rs[k - 1].aliases|] == rs[k - 1].aliases;
      assert rs[..k] == rs[..k - 1] + [rs[k - 1]];
      OneMoreRecord(rs[..k - 1], rs[k - 1]);
    }
  }

  lemma SameRecords(a: seq<Record>, b: seq<Record>)
    requires multiset(a) == multiset(b)
    ensures |a| == |b| && forall r :: r in a <==> r in b
    ensures forall i :: FromNative(a, i) <==> FromNative(b, i)
    ensures forall x :: FromSeed(a, x) <==> FromSeed(b, x)
  {
    SameElements(a, b);
  }

  /** The documents stand in the order of the sorted records. */
  lemma DocumentsMean(records: seq<Record>, rs: seq<Record>, ds: seq<Document>)
    requires ValidInput(records) && rs == Sort(RecordLess, records) && ValidInput(rs)
    requires |ds| == |rs| && forall j :: 0 <= j < |rs| ==> ds[j] == DocumentOf(rs[j])
    ensures forall d :: d in ds <==> exists r :: r in rs && IsDocumentOf(r, d)
    ensures forall j, k :: 0 <= j < k < |ds| ==> StrBelow(ds[j].target, ds[k].target)
  {
    RecordOrder();
    SortSorted(RecordLess, records);
    forall j, k | 0 <= j < k < |ds| ensures StrBelow(ds[j].target, ds[k].target) {
      assert !RecordLess(rs[k], rs[j]) && rs[j].id != rs[k].id;
      StrLessMeans(rs[j].id, rs[k].id);
    }
    forall d ensures d in ds <==> exists r :: r in rs && IsDocumentOf(r, d) {
      if d in ds {
        var j :| 0 <= j < |ds| && ds[j] == d;
        assert rs[j] in rs && IsDocumentOf(rs[j], d);
      }
      if r :| r in rs && IsDocumentOf(r, d) {
        var j :| 0 <= j < |rs| && rs[j] == r;
        assert ds[j] == d;
      }
    }
  }

  lemma IdentifiersSorted(s: seq<Identifier>)
    ensures var t := Sort(IdentifierLess, s);
            forall j, k :: 0 <= j < k < |t| ==> !TupleBelow(Columns(t[k]), Columns(t[j]))
  {
    TupleStrictTotal();
    KeyOrderIsWeak(IdentifierLess, IdentifierKey, TupleLess);
    SortSorted(IdentifierLess, s);
    var t := Sort(IdentifierLess, s);
    forall j, k | 0 <= j < k < |t| ensures !TupleBelow(Columns(t[k]), Columns(t[j])) {
      assert !IdentifierLess(t[k], t[j]);
      TupleLessMeans(Columns(t[k]), Columns(t[j]));
    }
  }

  lemma AliasesSorted(u: Unicode, s: seq<Alias>)
    ensures var t := Sort(AliasLess(u), s);
            forall j, k :: 0 <= j < k < |t| ==> !TupleBelow(AliasColumns(u, t[k]), AliasColumns(u, t[j]))
  {
    TupleStrictTotal();
    KeyOrderIsWeak(AliasLess(u), (a: Alias) => AliasColumns(u, a), TupleLess);
    SortSorted(AliasLess(u), s);
    var t := Sort(AliasLess(u), s);
    forall j, k | 0 <= j < k < |t| ensures !TupleBelow(AliasColumns(u, t[k]), AliasColumns(u, t[j])) {
      assert !AliasLess(u)(t[k], t[j]);
      TupleLessMeans(AliasColumns(u, t[k]), AliasColumns(u, t[j]));
    }
  }

  lemma IdentifierGathered(records: seq<Record>, rs: seq<Record>, i: Identifier)
    requires ValidInput(rs) && multiset(records) == multiset(rs)
    ensures i in Gather(rs, |rs|).identifiers <==> FromNative(records, i)
  {
    SameRecords(records, rs);
    GatheredIdentifiers(rs, |rs|, i);
    assert rs[..|rs|] == rs;
  }

  lemma AliasGathered(records: seq<Record>, rs: seq<Record>, a: Alias)
    requires ValidInput(rs) && multiset(records) == multiset(rs)
    ensures a in Gather(rs, |rs|).aliases <==> FromSeed(records, a)
  {
    SameRecords(records, rs);
    GatheredAliases(rs, |rs|, a);
    assert rs[..|rs|] == rs;
  }

  lemma IdentifiersArranged(records: seq<Record>, s: seq<Identifier>)
    requires forall i :: i in s <==> FromNative(records, i)
    ensures IdentifiersAre(records, Sort(IdentifierLess, s))
  {
    IdentifiersSorted(s);
    SameElements(s, Sort(IdentifierLess, s));
  }

  lemma AliasesArranged(u: Unicode, records: seq<Record>, s: seq<Alias>)
    requires forall a :: a in s <==> FromSeed(records, a)
    ensures AliasesAre(u, records, Sort(AliasLess(u), s))
  {
    AliasesSorted(u, s);
    SameElements(s, Sort(AliasLess(u), s));
  }

  lemma RowsMean(u: Unicode, records: seq<Record>, rs: seq<Record>, g: Bundle)
    requires ValidInput(rs) && multiset(records) == multiset(rs) && g == Gather(rs, |rs|)
    ensures IdentifiersAre(records, Sort(IdentifierLess, g.identifiers))
    ensures AliasesAre(u, records, Sort(AliasLess(u), g.aliases))
  {
    forall i ensures i in g.identifiers <==> FromNative(records, i) { IdentifierGathered(records, rs, i); }
    forall a ensures a in g.aliases <==> FromSeed(records, a) { AliasGathered(records, rs, a); }
    IdentifiersArranged(records, g.identifiers);
    AliasesArranged(u, records, g.aliases);
  }

  /** The projection of valid input holds the records' own fields. */
  lemma ProjectionMeans(u: Unicode, records: seq<Record>)
    requires ValidInput(records)
    ensures BundleOf(u, records, Projection(u, records))
  {
    SortedIsValid(records);
    var rs := Sort(RecordLess, records);
    SameRecords(records, rs);
    GatherDocuments(rs, |rs|);
    DocumentsMean(records, rs, Gather(rs, |rs|).documents);
    RowsMean(u, records, rs, Gather(rs, |rs|));
  }
}

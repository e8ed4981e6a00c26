/** Records on which the index and the reference really part. */
module SearchExamples {
  import opened Wrappers
  import opened Ordering
  import opened Text
  import opened SearchBundle
  import opened SearchIndex
  import opened SearchResolve
  import opened SearchAgree
  import opened SearchLimits
  import opened SearchNumeric

  /** Text that NFKC and casefold leave alone. */
  const PLAIN := Unicode((s: string) => s, (s: string) => s)

  const NO_SCOPE := Scope(Some("n"), None, None, None, None)

  // ----- bundles of one or two small records -----

  lemma OneOrTheOther<T>(s: seq<T>, x: T, y: T)
    requires multiset(s) == multiset([x, y])
    ensures s == [x, y] || s == [y, x]
  {
    SameElements(s, [x, y]);
    assert s == [s[0], s[1]];
    assert multiset(s) == multiset{s[0], s[1]};
    assert s[0] in s && s[1] in s;
  }

  lemma JustOne<T>(s: seq<T>, x: T)
    requires multiset(s) == multiset([x])
    ensures s == [x]
  {
    SameElements(s, [x]);
    assert s[0] in s;
  }

  ghost predicate Pair<T>(s: seq<T>, x: T, y: T) { s == [x, y] || s == [y, x] }

  lemma TwoNatives(r: Record)
    requires ValidRecord(r) && |r.natives| == 2 && |r.aliases| == 1
    ensures var g := Gather([r], 1);
            && g.documents == [DocumentOf(r)]
            && g.identifiers == [IdentifierOf(r, r.natives[0]), IdentifierOf(r, r.natives[1])]
            && g.aliases == [AliasOf(r, r.aliases[0])]
  {
    assert Gather([r], 0) == Bundle([], [], [], []);
    assert NativesOf(r, 0) == [] && AliasesOf(r, 0) == [];
    assert NativesOf(r, 1) == [IdentifierOf(r, r.natives[0])];
  }

  /** One document with two identifiers and an alias. */
  lemma OneDocument(u: Unicode, r: Record)
    requires ValidRecord(r) && |r.natives| == 2 && |r.aliases| == 1
    ensures ValidInput([r])
    ensures var b := Projection(u, [r]);
            && b.documents == [DocumentOf(r)]
            && Pair(b.identifiers, IdentifierOf(r, r.natives[0]), IdentifierOf(r, r.natives[1]))
            && b.aliases == [AliasOf(r, r.aliases[0])]
  {
    JustOne(Sort(RecordLess, [r]), r);
    TwoNatives(r);
    var g := Gather([r], 1);
    OneOrTheOther(Sort(IdentifierLess, g.identifiers), g.identifiers[0], g.identifiers[1]);
    JustOne(Sort(AliasLess(u), g.aliases), g.aliases[0]);
  }

  lemma PairFits(ids: seq<Identifier>, i: Identifier, j: Identifier)
    requires Pair(ids, i, j) && Storable(i) && Storable(j) && !SameIdKey(i, j)
    ensures IdsFit(ids)
  {
  }

  lemma AliasPairFits(s: seq<Alias>, x: Alias, y: Alias)
    requires Pair(s, x, y) && !SameAliasKey(x, y)
    ensures AliasesFit(s)
  {
  }

  lemma OneDocumentFits(u: Unicode, r: Record)
    requires ValidRecord(r) && |r.natives| == 2 && |r.aliases| == 1 && r.natives[0].value != r.natives[1].value
    requires Storable(IdentifierOf(r, r.natives[0])) && Storable(IdentifierOf(r, r.natives[1]))
    ensures ValidInput([r]) && WellBuilt(Projection(u, [r])) && Insertable(Projection(u, [r]))
  {
    OneDocument(u, r);
    ProjectionWellBuilt(u, [r]);
    var b := Projection(u, [r]);
    WellBuiltFacetsFit(b);
    PairFits(b.identifiers, IdentifierOf(r, r.natives[0]), IdentifierOf(r, r.natives[1]));
    assert AliasesFit(b.aliases);
  }

  lemma GatherTwo(rs: seq<Record>)
    requires |rs| == 2 && ValidRecord(rs[0]) && ValidRecord(rs[1])
    requires |rs[0].natives| == |rs[1].natives| == |rs[0].aliases| == |rs[1].aliases| == 1
    ensures var g, r, s := Gather(rs, 2), rs[0], rs[1];
            && g.documents == [DocumentOf(r), DocumentOf(s)]
            && g.identifiers == [IdentifierOf(r, r.natives[0]), IdentifierOf(s, s.natives[0])]
            && g.aliases == [AliasOf(r, r.aliases[0]), AliasOf(s, s.aliases[0])]
  {
    assert Gather(rs, 0) == Bundle([], [], [], []);
    assert NativesOf(rs[0], 0) == [] && NativesOf(rs[1], 0) == [];
    assert AliasesOf(rs[0], 0) == [] && AliasesOf(rs[1], 0) == [];
    assert Gather(rs, 1).identifiers == NativesOf(rs[0], 1);
    assert Gather(rs, 1).aliases == AliasesOf(rs[0], 1);
  }

  /** Two documents with one identifier and one alias each. */
  lemma TwoDocuments(u: Unicode, r: Record, s: Record)
    requires ValidRecord(r) && ValidRecord(s) && r.id != s.id
    requires |r.natives| == |s.natives| == |r.aliases| == |s.aliases| == 1
    ensures ValidInput([r, s])
    ensures var b := Projection(u, [r, s]);
            && Pair(b.documents, DocumentOf(r), DocumentOf(s))
            && Pair(b.identifiers, IdentifierOf(r, r.natives[0]), IdentifierOf(s, s.natives[0]))
            && Pair(b.aliases, AliasOf(r, r.aliases[0]), AliasOf(s, s.aliases[0]))
  {
    var rs := Sort(RecordLess, [r, s]);
    assert ValidInput([r, s]);
    SortedIsValid([r, s]);
    OneOrTheOther(rs, r, s);
    GatherTwo(rs);
    var g := Gather(rs, 2);
    OneOrTheOther(Sort(IdentifierLess, g.identifiers), g.identifiers[0], g.identifiers[1]);
    OneOrTheOther(Sort(AliasLess(u), g.aliases), g.aliases[0], g.aliases[1]);
  }

  lemma TwoDocumentsFit(u: Unicode, r: Record, s: Record)
    requires ValidRecord(r) && ValidRecord(s) && r.id != s.id
    requires |r.natives| == |s.natives| == |r.aliases| == |s.aliases| == 1
    requires Storable(IdentifierOf(r, r.natives[0])) && Storable(IdentifierOf(s, s.natives[0]))
    ensures ValidInput([r, s]) && WellBuilt(Projection(u, [r, s])) && Insertable(Projection(u, [r, s]))
  {
    TwoDocuments(u, r, s);
    ProjectionWellBuilt(u, [r, s]);
    var b := Projection(u, [r, s]);
    WellBuiltFacetsFit(b);
    PairFits(b.identifiers, IdentifierOf(r, r.natives[0]), IdentifierOf(s, s.natives[0]));
    AliasPairFits(b.aliases, AliasOf(r, r.aliases[0]), AliasOf(s, s.aliases[0]));
  }

  // ----- the records -----

  function Entry(id: string, natives: seq<Native>): Record {
    Record(ATLAS + id, "event", "title", NO_SCOPE, None, natives, [AliasSeed("x", None, true)])
  }

  function Id(value: string, primary: bool, numeric: bool): Native { Native("id", value, None, true, primary, numeric) }

  /** The alias that every record has. */
  const ASK_X := Request("x", map[], None, None)

  lemma MatchedByAlias(b: Bundle, a: Alias)
    requires a in b.aliases && a.value == "x"
    requires forall d :: d in b.documents ==> |ATLAS| <= |d.target|
    ensures a.target in Matched(PLAIN, b, ASK_X)
  {
    assert AliasHit(PLAIN, b, ASK_X, a);
    assert a.target in AliasTargets(PLAIN, b, ASK_X);
    assert "x" !in Targets(b.documents);
    HitsAreTargets(PLAIN, b, ASK_X);
  }

  // ----- two primaries -----

  const TWICE := Entry("a", [Id("1", true, false), Id("2", true, false)])

  lemma TwoPrimaries(u: Unicode, b: Bundle, t: Tables, req: Request, i: Identifier, j: Identifier)
    requires WellBuilt(b) && Holds(u, b, t) && Pair(b.identifiers, i, j)
    requires i != j && i.primary && j.primary && i.target == j.target && i.target in Matched(u, b, req)
    ensures !AlwaysAgree(u, b, t, req)
  {
    ResolversAgreeIff(u, b, t, req);
    assert IsPrimary(b, i.target, i) && IsPrimary(b, i.target, j);
  }

  ghost predicate Small(r: Record, n: nat) {
    && ValidRecord(r) && |r.natives| == n && |r.aliases| == 1 && r.aliases[0].value == "x"
    && forall k :: 0 <= k < n ==> Storable(IdentifierOf(r, r.natives[k]))
  }

  lemma TwoPrimariesOf(r: Record, t: Tables)
    requires Small(r, 2) && r.natives[0].primary && r.natives[1].primary && r.natives[0].value != r.natives[1].value
    ensures ValidInput([r]) && Insertable(Projection(PLAIN, [r]))
    ensures Holds(PLAIN, Projection(PLAIN, [r]), t) ==> !AlwaysAgree(PLAIN, Projection(PLAIN, [r]), t, ASK_X)
  {
    OneDocument(PLAIN, r);
    OneDocumentFits(PLAIN, r);
    TwoPrimariesBundle(Projection(PLAIN, [r]), t, DocumentOf(r), AliasOf(r, r.aliases[0]),
                       IdentifierOf(r, r.natives[0]), IdentifierOf(r, r.natives[1]));
  }

  lemma TwoPrimariesBundle(b: Bundle, t: Tables, d: Document, a: Alias, i: Identifier, j: Identifier)
    requires WellBuilt(b) && b.documents == [d] && b.aliases == [a] && Pair(b.identifiers, i, j)
    requires |ATLAS| <= |d.target| && a.value == "x"
    requires i != j && i.primary && j.primary && i.target == j.target == a.target
    ensures Holds(PLAIN, b, t) ==> !AlwaysAgree(PLAIN, b, t, ASK_X)
  {
    if Holds(PLAIN, b, t) {
      MatchedByAlias(b, a);
      TwoPrimaries(PLAIN, b, t, ASK_X, i, j);
    }
  }

  /** The alias names one document, which the index answers twice. */
  lemma TwoPrimariesDisagree(t: Tables)
    ensures ValidInput([TWICE]) && Insertable(Projection(PLAIN, [TWICE]))
    ensures Holds(PLAIN, Projection(PLAIN, [TWICE]), t) ==> !AlwaysAgree(PLAIN, Projection(PLAIN, [TWICE]), t, ASK_X)
  {
    assert Small(TWICE, 2);
    TwoPrimariesOf(TWICE, t);
  }

  // ----- no primary -----

  const FIRST := Entry("a", [Id("2", false, false)])
  const SECOND := Entry("b", [Id("1", false, false)])

  ghost predicate OnlyIdentifiersDiffer(u: Unicode, d: Document, e: Document, i: Identifier, j: Identifier) {
    && i.target == d.target && j.target == e.target && !i.primary && !j.primary && i.kind == j.kind
    && d.scope == e.scope && d.lifecycle == e.lifecycle
    && StrLess(Fold(u, j.value), Fold(u, i.value)) && StrLess(d.target, e.target)
  }

  /** Two documents that only their identifiers and targets tell apart, and in opposite ways. */
  lemma OppositeKeys(u: Unicode, b: Bundle, d: Document, e: Document, i: Identifier, j: Identifier)
    requires Pair(b.documents, d, e) && Pair(b.identifiers, i, j) && OnlyIdentifiersDiffer(u, d, e, i, j)
    ensures d.target in Targets(b.documents) && e.target in Targets(b.documents)
    ensures RefLess(u, b)(e.target, d.target) && RowOrder(u)(TheRow(b, d.target), TheRow(b, e.target))
  {
    StrStrictTotal();
    assert d.target != e.target;
    assert d in b.documents && e in b.documents && i in b.identifiers && j in b.identifiers;
    TargetHasDocument(b.documents, d.target);
    TargetHasDocument(b.documents, e.target);
    assert FirstOf(b.identifiers, d.target).Some? && FirstOf(b.identifiers, e.target).Some?;
    WithoutPrimaryOrdersDiffer(u, b, d, e, i, j);
  }

  lemma OppositeAnswers(u: Unicode, b: Bundle, t: Tables, req: Request, x: string, y: string)
    requires WellBuilt(b) && Holds(u, b, t) && x in Matched(u, b, req) && y in Matched(u, b, req) && x != y
    requires x in Targets(b.documents) && y in Targets(b.documents)
    requires RefLess(u, b)(y, x) && RowOrder(u)(TheRow(b, x), TheRow(b, y))
    ensures !AlwaysAgree(u, b, t, req)
  {
    RefApart(u, b, x, y);
    ResolversAgreeIff(u, b, t, req);
  }

  lemma NoPrimaryBundle(b: Bundle, t: Tables, d: Document, e: Document, i: Identifier, j: Identifier, x: Alias,
                        y: Alias)
    requires WellBuilt(b) && Pair(b.documents, d, e) && Pair(b.identifiers, i, j) && Pair(b.aliases, x, y)
    requires |ATLAS| <= |d.target| && |ATLAS| <= |e.target| && OnlyIdentifiersDiffer(PLAIN, d, e, i, j)
    requires x.target == d.target && y.target == e.target && x.value == y.value == "x"
    ensures Holds(PLAIN, b, t) ==> !AlwaysAgree(PLAIN, b, t, ASK_X)
  {
    if Holds(PLAIN, b, t) {
      StrStrictTotal();
      MatchedByAlias(b, x);
      MatchedByAlias(b, y);
      OppositeKeys(PLAIN, b, d, e, i, j);
      OppositeAnswers(PLAIN, b, t, ASK_X, d.target, e.target);
    }
  }

  lemma NoPrimaryOf(r: Record, s: Record, t: Tables)
    requires Small(r, 1) && Small(s, 1) && !r.natives[0].primary && !s.natives[0].primary
    requires r.natives[0].kind == s.natives[0].kind && r.scope == s.scope && r.lifecycle == s.lifecycle
    requires StrLess(s.natives[0].value, r.natives[0].value) && StrLess(r.id, s.id) && r.id != s.id
    ensures ValidInput([r, s]) && Insertable(Projection(PLAIN, [r, s]))
    ensures Holds(PLAIN, Projection(PLAIN, [r, s]), t) ==> !AlwaysAgree(PLAIN, Projection(PLAIN, [r, s]), t, ASK_X)
  {
    TwoDocuments(PLAIN, r, s);
    TwoDocumentsFit(PLAIN, r, s);
    NoPrimaryBundle(Projection(PLAIN, [r, s]), t, DocumentOf(r), DocumentOf(s),
                    IdentifierOf(r, r.natives[0]), IdentifierOf(s, s.natives[0]),
                    AliasOf(r, r.aliases[0]), AliasOf(s, s.aliases[0]));
  }

  /** The alias names both documents; the index lists them by target, the reference by identifier value. */
  lemma NoPrimaryDisagree(t: Tables)
    ensures ValidInput([FIRST, SECOND]) && Insertable(Projection(PLAIN, [FIRST, SECOND]))
    ensures Holds(PLAIN, Projection(PLAIN, [FIRST, SECOND]), t) ==>
      !AlwaysAgree(PLAIN, Projection(PLAIN, [FIRST, SECOND]), t, ASK_X)
  {
    LexPrefix(CharLess, ATLAS, "a", "b");
    assert FIRST.id[6] != SECOND.id[6];
    assert Small(FIRST, 1) && Small(SECOND, 1);
    NoPrimaryOf(FIRST, SECOND, t);
  }

  // ----- a repeated number -----

  const TIED := Entry("a", [Id("1", true, true), Id("01", false, true)])

  lemma TiedPair(u: Unicode, b: Bundle, t: Tables, namespace: string, kind: string, limit: nat, i: Identifier,
                 j: Identifier)
    requires WellBuilt(b) && Insertable(b) && Holds(u, b, t) && Pair(b.identifiers, i, j) && limit > 0
    requires i != j && Wanted(i, namespace, kind) && Wanted(j, namespace, kind)
    requires i.target == j.target && Number(i) == Number(j)
    ensures !AlwaysAgreesTo(t, b, namespace, kind, limit)
  {
    var rows := ReferenceRows(b, namespace, kind);
    ReferenceNumbers(b, namespace, kind);
    ReferenceIsAdmissible(u, b, t, namespace, kind);
    assert i in b.identifiers && j in b.identifiers;
    var p :| 0 <= p < |rows| && rows[p] == i;
    var q :| 0 <= q < |rows| && rows[q] == j;
    assert p != q && |rows| >= 2;
    assert rows[0] in rows && rows[1] in rows;
    BrowsingAgreesIff(u, b, t, namespace, kind, limit);
    assert TiedAt(rows, 0);
  }

  lemma TiedNumbersOf(r: Record, t: Tables, limit: nat, i: Identifier, j: Identifier)
    requires Small(r, 2) && r.natives[0].value != r.natives[1].value && limit > 0
    requires i == IdentifierOf(r, r.natives[0]) && j == IdentifierOf(r, r.natives[1])
    requires i.namespace == j.namespace && i.kind == j.kind && i.numeric && j.numeric && i.number == j.number
    ensures ValidInput([r]) && WellBuilt(Projection(PLAIN, [r])) && Insertable(Projection(PLAIN, [r]))
    ensures Holds(PLAIN, Projection(PLAIN, [r]), t) ==>
      !AlwaysAgreesTo(t, Projection(PLAIN, [r]), i.namespace, i.kind, limit)
  {
    OneDocument(PLAIN, r);
    OneDocumentFits(PLAIN, r);
    var b := Projection(PLAIN, [r]);
    if Holds(PLAIN, b, t) { TiedPair(PLAIN, b, t, i.namespace, i.kind, limit, i, j); }
  }

  /** One document whose identifiers 1 and 01 are the same number: for every limit the listings may differ. */
  lemma TiedNumbersDisagree(t: Tables, limit: nat)
    requires limit > 0
    ensures ValidInput([TIED]) && WellBuilt(Projection(PLAIN, [TIED])) && Insertable(Projection(PLAIN, [TIED]))
    ensures Holds(PLAIN, Projection(PLAIN, [TIED]), t) ==>
      !AlwaysAgreesTo(t, Projection(PLAIN, [TIED]), "n", "id", limit)
  {
    assert "01"[..1] == "0" && ToNat("0") == 0 && ToNat("01") == 1 && ToNat("1") == 1;
    assert Small(TIED, 2);
    TiedNumbersOf(TIED, t, limit, IdentifierOf(TIED, TIED.natives[0]), IdentifierOf(TIED, TIED.natives[1]));
  }
}

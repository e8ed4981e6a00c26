/** What the exact stages answer, in terms of the request and the rows' own fields. */
module SearchMeaning {
  import opened Wrappers
  import opened Ordering
  import opened SearchBundle
  import opened SearchIndex
  import opened SearchResolve
  import opened SearchAgree

  // ----- text and scope -----

  predicate SameFolded(u: Unicode, a: string, b: string) { u.casefold(u.nfkc(a)) == u.casefold(u.nfkc(b)) }

  predicate SameText(u: Unicode, a: string, b: string, caseSensitive: bool) {
    if caseSensitive then u.nfkc(a) == u.nfkc(b) else SameFolded(u, a, b)
  }

  predicate FieldIs(u: Unicode, field: Option<string>, expected: string) {
    field.Some? && SameFolded(u, field.value, expected)
  }

  /** One scope hint, for each of the seven keys; any other key admits nothing. */
  predicate Meets(u: Unicode, d: Document, key: string, expected: string) {
    || (key == "namespace" && FieldIs(u, d.scope.namespace, expected))
    || (key == "platform" && FieldIs(u, d.scope.platform, expected))
    || (key == "product" && FieldIs(u, d.scope.product, expected))
    || (key == "provider" && FieldIs(u, d.scope.provider, expected))
    || (key == "channel" && FieldIs(u, d.scope.channel, expected))
    || (key == "type" && SameFolded(u, d.entityType, expected))
    || (key == "lifecycle" && FieldIs(u, d.lifecycle, expected))
  }

  predicate MeetsAll(u: Unicode, d: Document, hints: map<string, string>) {
    forall key :: key in hints ==> Meets(u, d, key, hints[key])
  }

  lemma HintMeans(u: Unicode, d: Document, key: string, expected: string)
    ensures Meets(u, d, key, expected) <==>
      ScopeValue(d, key).Some? && Fold(u, ScopeValue(d, key).value) == Fold(u, expected)
  {
  }

  lemma ScopeMeans(u: Unicode, d: Document, hints: map<string, string>)
    ensures ScopeMatches(u, d, hints) <==> MeetsAll(u, d, hints)
  {
    forall key | key in hints
      ensures Meets(u, d, key, hints[key]) <==>
        ScopeValue(d, key).Some? && Fold(u, ScopeValue(d, key).value) == Fold(u, hints[key])
    {
      HintMeans(u, d, key, hints[key]);
    }
  }

  // ----- matching rows -----

  /** The document of the target meets every scope hint. */
  ghost predicate DocumentMeets(u: Unicode, b: Bundle, target: string, hints: map<string, string>) {
    exists d :: d in b.documents && d.target == target && MeetsAll(u, d, hints)
  }

  ghost predicate IdentifierFits(u: Unicode, b: Bundle, req: Request, i: Identifier) {
    && i in b.identifiers && req.valueHint.Some?
    && (req.typeHint.None? || req.typeHint.value == "" || i.kind == req.typeHint.value)
    && SameText(u, req.valueHint.value, i.value, i.caseSensitive)
    && DocumentMeets(u, b, i.target, req.hints)
  }

  ghost predicate AliasFits(u: Unicode, b: Bundle, req: Request, a: Alias) {
    a in b.aliases && SameText(u, req.normalized, a.value, a.caseSensitive) && DocumentMeets(u, b, a.target, req.hints)
  }

  lemma InScopeMeans(u: Unicode, b: Bundle, target: string, hints: map<string, string>)
    requires WellBuilt(b) && target in Targets(b.documents)
    ensures (hints != map[] ==> InScope(u, b, target, hints)) <==> DocumentMeets(u, b, target, hints)
  {
    TargetHasDocument(b.documents, target);
    var d := FindDocument(b.documents, target).value;
    ScopeMeans(u, d, hints);
    if e :| e in b.documents && e.target == target && MeetsAll(u, e, hints) { DocumentUnique(b.documents, d, e); }
  }

  lemma IdentifierHitMeans(u: Unicode, b: Bundle, req: Request, i: Identifier)
    requires WellBuilt(b) && i in b.identifiers
    ensures IdentifierHit(u, b, req, i) <==> IdentifierFits(u, b, req, i)
  {
    InScopeMeans(u, b, i.target, req.hints);
  }

  lemma AliasHitMeans(u: Unicode, b: Bundle, req: Request, a: Alias)
    requires WellBuilt(b) && a in b.aliases
    ensures AliasHit(u, b, req, a) <==> AliasFits(u, b, req, a)
  {
    InScopeMeans(u, b, a.target, req.hints);
  }

  // ----- which targets, at which stage -----

  ghost predicate Identified(u: Unicode, b: Bundle, req: Request, x: string) {
    exists i :: IdentifierFits(u, b, req, i) && i.target == x
  }

  ghost predicate Aliased(u: Unicode, b: Bundle, req: Request, x: string) {
    exists a :: AliasFits(u, b, req, a) && a.target == x
  }

  /** An answer of this stage with exactly the targets of T, perhaps repeated, and the status that their number
      gives. */
  ghost predicate AnswersWith(a: Outcome, stage: string, T: set<string>) {
    && a.Exact? && a.stage == stage && (forall x :: x in a.targets <==> x in T)
    && a.status == (if |a.targets| == 1 then "direct" else "disambiguation")
  }

  /** The stages in order: a document's own ID, then identifiers, then aliases; then on to the lexical stage. */
  ghost predicate AnswersRequest(u: Unicode, b: Bundle, req: Request, a: Outcome) {
    if req.normalized == "" then a == NoMatch
    else if exists d :: d in b.documents && d.target == req.normalized then
      AnswersWith(a, "canonical_identifier", {req.normalized})
    else if exists x :: Identified(u, b, req, x) then
      a.Exact? && AnswersWith(a, if req.hints == map[] then "native_identifier" else "scoped_identifier",
                              set x | x in Targets(b.documents) && Identified(u, b, req, x))
    else if exists x :: Aliased(u, b, req, x) then
      a.Exact? && AnswersWith(a, "alias", set x | x in Targets(b.documents) && Aliased(u, b, req, x))
    else a == Lexical
  }

  lemma TargetsMean(u: Unicode, b: Bundle, req: Request)
    requires WellBuilt(b)
    ensures IdentifierTargets(u, b, req) == set x | x in Targets(b.documents) && Identified(u, b, req, x)
    ensures AliasTargets(u, b, req) == set x | x in Targets(b.documents) && Aliased(u, b, req, x)
    ensures IdentifierTargets(u, b, req) != {} <==> exists x :: Identified(u, b, req, x)
    ensures AliasTargets(u, b, req) != {} <==> exists x :: Aliased(u, b, req, x)
  {
    forall x ensures x in IdentifierTargets(u, b, req) <==> Identified(u, b, req, x) {
      forall i | i in b.identifiers ensures IdentifierHit(u, b, req, i) <==> IdentifierFits(u, b, req, i) {
        IdentifierHitMeans(u, b, req, i);
      }
      if i :| IdentifierFits(u, b, req, i) && i.target == x { assert i in b.identifiers; }
    }
    forall x ensures x in AliasTargets(u, b, req) <==> Aliased(u, b, req, x) {
      forall a | a in b.aliases ensures AliasHit(u, b, req, a) <==> AliasFits(u, b, req, a) {
        AliasHitMeans(u, b, req, a);
      }
      if a :| AliasFits(u, b, req, a) && a.target == x { assert a in b.aliases; }
    }
  }

  // ----- in which order -----

  function Text(v: Option<string>): string { if v.Some? then v.value else "" }

  /** The columns both programs sort by, for a document and the identifier that stands for it. */
  function Columns(u: Unicode, d: Document, p: Option<Identifier>): seq<string> {
    [u.casefold(u.nfkc(Text(d.scope.platform))), u.casefold(u.nfkc(Text(d.scope.product))),
     u.casefold(u.nfkc(Text(d.scope.provider))), u.casefold(u.nfkc(Text(d.scope.channel))),
     u.casefold(u.nfkc(if p.Some? then p.value.kind else "")),
     u.casefold(u.nfkc(if p.Some? then p.value.value else "")),
     u.casefold(u.nfkc(Text(d.lifecycle))), d.target]
  }

  /** The first identifier of the target, in the bundle's order, among those that are primary if wanted. */
  ghost predicate FirstAmong(b: Bundle, target: string, primary: bool, p: Identifier, k: nat) {
    && k < |b.identifiers| && b.identifiers[k] == p && p.target == target && (primary ==> p.primary)
    && forall j :: 0 <= j < k ==> !(b.identifiers[j].target == target && (primary ==> b.identifiers[j].primary))
  }

  /** The reference lets the first primary identifier stand for a target, or else its first identifier. */
  ghost predicate StandsFor(b: Bundle, target: string, p: Option<Identifier>) {
    if exists i :: IsPrimary(b, target, i) then p.Some? && exists k: nat :: FirstAmong(b, target, true, p.value, k)
    else if exists i :: i in b.identifiers && i.target == target then
      p.Some? && exists k: nat :: FirstAmong(b, target, false, p.value, k)
    else p == None
  }

  lemma {:induction false} FirstPrimaryMeans(b: Bundle, s: seq<Identifier>, target: string, n: nat)
    requires n <= |b.identifiers| && s == b.identifiers[n..]
    requires forall j :: 0 <= j < n ==> !(b.identifiers[j].target == target && b.identifiers[j].primary)
    ensures FirstPrimary(s, target).Some? ==>
        exists k: nat :: FirstAmong(b, target, true, FirstPrimary(s, target).value, k)
    decreases |s|
  {
    if s != [] {
      if s[0].target == target && s[0].primary {
        assert FirstAmong(b, target, true, s[0], n);
      } else {
        FirstPrimaryMeans(b, s[1..], target, n + 1);
      }
    }
  }

  lemma {:induction false} FirstOfMeans(b: Bundle, s: seq<Identifier>, target: string, n: nat)
    requires n <= |b.identifiers| && s == b.identifiers[n..]
    requires forall j :: 0 <= j < n ==> b.identifiers[j].target != target
    ensures FirstOf(s, target).Some? ==> exists k: nat :: FirstAmong(b, target, false, FirstOf(s, target).value, k)
    decreases |s|
  {
    if s != [] {
      if s[0].target == target {
        assert FirstAmong(b, target, false, s[0], n);
      } else {
        FirstOfMeans(b, s[1..], target, n + 1);
      }
    }
  }

  lemma ReferencePrimaryMeans(b: Bundle, target: string)
    ensures StandsFor(b, target, RefPrimary(b, target))
  {
    assert b.identifiers[0..] == b.identifiers;
    FirstPrimaryMeans(b, b.identifiers, target, 0);
    FirstOfMeans(b, b.identifiers, target, 0);
    if i :| IsPrimary(b, target, i) { assert FirstPrimary(b.identifiers, target).Some?; }
    if FirstPrimary(b.identifiers, target).Some? {
      assert IsPrimary(b, target, FirstPrimary(b.identifiers, target).value);
    }
  }

  /** Document d, sorted as p says, is what stands at a position of the answer. */
  ghost predicate Standing(b: Bundle, target: string, d: Document, p: Option<Identifier>) {
    d in b.documents && d.target == target && StandsFor(b, target, p)
  }

  /** In the order of the columns. */
  ghost predicate ReferenceOrder(u: Unicode, b: Bundle, targets: seq<string>) {
    forall i, j, d, e, p, q ::
      0 <= i < j < |targets| && Standing(b, targets[i], d, p) && Standing(b, targets[j], e, q) ==>
        TupleBelow(Columns(u, d, p), Columns(u, e, q))
  }

  lemma StandsForOne(b: Bundle, target: string, p: Option<Identifier>, q: Option<Identifier>)
    requires StandsFor(b, target, p) && StandsFor(b, target, q)
    ensures p == q
  {
    if i :| IsPrimary(b, target, i) {
      var k: nat :| FirstAmong(b, target, true, p.value, k);
      var l: nat :| FirstAmong(b, target, true, q.value, l);
    } else if i :| i in b.identifiers && i.target == target {
      var k: nat :| FirstAmong(b, target, false, p.value, k);
      var l: nat :| FirstAmong(b, target, false, q.value, l);
    }
  }

  lemma ReferenceInOrder(u: Unicode, b: Bundle, T: set<string>, targets: seq<string>)
    requires WellBuilt(b) && T <= Targets(b.documents) && Arranges(RefLess(u, b), targets, T)
    ensures NoDup(targets) && ReferenceOrder(u, b, targets)
  {
    RefOrder(u, b);
    forall i, j, d, e, p, q | 0 <= i < j < |targets| && Standing(b, targets[i], d, p) && Standing(b, targets[j], e, q)
      ensures TupleBelow(Columns(u, d, p), Columns(u, e, q))
    {
      ReferencePrimaryMeans(b, d.target);
      ReferencePrimaryMeans(b, e.target);
      StandsForOne(b, d.target, p, RefPrimary(b, d.target));
      StandsForOne(b, e.target, q, RefPrimary(b, e.target));
      RefKeyMeans(u, b, d);
      RefKeyMeans(u, b, e);
      assert targets[i] != targets[j] && !RefLess(u, b)(targets[j], targets[i]);
      TupleLessMeans(RefKey(u, b, d.target), RefKey(u, b, e.target));
    }
  }

  lemma RefKeyMeans(u: Unicode, b: Bundle, d: Document)
    requires WellBuilt(b) && d in b.documents
    ensures RefKey(u, b, d.target) == Columns(u, d, RefPrimary(b, d.target))
  {
    TargetHasDocument(b.documents, d.target);
    DocumentUnique(b.documents, d, FindDocument(b.documents, d.target).value);
  }

  lemma ReferenceAnswerMeans(u: Unicode, b: Bundle, stage: string, T: set<string>)
    requires WellBuilt(b) && T <= Targets(b.documents)
    ensures var a := RefAnswer(u, b, stage, T);
            AnswersWith(a, stage, T) && NoDup(a.targets) && ReferenceOrder(u, b, a.targets)
  {
    RefOrder(u, b);
    ReferenceInOrder(u, b, T, Arranged(RefLess(u, b), T));
  }

  /** The stage and targets of a request, by rows. */
  lemma StageMeans(u: Unicode, b: Bundle, req: Request, a: Outcome)
    requires WellBuilt(b)
    requires match StageOf(u, b, req)
             case None => a == if req.normalized == "" then NoMatch else Lexical
             case Some(stage) => AnswersWith(a, stage, Matched(u, b, req))
    ensures AnswersRequest(u, b, req, a)
  {
    TargetsMean(u, b, req);
    HitsAreTargets(u, b, req);
  }

  /** The reference answers the request, each target once, in the order of the columns. */
  lemma ReferenceMeans(u: Unicode, b: Bundle, req: Request)
    requires WellBuilt(b)
    ensures var a := RefOutcome(u, b, req);
            AnswersRequest(u, b, req, a) && (a.Exact? ==> NoDup(a.targets) && ReferenceOrder(u, b, a.targets))
  {
    ReferenceStage(u, b, req);
    if StageOf(u, b, req).Some? {
      MatchedIsKnown(u, b, req);
      ReferenceAnswerMeans(u, b, StageOf(u, b, req).value, Matched(u, b, req));
    }
    StageMeans(u, b, req, RefOutcome(u, b, req));
  }

  // ----- the SQL answer -----

  /** The index lets each primary identifier stand for a target once, and nothing if it has none. */
  ghost predicate RowFor(b: Bundle, row: JoinedRow) {
    && row.document in b.documents
    && (row.primary.Some? ==> IsPrimary(b, row.document.target, row.primary.value))
    && (row.primary.None? ==> forall p :: !IsPrimary(b, row.document.target, p))
  }

  /** Every row of every target once, in the order of the columns; rows that tie in any order. */
  ghost predicate SqlOrder(u: Unicode, b: Bundle, targets: seq<string>, rows: seq<JoinedRow>) {
    && |rows| == |targets| && NoDup(rows)
    && (forall k :: 0 <= k < |rows| ==> RowFor(b, rows[k]) && rows[k].document.target == targets[k])
    && (forall row :: RowFor(b, row) && row.document.target in targets ==> row in rows)
    && forall i, j :: 0 <= i < j < |rows| ==>
         !TupleBelow(Columns(u, rows[j].document, rows[j].primary), Columns(u, rows[i].document, rows[i].primary))
  }

  lemma RowMeans(u: Unicode, b: Bundle, t: Tables, T: set<string>, row: JoinedRow)
    requires Holds(u, b, t)
    ensures row in Joined(t, T) <==> RowFor(b, row) && row.document.target in T
  {
    forall p ensures IsPrimary(b, row.document.target, p) <==>
                     IdRowOf(u, p) in t.identifiers && p.target == row.document.target && p.primary
    {
    }
    if row in Joined(t, T) && row.primary.None? {
      forall p ensures !IsPrimary(b, row.document.target, p) {
        assert IdRowOf(u, p).item == p;
      }
    }
    if RowFor(b, row) && row.document.target in T {
      if row.primary.Some? {
        assert IdRowOf(u, row.primary.value) in t.identifiers;
      } else {
        forall r | r in t.identifiers ensures !(r.item.target == row.document.target && r.item.primary) {
          assert !IsPrimary(b, row.document.target, r.item);
        }
      }
    }
  }

  lemma SomeRow(b: Bundle, x: string) returns (row: JoinedRow)
    requires x in Targets(b.documents)
    ensures RowFor(b, row) && row.document.target == x
  {
    var d :| d in b.documents && d.target == x;
    if p :| IsPrimary(b, x, p) { row := JoinedRow(d, Some(p)); } else { row := JoinedRow(d, None); }
  }

  lemma RowsAscend(u: Unicode, rows: seq<JoinedRow>, i: nat, j: nat)
    requires Sorted(RowOrder(u), rows) && i < j < |rows|
    ensures !TupleBelow(Columns(u, rows[j].document, rows[j].primary), Columns(u, rows[i].document, rows[i].primary))
  {
    assert !RowOrder(u)(rows[j], rows[i]);
    TupleLessMeans(Columns(u, rows[j].document, rows[j].primary), Columns(u, rows[i].document, rows[i].primary));
  }

  ghost predicate ExactRows(b: Bundle, T: set<string>, rows: seq<JoinedRow>) {
    forall row :: row in rows <==> RowFor(b, row) && row.document.target in T
  }

  lemma RowsCover(b: Bundle, T: set<string>, rows: seq<JoinedRow>, x: string)
    requires T <= Targets(b.documents) && ExactRows(b, T, rows)
    ensures x in TargetsOf(rows) <==> x in T
  {
    if x in T {
      var row := SomeRow(b, x);
      var k :| 0 <= k < |rows| && rows[k] == row;
      assert TargetsOf(rows)[k] == x;
    }
    if x in TargetsOf(rows) {
      var k :| 0 <= k < |rows| && TargetsOf(rows)[k] == x;
      assert rows[k] in rows;
    }
  }

  lemma RowsInOrder(u: Unicode, b: Bundle, T: set<string>, rows: seq<JoinedRow>)
    requires T <= Targets(b.documents) && ExactRows(b, T, rows) && NoDup(rows) && Sorted(RowOrder(u), rows)
    ensures SqlOrder(u, b, TargetsOf(rows), rows)
  {
    forall k | 0 <= k < |rows| ensures RowFor(b, rows[k]) { assert rows[k] in rows; }
    forall i, j | 0 <= i < j < |rows|
      ensures !TupleBelow(Columns(u, rows[j].document, rows[j].primary), Columns(u, rows[i].document, rows[i].primary))
    {
      RowsAscend(u, rows, i, j);
    }
    forall row | RowFor(b, row) && row.document.target in TargetsOf(rows) ensures row in rows {
      RowsCover(b, T, rows, row.document.target);
    }
  }

  lemma SqlAnswerMeans(u: Unicode, b: Bundle, t: Tables, stage: string, T: set<string>, a: Outcome)
    requires Holds(u, b, t) && T <= Targets(b.documents) && SqlAnswer(u, t, stage, T, a)
    ensures AnswersWith(a, stage, T) && exists rows :: SqlOrder(u, b, a.targets, rows)
  {
    var rows: seq<JoinedRow> :| Arranges(RowOrder(u), rows, Joined(t, T)) && a.targets == TargetsOf(rows);
    forall row ensures row in rows <==> RowFor(b, row) && row.document.target in T { RowMeans(u, b, t, T, row); }
    forall x ensures x in a.targets <==> x in T { RowsCover(b, T, rows, x); }
    RowsInOrder(u, b, T, rows);
  }

  /** Whatever the index answers, it answers the request, in the order of its own columns. */
  lemma SqlMeans(u: Unicode, b: Bundle, t: Tables, req: Request, a: Outcome)
    requires WellBuilt(b) && Holds(u, b, t) && SqlOutcome(u, t, req, a)
    ensures AnswersRequest(u, b, req, a) && (a.Exact? ==> exists rows :: SqlOrder(u, b, a.targets, rows))
  {
    SqlStage(u, b, t, req, a);
    if StageOf(u, b, req).Some? {
      MatchedIsKnown(u, b, req);
      SqlAnswerMeans(u, b, t, StageOf(u, b, req).value, Matched(u, b, req), a);
    }
    StageMeans(u, b, req, a);
  }

  // ----- both, from the records -----

  ghost predicate SqlMayAnswer(u: Unicode, b: Bundle, req: Request, a: Outcome) {
    exists t :: Holds(u, b, t) && SqlOutcome(u, t, req, a)
  }

  /** From the records to the answers: build, index, ask both. */
  method AskBoth(u: Unicode, records: seq<Record>, req: Request) returns (r: Result<(Outcome, Outcome)>)
    ensures r.Ok? <==> ValidInput(records) && Insertable(Projection(u, records))
    ensures r.Ok? ==>
      var b := Projection(u, records);
      && r.value.0 == RefOutcome(u, b, req)
      && SqlMayAnswer(u, b, req, r.value.1)
      && (OnePrimary(b, Matched(u, b, req)) ==> r.value.0 == r.value.1)
    ensures r.Ok? ==>
      var b := Projection(u, records);
      && AnswersRequest(u, b, req, r.value.0) && AnswersRequest(u, b, req, r.value.1)
      && (r.value.0.Exact? ==> NoDup(r.value.0.targets) && ReferenceOrder(u, b, r.value.0.targets))
      && (r.value.1.Exact? ==> exists rows :: SqlOrder(u, b, r.value.1.targets, rows))
  {
    var bundle := BuildProjection(u, records);
    if bundle.Err? { return Err(bundle.error); }
    var b := bundle.value;
    WellBuiltIsValidated(b);
    var tables := Populate(u, b);
    if tables.Err? { return Err(tables.error); }
    var one := ReferenceResolve(u, b, req);
    var two := SqliteResolve(u, tables.value, req);
    if OnePrimary(b, Matched(u, b, req)) {
      ResolversAgree(u, b, tables.value, req, two);
    }
    ReferenceMeans(u, b, req);
    SqlMeans(u, b, tables.value, req, two);
    r := Ok((one, two));
  }
}

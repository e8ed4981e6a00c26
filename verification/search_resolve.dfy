/** The exact stages of ReferenceResolver.resolve and SQLiteSearchCore.resolve. */
module SearchResolve {
  import opened Wrappers
  import opened Ordering
  import opened SearchBundle
  import opened SearchIndex

  /** What parse_query hands to both resolvers. */
  datatype Request = Request(normalized: string, hints: map<string, string>, typeHint: Option<string>,
                             valueHint: Option<string>)

  /** An exact answer, an empty query, or on to the lexical stage. */
  datatype Outcome = NoMatch | Exact(stage: string, status: string, targets: seq<string>) | Lexical

  function Status(targets: seq<string>): string { if |targets| == 1 then "direct" else "disambiguation" }

  function IdentifierStage(req: Request): string {
    if req.hints != map[] then "scoped_identifier" else "native_identifier"
  }

  // ----- the reference scan -----

  predicate MatchValue(u: Unicode, query: string, candidate: string, caseSensitive: bool) {
    if caseSensitive then u.nfkc(query) == u.nfkc(candidate) else Fold(u, query) == Fold(u, candidate)
  }

  predicate ScopeMatches(u: Unicode, d: Document, hints: map<string, string>) {
    forall key :: key in hints ==>
      ScopeValue(d, key).Some? && Fold(u, ScopeValue(d, key).value) == Fold(u, hints[key])
  }

  /** self.documents[target_id] */
  function FindDocument(ds: seq<Document>, target: string): (d: Option<Document>)
    ensures d.Some? ==> d.value in ds && d.value.target == target
    ensures d.None? ==> forall e :: e in ds ==> e.target != target
  {
    if ds == [] then None
    else
      var last := |ds| - 1;
      assert ds == ds[..last] + [ds[last]];
      if ds[last].target == target then Some(ds[last]) else FindDocument(ds[..last], target)
  }

  predicate InScope(u: Unicode, b: Bundle, target: string, hints: map<string, string>) {
    var d := FindDocument(b.documents, target);
    d.Some? && ScopeMatches(u, d.value, hints)
  }

  predicate IdentifierHit(u: Unicode, b: Bundle, req: Request, i: Identifier) {
    && req.valueHint.Some?
    && (req.typeHint.Some? && req.typeHint.value != "" ==> i.kind == req.typeHint.value)
    && (req.hints != map[] ==> InScope(u, b, i.target, req.hints))
    && MatchValue(u, req.valueHint.value, i.value, i.caseSensitive)
  }

  predicate AliasHit(u: Unicode, b: Bundle, req: Request, a: Alias) {
    && MatchValue(u, req.normalized, a.value, a.caseSensitive)
    && (req.hints != map[] ==> InScope(u, b, a.target, req.hints))
  }

  /** The first identifier of the target flagged primary. */
  function FirstPrimary(s: seq<Identifier>, target: string): (p: Option<Identifier>)
    ensures p.Some? ==> p.value in s && p.value.target == target && p.value.primary
    ensures p.None? ==> forall i :: i in s ==> !(i.target == target && i.primary)
  {
    if s == [] then None
    else if s[0].target == target && s[0].primary then Some(s[0])
    else FirstPrimary(s[1..], target)
  }

  function FirstOf(s: seq<Identifier>, target: string): (p: Option<Identifier>)
    ensures p.Some? ==> p.value in s && p.value.target == target
    ensures p.None? ==> forall i :: i in s ==> i.target != target
  {
    if s == [] then None else if s[0].target == target then Some(s[0]) else FirstOf(s[1..], target)
  }

  function RefPrimary(b: Bundle, target: string): Option<Identifier> {
    var p := FirstPrimary(b.identifiers, target);
    if p.Some? then p else FirstOf(b.identifiers, target)
  }

  function Or(v: Option<string>): string { if v.Some? then v.value else "" }

  /** The stable key of both resolvers, from a document and the identifier chosen for it. */
  function SortKey(u: Unicode, d: Document, p: Option<Identifier>): seq<string> {
    [Fold(u, Or(d.scope.platform)), Fold(u, Or(d.scope.product)), Fold(u, Or(d.scope.provider)), Fold(u,
        Or(d.scope.channel)),
     Fold(u, if p.Some? then p.value.kind else ""), Fold(u, if p.Some? then p.value.value else ""),
     Fold(u, Or(d.lifecycle)), d.target]
  }

  function RefKey(u: Unicode, b: Bundle, target: string): (k: seq<string>)
    ensures k != [] && k[|k| - 1] == target
  {
    var d := FindDocument(b.documents, target);
    if d.Some? then SortKey(u, d.value, RefPrimary(b, target)) else [target]
  }

  function RefLess(u: Unicode, b: Bundle): (string, string) -> bool {
    (s: string, t: string) => TupleLess(RefKey(u, b, s), RefKey(u, b, t))
  }

  lemma RefOrder(u: Unicode, b: Bundle)
    ensures StrictTotal(RefLess(u, b)) && StrictWeak(RefLess(u, b))
  {
    TupleStrictTotal();
    forall s, t | s != t ensures RefKey(u, b, s) != RefKey(u, b, t) {
      assert RefKey(u, b, s)[|RefKey(u, b, s)| - 1] == s;
    }
    StrictTotalIsWeak(RefLess(u, b));
  }

  ghost function IdentifierTargets(u: Unicode, b: Bundle, req: Request): set<string> {
    set i | i in b.identifiers && IdentifierHit(u, b, req, i) :: i.target
  }

  ghost function AliasTargets(u: Unicode, b: Bundle, req: Request): set<string> {
    set a | a in b.aliases && AliasHit(u, b, req, a) :: a.target
  }

  ghost function RefAnswer(u: Unicode, b: Bundle, stage: string, T: set<string>): Outcome {
    RefOrder(u, b);
    var targets := Arranged(RefLess(u, b), T);
    Exact(stage, Status(targets), targets)
  }

  /** What the reference resolver answers at the exact stages. */
  ghost function RefOutcome(u: Unicode, b: Bundle, req: Request): Outcome {
    if req.normalized == "" then NoMatch
    else if req.normalized in Targets(b.documents) then RefAnswer(u, b, "canonical_identifier", {req.normalized})
    else if IdentifierTargets(u, b, req) != {} then RefAnswer(u, b, IdentifierStage(req), IdentifierTargets(u, b, req))
    else if AliasTargets(u, b, req) != {} then RefAnswer(u, b, "alias", AliasTargets(u, b, req))
    else Lexical
  }

  ghost predicate Collects(hits: seq<string>, T: set<string>) {
    (forall t :: t in hits <==> t in T) && (hits == [] <==> T == {})
  }

  /** _envelope: the first match of each target, in stable order. */
  method Envelope(u: Unicode, b: Bundle, stage: string, hits: seq<string>, ghost T: set<string>) returns (a: Outcome)
    requires Collects(hits, T)
    ensures a == RefAnswer(u, b, stage, T)
  {
    var unique := Dedup(hits);
    var ordered := Sort(RefLess(u, b), unique);
    RefOrder(u, b);
    SortArranges(RefLess(u, b), unique, T);
    ArrangeUnique(RefLess(u, b), ordered, Arranged(RefLess(u, b), T), T);
    a := Exact(stage, Status(ordered), ordered);
  }

  lemma NonEmpty(hits: seq<string>, T: set<string>)
    requires forall t :: t in hits <==> t in T
    ensures Collects(hits, T)
  {
    if hits != [] { assert hits[0] in T; }
  }

  method ScanIdentifiers(u: Unicode, b: Bundle, req: Request) returns (hits: seq<string>)
    ensures Collects(hits, IdentifierTargets(u, b, req))
  {
    hits := [];
    for k := 0 to |b.identifiers|
      invariant forall t :: t in hits <==>
        exists j :: 0 <= j < k && IdentifierHit(u, b, req, b.identifiers[j]) && b.identifiers[j].target == t
    {
      if IdentifierHit(u, b, req, b.identifiers[k]) {
        hits := hits + [b.identifiers[k].target];
      }
    }
    NonEmpty(hits, IdentifierTargets(u, b, req));
  }

  method ScanAliases(u: Unicode, b: Bundle, req: Request) returns (hits: seq<string>)
    ensures Collects(hits, AliasTargets(u, b, req))
  {
    hits := [];
    for k := 0 to |b.aliases|
      invariant forall t :: t in hits <==>
        exists j :: 0 <= j < k && AliasHit(u, b, req, b.aliases[j]) && b.aliases[j].target == t
    {
      if AliasHit(u, b, req, b.aliases[k]) {
        hits := hits + [b.aliases[k].target];
      }
    }
    NonEmpty(hits, AliasTargets(u, b, req));
  }

  method FindCanonical(b: Bundle, target: string) returns (found: bool)
    ensures found <==> target in Targets(b.documents)
  {
    found := FindDocument(b.documents, target).Some?;
  }

  /** ReferenceResolver.resolve up to the alias stage. */
  method ReferenceResolve(u: Unicode, b: Bundle, req: Request) returns (a: Outcome)
    ensures a == RefOutcome(u, b, req)
  {
    if req.normalized == "" { return NoMatch; }
    var canonical := FindCanonical(b, req.normalized);
    if canonical {
      a := Envelope(u, b, "canonical_identifier", [req.normalized], {req.normalized});
      return;
    }
    var hits := ScanIdentifiers(u, b, req);
    if hits != [] {
      a := Envelope(u, b, IdentifierStage(req), hits, IdentifierTargets(u, b, req));
      return;
    }
    hits := ScanAliases(u, b, req);
    if hits != [] {
      a := Envelope(u, b, "alias", hits, AliasTargets(u, b, req));
      return;
    }
    a := Lexical;
  }

  // ----- the SQL queries -----

  /** The scope clause: one EXISTS over facets per hint. */
  predicate ScopeClause(u: Unicode, t: Tables, target: string, hints: map<string, string>) {
    forall key :: key in hints ==>
      exists f :: f in t.facets && f.target == target && f.key == key && f.norm == Fold(u, hints[key])
  }

  predicate MatchClause(u: Unicode, query: string, caseSensitive: bool, matchValue: string) {
    (caseSensitive && matchValue == u.nfkc(query)) || (!caseSensitive && matchValue == Fold(u, query))
  }

  predicate HasRow(t: Tables, target: string) { exists d :: d in t.documents && d.target == target }

  /** SELECT target_id FROM identifiers JOIN documents WHERE ... */
  function SelectIdentifiers(u: Unicode, t: Tables, req: Request): set<string>
    requires req.valueHint.Some?
  {
    set r | && r in t.identifiers
            && HasRow(t, r.item.target)
            && MatchClause(u, req.valueHint.value, r.item.caseSensitive, r.matchValue)
            && (req.typeHint.Some? && req.typeHint.value != "" ==> r.item.kind == req.typeHint.value)
            && ScopeClause(u, t, r.item.target, req.hints)
      :: r.item.target
  }

  /** SELECT target_id FROM aliases JOIN documents WHERE ... */
  function SelectAliases(u: Unicode, t: Tables, req: Request): set<string> {
    set r | && r in t.aliases
            && HasRow(t, r.item.target)
            && MatchClause(u, req.normalized, r.item.caseSensitive, r.matchValue)
            && ScopeClause(u, t, r.item.target, req.hints)
      :: r.item.target
  }

  datatype JoinedRow = JoinedRow(document: Document, primary: Option<Identifier>)

  /** documents LEFT JOIN identifiers ON primary_flag=1 WHERE target_id IN T */
  function Joined(t: Tables, T: set<string>): set<JoinedRow> {
    (set d, r | d in t.documents && d.target in T && r in t.identifiers && r.item.target == d.target && r.item.primary
       :: JoinedRow(d, Some(r.item)))
    + (set d | d in t.documents && d.target in T && (forall r :: r in t.identifiers ==>
        !(r.item.target == d.target && r.item.primary))
       :: JoinedRow(d, None))
  }

  predicate RowLess(u: Unicode, a: JoinedRow, b: JoinedRow) {
    TupleLess(SortKey(u, a.document, a.primary), SortKey(u, b.document, b.primary))
  }

  function RowOrder(u: Unicode): (JoinedRow, JoinedRow) -> bool {
    (a: JoinedRow, b: JoinedRow) => RowLess(u, a, b)
  }

  function TargetsOf(rows: seq<JoinedRow>): (s: seq<string>)
    ensures |s| == |rows| && forall k :: 0 <= k < |rows| ==> s[k] == rows[k].document.target
  {
    seq(|rows|, k requires 0 <= k < |rows| => rows[k].document.target)
  }

  /** A sorted listing of the joined rows; the engine's own row order is not specified. */
  ghost predicate SelectedAs(u: Unicode, t: Tables, T: set<string>, targets: seq<string>) {
    exists rows :: Arranges(RowOrder(u), rows, Joined(t, T)) && targets == TargetsOf(rows)
  }

  ghost predicate SqlAnswer(u: Unicode, t: Tables, stage: string, T: set<string>, a: Outcome) {
    a.Exact? && a.stage == stage && a.status == Status(a.targets) && SelectedAs(u, t, T, a.targets)
  }

  /** What the SQLite resolver may answer at the exact stages. */
  ghost predicate SqlOutcome(u: Unicode, t: Tables, req: Request, a: Outcome) {
    if req.normalized == "" then a == NoMatch
    else if HasRow(t, req.normalized) then SqlAnswer(u, t, "canonical_identifier", {req.normalized}, a)
    else if req.valueHint.Some? && SelectIdentifiers(u, t, req) != {} then
      SqlAnswer(u, t, IdentifierStage(req), SelectIdentifiers(u, t, req), a)
    else if SelectAliases(u, t, req) != {} then SqlAnswer(u, t, "alias", SelectAliases(u, t, req), a)
    else a == Lexical
  }

  lemma RowOrderIsWeak(u: Unicode)
    ensures StrictWeak(RowOrder(u))
  {
    TupleStrictTotal();
    KeyOrderIsWeak(RowOrder(u), (r: JoinedRow) => SortKey(u, r.document, r.primary), TupleLess);
  }

  /** _select_documents_for_targets: fetchall in any order, then sorted by the key. */
  method SelectDocuments(u: Unicode, t: Tables, stage: string, T: set<string>) returns (a: Outcome)
    ensures SqlAnswer(u, t, stage, T, a)
  {
    var fetched := Enumerate(Joined(t, T));
    var rows := Sort(RowOrder(u), fetched);
    RowOrderIsWeak(u);
    SortArranges(RowOrder(u), fetched, Joined(t, T));
    a := Exact(stage, Status(TargetsOf(rows)), TargetsOf(rows));
  }

  /** SQLiteSearchCore.resolve up to the alias stage. */
  method SqliteResolve(u: Unicode, t: Tables, req: Request) returns (a: Outcome)
    ensures SqlOutcome(u, t, req, a)
  {
    if req.normalized == "" { return NoMatch; }
    if HasRow(t, req.normalized) {
      a := SelectDocuments(u, t, "canonical_identifier", {req.normalized});
      return;
    }
    if req.valueHint.Some? {
      var found := SelectIdentifiers(u, t, req);
      if found != {} {
        a := SelectDocuments(u, t, IdentifierStage(req), found);
        return;
      }
    }
    var found := SelectAliases(u, t, req);
    if found != {} {
      a := SelectDocuments(u, t, "alias", found);
      return;
    }
    a := Lexical;
  }
}

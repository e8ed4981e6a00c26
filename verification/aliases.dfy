/** Alias collisions and query resolution of tools/validate_phase52.py. */
module Aliases {
  import opened Wrappers
  import opened Ordering
  import opened Text

  datatype Alias = Alias(value: string, caseSensitive: bool, namespace: Option<string>, entityType: Option<string>,
                         provider: Option<string>, locale: Option<string>)

  datatype Native = Native(value: string, caseSensitive: bool)

  datatype Record = Record(kind: string, id: string, namespace: string, title: string, natives: seq<Native>,
                           aliases: seq<Alias>)

  type Casefold = string -> string

  /** The comparison of resolve_query. */
  predicate Same(f: Casefold, query: string, value: string, caseSensitive: bool) {
    if caseSensitive then value == query else f(value) == f(query)
  }

  /** _alias_values_equal */
  predicate ValuesEqual(f: Casefold, l: Alias, r: Alias) {
    if l.caseSensitive && r.caseSensitive then l.value == r.value else f(l.value) == f(r.value)
  }

  predicate Apart(l: Option<string>, r: Option<string>) { l.Some? && r.Some? && l != r }

  /** _alias_scopes_overlap */
  predicate ScopesOverlap(l: Alias, r: Alias) {
    !Apart(l.namespace, r.namespace) && !Apart(l.entityType, r.entityType) && !Apart(l.provider, r.provider)
        && !Apart(l.locale, r.locale)
  }

  /** Two aliases are value-equal exactly when some query matches both, for any casefold. */
  lemma ValuesEqualIff(f: Casefold, l: Alias, r: Alias)
    ensures ValuesEqual(f, l, r) <==>
      exists q :: Same(f, q, l.value, l.caseSensitive) && Same(f, q, r.value, r.caseSensitive)
  {
    if ValuesEqual(f, l, r) {
      var q := if l.caseSensitive then l.value else r.value;
      assert Same(f, q, l.value, l.caseSensitive) && Same(f, q, r.value, r.caseSensitive);
    }
  }

  // ----- collisions -----

  datatype Owned = Owned(id: string, alias: Alias)

  function OwnedBy(id: string, aliases: seq<Alias>): (s: seq<Owned>)
    ensures |s| == |aliases| && forall k :: 0 <= k < |s| ==> s[k] == Owned(id, aliases[k])
  {
    seq(|aliases|, k requires 0 <= k < |aliases| => Owned(id, aliases[k]))
  }

  /** The aliases of all entities, in record order. */
  function AllAliases(records: seq<Record>): seq<Owned> {
    if records == [] then [] else
      var last := records[|records| - 1];
      AllAliases(records[..|records| - 1]) + if last.kind == "entity" then OwnedBy(last.id, last.aliases) else []
  }

  ghost predicate Owns(records: seq<Record>, o: Owned) {
    exists r :: r in records && r.kind == "entity" && r.id == o.id && o.alias in r.aliases
  }

  lemma {:induction false} AllAliasesOwned(records: seq<Record>, o: Owned)
    ensures o in AllAliases(records) <==> Owns(records, o)
  {
    if records != [] {
      var last, front := records[|records| - 1], records[..|records| - 1];
      assert records == front + [last];
      AllAliasesOwned(front, o);
      if o in OwnedBy(last.id, last.aliases) {
        var k :| 0 <= k < |last.aliases| && OwnedBy(last.id, last.aliases)[k] == o;
        assert last.aliases[k] in last.aliases;
      }
      if o.alias in last.aliases && o.id == last.id {
        var k :| 0 <= k < |last.aliases| && last.aliases[k] == o.alias;
        assert OwnedBy(last.id, last.aliases)[k] == o;
      }
      if Owns(front, o) {
        var r :| r in front && r.kind == "entity" && r.id == o.id && o.alias in r.aliases;
        assert r in records;
      }
    }
  }

  predicate Collide(f: Casefold, a: Owned, b: Owned) {
    a.id != b.id && ValuesEqual(f, a.alias, b.alias) && ScopesOverlap(a.alias, b.alias)
  }

  /** Neither scope field is given twice with different texts. */
  ghost predicate Compatible(l: Option<string>, r: Option<string>) {
    forall x, y :: l == Some(x) && r == Some(y) ==> x == y
  }

  /** Two entities share an alias: some query is the text of both, letter case aside unless both say otherwise, and
      no scope field tells them apart. */
  ghost predicate Clash(f: Casefold, a: Owned, b: Owned) {
    && a.id != b.id
    && (if a.alias.caseSensitive && b.alias.caseSensitive then a.alias.value == b.alias.value
        else f(a.alias.value) == f(b.alias.value))
    && Compatible(a.alias.namespace, b.alias.namespace) && Compatible(a.alias.entityType, b.alias.entityType)
    && Compatible(a.alias.provider, b.alias.provider) && Compatible(a.alias.locale, b.alias.locale)
  }

  lemma CollideMeans(f: Casefold, a: Owned, b: Owned)
    ensures Collide(f, a, b) <==> Clash(f, a, b)
  {
    ApartMeans(a.alias.namespace, b.alias.namespace);
    ApartMeans(a.alias.entityType, b.alias.entityType);
    ApartMeans(a.alias.provider, b.alias.provider);
    ApartMeans(a.alias.locale, b.alias.locale);
  }

  lemma ApartMeans(l: Option<string>, r: Option<string>)
    ensures Apart(l, r) <==> !Compatible(l, r)
  {
  }

  lemma ClashSymmetric(f: Casefold, a: Owned, b: Owned)
    ensures Clash(f, a, b) == Clash(f, b, a)
  {
    CollideMeans(f, a, b);
    CollideMeans(f, b, a);
  }

  ghost predicate CollisionFree(f: Casefold, records: seq<Record>) {
    forall a, b :: Owns(records, a) && Owns(records, b) ==> !Clash(f, a, b)
  }

  datatype Collision = Collision(value: string, left: string, right: string)

  function Report(a: Owned, b: Owned): Collision { Collision(a.alias.value, a.id, b.id) }

  /** The order in which the two loops meet the pairs. */
  predicate PairBelow(p: (nat, nat), q: (nat, nat)) { p.0 < q.0 || (p.0 == q.0 && p.1 < q.1) }

  /** x reports the aliases at two indices: the first one's text and both owners. */
  ghost predicate Reported(f: Casefold, s: seq<Owned>, x: Collision, p: (nat, nat)) {
    && p.0 < p.1 < |s| && Clash(f, s[p.0], s[p.1])
    && x == Collision(s[p.0].alias.value, s[p.0].id, s[p.1].id)
  }

  /** The errors report the clashing pairs of indices met before end: each once, in order, and nothing else. */
  ghost predicate Lists(f: Casefold, s: seq<Owned>, pairs: seq<(nat, nat)>, errors: seq<Collision>, end: (nat, nat)) {
    && |pairs| == |errors|
    && (forall m, n :: 0 <= m < n < |pairs| ==> PairBelow(pairs[m], pairs[n]))
    && (forall n :: 0 <= n < |pairs| ==> Reported(f, s, errors[n], pairs[n]))
    && (forall p :: p in pairs ==> PairBelow(p, end))
    && (forall p: (nat, nat) :: p.0 < p.1 < |s| && PairBelow(p, end) && Clash(f, s[p.0], s[p.1]) ==> p in pairs)
  }

  ghost predicate ListsAll(f: Casefold, s: seq<Owned>, pairs: seq<(nat, nat)>, errors: seq<Collision>) {
    Lists(f, s, pairs, errors, (|s|, |s| + 1))
  }

  /** The next pair is listed exactly when it clashes. */
  lemma ListsNext(f: Casefold, s: seq<Owned>, pairs: seq<(nat, nat)>, errors: seq<Collision>, i: nat, j: nat)
    requires i < j < |s| && Lists(f, s, pairs, errors, (i, j))
    ensures if Clash(f, s[i], s[j]) then Lists(f, s, pairs + [(i, j)], errors + [Report(s[i], s[j])], (i, j + 1))
            else Lists(f, s, pairs, errors, (i, j + 1))
  {
    forall p: (nat, nat) ensures PairBelow(p, (i, j + 1)) <==> PairBelow(p, (i, j)) || p == (i, j) { }
  }

  lemma ListsRow(f: Casefold, s: seq<Owned>, pairs: seq<(nat, nat)>, errors: seq<Collision>, i: nat)
    requires i < |s| && Lists(f, s, pairs, errors, (i, |s|))
    ensures Lists(f, s, pairs, errors, (i + 1, i + 2))
  {
  }

  method GatherAliases(records: seq<Record>) returns (s: seq<Owned>)
    ensures s == AllAliases(records)
  {
    s := [];
    for k := 0 to |records|
      invariant s == AllAliases(records[..k])
    {
      assert records[..k + 1][..k] == records[..k];
      if records[k].kind == "entity" { s := s + OwnedBy(records[k].id, records[k].aliases); } else { s := s + []; }
    }
    assert records[..|records|] == records;
  }

  method CompareLater(f: Casefold, s: seq<Owned>, i: nat, errors: seq<Collision>, ghost before: seq<(nat, nat)>)
    returns (r: seq<Collision>, ghost pairs: seq<(nat, nat)>)
    requires i < |s| && Lists(f, s, before, errors, (i, i + 1))
    ensures Lists(f, s, pairs, r, (i + 1, i + 2))
  {
    r, pairs := errors, before;
    for j := i + 1 to |s|
      invariant Lists(f, s, pairs, r, (i, j))
    {
      ListsNext(f, s, pairs, r, i, j);
      CollideMeans(f, s[i], s[j]);
      if Collide(f, s[i], s[j]) { r, pairs := r + [Report(s[i], s[j])], pairs + [(i, j)]; }
    }
    ListsRow(f, s, pairs, r, i);
  }

  /** validate_alias_collisions: one error per clashing pair in order, none exactly on collision-free corpora. */
  method ValidateAliasCollisions(f: Casefold, records: seq<Record>) returns (errors: seq<Collision>)
    ensures exists pairs :: ListsAll(f, AllAliases(records), pairs, errors)
    ensures errors == [] <==> CollisionFree(f, records)
  {
    var s := GatherAliases(records);
    errors := [];
    ghost var pairs: seq<(nat, nat)> := [];
    for i := 0 to |s|
      invariant Lists(f, s, pairs, errors, (i, i + 1))
    {
      errors, pairs := CompareLater(f, s, i, errors, pairs);
    }
    assert ListsAll(f, s, pairs, errors);
    NoneListed(f, s, pairs, errors);
    PairsAreOwners(f, records);
  }

  ghost predicate PairsFree(f: Casefold, s: seq<Owned>) {
    forall a, b :: 0 <= a < b < |s| ==> !Clash(f, s[a], s[b])
  }

  lemma NoneListed(f: Casefold, s: seq<Owned>, pairs: seq<(nat, nat)>, errors: seq<Collision>)
    requires ListsAll(f, s, pairs, errors)
    ensures errors == [] <==> PairsFree(f, s)
  {
    if errors != [] { assert Reported(f, s, errors[0], pairs[0]); }
    forall a, b | 0 <= a < b < |s| && Clash(f, s[a], s[b]) ensures errors != [] {
      var p: (nat, nat) := (a, b);
      assert p in pairs;
    }
  }

  lemma PairsAreOwners(f: Casefold, records: seq<Record>)
    ensures PairsFree(f, AllAliases(records)) <==> CollisionFree(f, records)
  {
    var s := AllAliases(records);
    forall o ensures o in s <==> Owns(records, o) { AllAliasesOwned(records, o); }
    if PairsFree(f, s) {
      forall x, y | Owns(records, x) && Owns(records, y) ensures !Clash(f, x, y) {
        assert x in s && y in s;
        var a :| 0 <= a < |s| && s[a] == x;
        var b :| 0 <= b < |s| && s[b] == y;
        ClashSymmetric(f, x, y);
      }
    }
    if CollisionFree(f, records) {
      forall a, b | 0 <= a < b < |s| ensures !Clash(f, s[a], s[b]) {
        assert s[a] in s && s[b] in s;
      }
    }
  }

  // ----- resolution -----

  predicate NamespaceAdmits(namespace: Option<string>, actual: string) {
    namespace.None? || namespace.value == "" || actual == namespace.value
  }

  predicate AliasMatches(f: Casefold, query: string, namespace: Option<string>, a: Alias) {
    && Same(f, query, a.value, a.caseSensitive)
    && (a.namespace.None? || a.namespace.value == "" || NamespaceAdmits(namespace, a.namespace.value))
  }

  predicate RecordMatches(f: Casefold, query: string, namespace: Option<string>, r: Record) {
    && r.kind == "entity"
    && NamespaceAdmits(namespace, r.namespace)
    && (|| f(r.title) == f(query)
        || (exists n :: n in r.natives && Same(f, query, n.value, n.caseSensitive))
        || (exists a :: a in r.aliases && AliasMatches(f, query, namespace, a)))
  }

  ghost function Ids(records: seq<Record>): set<string> { set r | r in records :: r.id }

  ghost function MatchedIds(f: Casefold, records: seq<Record>, query: string, namespace: Option<string>): set<string> {
    set r | r in records && RecordMatches(f, query, namespace, r) :: r.id
  }

  /** A text is asked for: exactly, or letter case aside. */
  predicate Asked(f: Casefold, query: string, value: string, caseSensitive: bool) {
    (caseSensitive && query == value) || (!caseSensitive && f(query) == f(value))
  }

  /** r is an entity of the asked namespace, where one is asked for, that has the query as its title, a native
      identifier, or an alias that is not scoped to another namespace. */
  ghost predicate Answers(f: Casefold, r: Record, query: string, namespace: Option<string>) {
    && r.kind == "entity"
    && (forall n :: namespace == Some(n) && n != "" ==> r.namespace == n)
    && (|| f(query) == f(r.title)
        || (exists x :: x in r.natives && Asked(f, query, x.value, x.caseSensitive))
        || (exists a :: a in r.aliases && Asked(f, query, a.value, a.caseSensitive) && Unscoped(a, namespace)))
  }

  ghost predicate Unscoped(a: Alias, namespace: Option<string>) {
    forall m, n :: a.namespace == Some(m) && namespace == Some(n) && m != "" && n != "" ==> m == n
  }

  lemma MatchMeans(f: Casefold, query: string, namespace: Option<string>, r: Record)
    ensures RecordMatches(f, query, namespace, r) <==> Answers(f, r, query, namespace)
  {
    forall x | x in r.natives
      ensures Same(f, query, x.value, x.caseSensitive) <==> Asked(f, query, x.value, x.caseSensitive)
    {
    }
    forall a | a in r.aliases
      ensures AliasMatches(f, query, namespace, a) <==>
                Asked(f, query, a.value, a.caseSensitive) && Unscoped(a, namespace)
    {
    }
  }

  /** resolve_query */
  method ResolveQuery(f: Casefold, records: seq<Record>, query: string, namespace: Option<string>)
    returns (ids: seq<string>)
    ensures ids == if query in Ids(records) then [query] else SortedStrings(MatchedIds(f, records, query, namespace))
    ensures (exists r :: r in records && r.id == query) ==> ids == [query]
    ensures (forall r :: r in records ==> r.id != query) ==>
              forall id :: id in ids <==> exists r :: r in records && r.id == id && Answers(f, r, query, namespace)
  {
    forall r ensures RecordMatches(f, query, namespace, r) <==> Answers(f, r, query, namespace) {
      MatchMeans(f, query, namespace, r);
    }
    if exists r :: r in records && r.id == query { return [query]; }
    var matches: set<string> := {};
    for k := 0 to |records|
      invariant matches == MatchedIds(f, records[..k], query, namespace)
    {
      assert records[..k + 1] == records[..k] + [records[k]];
      if RecordMatches(f, query, namespace, records[k]) {
        matches := matches + {records[k].id};
      }
    }
    assert records[..|records|] == records;
    ids := SortStrings(matches);
  }

  /** An entity answers a namespaced query through one of its aliases. */
  ghost predicate AliasAnswers(f: Casefold, records: seq<Record>, query: string, namespace: string, o: Owned) {
    exists r :: && r in records && r.kind == "entity" && r.id == o.id && o.alias in r.aliases
                && NamespaceAdmits(Some(namespace), r.namespace) && AliasMatches(f, query, Some(namespace), o.alias)
  }

  predicate DifferElsewhere(a: Alias, b: Alias) {
    Apart(a.entityType, b.entityType) || Apart(a.provider, b.provider) || Apart(a.locale, b.locale)
  }

  /** One scope names the empty namespace and the other the queried one. */
  predicate EmptyAgainstNamed(a: Alias, b: Alias, namespace: string) {
    (a.namespace == Some("") && b.namespace == Some(namespace)) || (b.namespace == Some("")
        && a.namespace == Some(namespace))
  }

  /** In a collision-free corpus two distinct entities that answer one namespaced query by alias differ in
      entity type, provider or locale scope, or one alias is scoped to the empty namespace. */
  lemma NamespacedAnswersDiffer(f: Casefold, records: seq<Record>, query: string, namespace: string, a: Owned, b: Owned)
    requires CollisionFree(f, records) && namespace != "" && a.id != b.id
    requires AliasAnswers(f, records, query, namespace, a) && AliasAnswers(f, records, query, namespace, b)
    ensures DifferElsewhere(a.alias, b.alias) || EmptyAgainstNamed(a.alias, b.alias, namespace)
  {
    ValuesEqualIff(f, a.alias, b.alias);
    assert Owns(records, a) && Owns(records, b);
    CollideMeans(f, a, b);
  }

  /** Distinct answers are disjoint in scope exactly on that condition. */
  lemma AnswersDisjointIff(f: Casefold, records: seq<Record>, query: string, namespace: string, a: Owned, b: Owned)
    requires namespace != "" && a.id != b.id
    requires AliasAnswers(f, records, query, namespace, a) && AliasAnswers(f, records, query, namespace, b)
    ensures !Clash(f, a, b) <==> DifferElsewhere(a.alias, b.alias) || EmptyAgainstNamed(a.alias, b.alias, namespace)
  {
    ValuesEqualIff(f, a.alias, b.alias);
    CollideMeans(f, a, b);
  }

  predicate NameChar(c: char) { 'a' <= c <= 'z' || IsDigit(c) || c == '-' }

  /** What the alias schema demands of a scope's namespace: [a-z0-9-]+ parts, separated by dots. */
  predicate SchemaAlias(a: Alias) {
    a.namespace.Some? ==>
      forall k :: 0 <= k < |Split(a.namespace.value, '.')| ==>
        var part := Split(a.namespace.value, '.')[k];
        part != "" && forall i :: 0 <= i < |part| ==> NameChar(part[i])
  }

  lemma SchemaNamesSomething(a: Alias)
    requires SchemaAlias(a)
    ensures a.namespace != Some("")
  {
    if a.namespace.Some? { assert Split(a.namespace.value, '.')[0] != ""; }
  }

  /** Among aliases that satisfy the schema there is no exception: in a collision-free corpus, two distinct
      entities that answer one namespaced query by alias differ in entity type, provider or locale scope. */
  lemma SchemaAnswersDiffer(f: Casefold, records: seq<Record>, query: string, namespace: string, a: Owned, b: Owned)
    requires CollisionFree(f, records) && namespace != "" && a.id != b.id
    requires SchemaAlias(a.alias) && SchemaAlias(b.alias)
    requires AliasAnswers(f, records, query, namespace, a) && AliasAnswers(f, records, query, namespace, b)
    ensures DifferElsewhere(a.alias, b.alias)
  {
    SchemaNamesSomething(a.alias);
    SchemaNamesSomething(b.alias);
    NamespacedAnswersDiffer(f, records, query, namespace, a, b);
  }

  /** The empty namespace, which only the schema keeps out, really is an exception: this corpus passes, and
      both entities answer. */
  lemma EmptyNamespaceEscapes(f: Casefold)
    ensures var a := Alias("x", true, Some(""), None, None, None);
            var b := a.(namespace := Some("n"));
            var records := [Record("entity", "e1", "n", "t", [], [a]), Record("entity", "e2", "n", "t", [], [b])];
            && CollisionFree(f, records) && !DifferElsewhere(a, b)
            && AliasAnswers(f, records, "x", "n", Owned("e1", a)) && AliasAnswers(f, records, "x", "n", Owned("e2", b))
  {
    var a := Alias("x", true, Some(""), None, None, None);
    var b := a.(namespace := Some("n"));
    var records := [Record("entity", "e1", "n", "t", [], [a]), Record("entity", "e2", "n", "t", [], [b])];
    assert records[0] in records && records[1] in records;
    forall p, q | Owns(records, p) && Owns(records, q) ensures !Clash(f, p, q) {
      assert p.alias == (if p.id == "e1" then a else b) && q.alias == (if q.id == "e1" then a else b);
    }
  }
}

/** numeric_browse of both resolvers. */
module SearchNumeric {
  import opened Wrappers
  import opened Ordering
  import opened SearchBundle
  import opened SearchIndex

  /** One line of the result. */
  datatype Line = Line(target: string, value: string, number: nat)

  function LineOf(i: Identifier): Line
    requires i.number.Some?
  {
    Line(i.target, i.value, i.number.value)
  }

  function LinesOf(s: seq<Identifier>): (r: seq<Line>)
    requires forall k :: 0 <= k < |s| ==> s[k].number.Some?
    ensures |r| == |s| && forall k :: 0 <= k < |s| ==> r[k] == LineOf(s[k])
  {
    seq(|s|, k requires 0 <= k < |s| => LineOf(s[k]))
  }

  function Number(i: Identifier): nat { if i.number.Some? then i.number.value else 0 }

  /** ORDER BY derived_numeric_value, target_id */
  predicate NumberLess(a: Identifier, b: Identifier) {
    Number(a) < Number(b) || (Number(a) == Number(b) && StrLess(a.target, b.target))
  }

  lemma NumberOrder()
    ensures StrictWeak(NumberLess)
  {
    StrStrictTotal();
    StrictTotalIsWeak(StrLess);
  }

  predicate Wanted(i: Identifier, namespace: string, kind: string) {
    i.namespace == namespace && i.kind == kind && i.numeric
  }

  function Rows(s: seq<Identifier>, namespace: string, kind: string): (r: seq<Identifier>)
    ensures forall i :: i in r <==> i in s && Wanted(i, namespace, kind)
  {
    if s == [] then [] else
      var last := |s| - 1;
      assert s == s[..last] + [s[last]];
      Rows(s[..last], namespace, kind) + if Wanted(s[last], namespace, kind) then [s[last]] else []
  }

  predicate IsLineOf(i: Identifier, namespace: string, kind: string, l: Line) {
    && i.namespace == namespace && i.kind == kind && i.numeric
    && i.number == Some(l.number) && i.value == l.value && i.target == l.target
  }

  /** A line for each numeric identifier of the namespace and type, by number and then by target. */
  ghost predicate ListsNumbers(S: set<Identifier>, namespace: string, kind: string, lines: seq<Line>) {
    && (forall l :: l in lines <==> exists i :: i in S && IsLineOf(i, namespace, kind, l))
    && forall j, k :: 0 <= j < k < |lines| ==>
         lines[j].number < lines[k].number
         || (lines[j].number == lines[k].number && !StrBelow(lines[k].target, lines[j].target))
  }

  lemma LinesMean(S: set<Identifier>, namespace: string, kind: string, rows: seq<Identifier>)
    requires Sorted(NumberLess, rows) && forall i :: i in rows ==> i.number.Some?
    requires forall i :: i in rows <==> i in S && Wanted(i, namespace, kind) && i.number.Some?
    ensures ListsNumbers(S, namespace, kind, LinesOf(rows))
  {
    var lines := LinesOf(rows);
    forall l ensures l in lines <==> exists i :: i in S && IsLineOf(i, namespace, kind, l) {
      if l in lines {
        var k :| 0 <= k < |lines| && lines[k] == l;
        assert rows[k] in rows && IsLineOf(rows[k], namespace, kind, l);
      }
      if i :| i in S && IsLineOf(i, namespace, kind, l) {
        assert i in rows;
        var k :| 0 <= k < |rows| && rows[k] == i;
        assert lines[k] == l;
      }
    }
    forall j, k | 0 <= j < k < |lines|
      ensures lines[j].number < lines[k].number
              || (lines[j].number == lines[k].number && !StrBelow(lines[k].target, lines[j].target))
    {
      assert !NumberLess(rows[k], rows[j]);
      StrLessMeans(lines[k].target, lines[j].target);
    }
  }

  /** ReferenceResolver.numeric_browse: filter in a loop, then a stable sort. */
  method ReferenceBrowse(b: Bundle, namespace: string, kind: string) returns (lines: seq<Line>)
    requires WellBuilt(b)
    ensures (forall i :: i in ReferenceRows(b, namespace, kind) ==> i.number.Some?)
    ensures lines == LinesOf(ReferenceRows(b, namespace, kind))
    ensures ListsNumbers((set i | i in b.identifiers), namespace, kind, lines)
  {
    var rows: seq<Identifier> := [];
    for k := 0 to |b.identifiers|
      invariant rows == Rows(b.identifiers[..k], namespace, kind)
    {
      assert b.identifiers[..k + 1][..k] == b.identifiers[..k];
      if Wanted(b.identifiers[k], namespace, kind) {
        rows := rows + [b.identifiers[k]];
      }
    }
    assert b.identifiers[..|b.identifiers|] == b.identifiers;
    ReferenceNumbers(b, namespace, kind);
    rows := Sort(NumberLess, rows);
    lines := LinesOf(rows);
    NumberOrder();
    SortSorted(NumberLess, Rows(b.identifiers, namespace, kind));
    LinesMean((set i | i in b.identifiers), namespace, kind, rows);
  }

  function ReferenceRows(b: Bundle, namespace: string, kind: string): seq<Identifier> {
    Sort(NumberLess, Rows(b.identifiers, namespace, kind))
  }

  lemma ReferenceNumbers(b: Bundle, namespace: string, kind: string)
    requires WellBuilt(b)
    ensures forall i :: i in ReferenceRows(b, namespace, kind) <==> i in b.identifiers && Wanted(i, namespace, kind)
    ensures forall i :: i in ReferenceRows(b, namespace, kind) ==> i.number.Some?
  {
    SameElements(Rows(b.identifiers, namespace, kind), ReferenceRows(b, namespace, kind));
  }

  ghost function Selected(t: Tables, namespace: string, kind: string): set<Identifier> {
    set r | r in t.identifiers && Wanted(r.item, namespace, kind) && r.item.number.Some? :: r.item
  }

  /** Any row order the ORDER BY clause allows. */
  ghost predicate Browsed(t: Tables, namespace: string, kind: string, rows: seq<Identifier>) {
    Arranges(NumberLess, rows, Selected(t, namespace, kind))
  }

  function Cut<T>(s: seq<T>, limit: nat): seq<T> { if |s| <= limit then s else s[..limit] }

  ghost predicate BrowsedAs(t: Tables, namespace: string, kind: string, limit: nat, rows: seq<Identifier>,
                            lines: seq<Line>) {
    && Browsed(t, namespace, kind, rows)
    && (forall i :: i in rows ==> i.number.Some?) && lines == Cut(LinesOf(rows), limit)
  }

  /** SQLiteSearchCore.numeric_browse, with the engine's choice among ties as a ghost result. */
  method IndexedBrowse(t: Tables, namespace: string, kind: string, limit: nat)
    returns (lines: seq<Line>, ghost rows: seq<Identifier>)
    ensures BrowsedAs(t, namespace, kind, limit, rows, lines)
    ensures exists all: seq<Line> ::
      && ListsNumbers((set r | r in t.identifiers :: r.item), namespace, kind, all)
      && lines == if |all| <= limit then all else all[..limit]
  {
    var all := set r | r in t.identifiers && Wanted(r.item, namespace, kind) && r.item.number.Some? :: r.item;
    var fetched := Enumerate(all);
    var sorted := Sort(NumberLess, fetched);
    NumberOrder();
    SortArranges(NumberLess, fetched, all);
    rows := sorted;
    forall k | 0 <= k < |sorted| ensures sorted[k].number.Some? { assert sorted[k] in all; }
    lines := Cut(LinesOf(sorted), limit);
    LinesMean((set r | r in t.identifiers :: r.item), namespace, kind, sorted);
  }

  // ----- agreement -----

  lemma RowsNoDup(s: seq<Identifier>, namespace: string, kind: string)
    requires NoDup(s)
    ensures NoDup(Rows(s, namespace, kind))
  {
    if s != [] {
      var last := |s| - 1;
      RowsNoDup(s[..last], namespace, kind);
      assert s[last] !in s[..last];
    }
  }

  lemma FitIsNoDup(s: seq<Identifier>)
    requires IdsFit(s)
    ensures NoDup(s)
  {
    forall j, k | 0 <= j < k < |s| ensures s[j] != s[k] { assert !SameIdKey(s[j], s[k]); }
  }

  /** The reference list is one of the orders the query allows. */
  lemma ReferenceIsAdmissible(u: Unicode, b: Bundle, t: Tables, namespace: string, kind: string)
    requires WellBuilt(b) && Insertable(b) && Holds(u, b, t)
    ensures Browsed(t, namespace, kind, ReferenceRows(b, namespace, kind))
  {
    FitIsNoDup(b.identifiers);
    RowsNoDup(b.identifiers, namespace, kind);
    NumberOrder();
    var rows := Rows(b.identifiers, namespace, kind);
    forall i ensures i in rows <==> i in Selected(t, namespace, kind) {
      if i in rows { assert IdRowOf(u, i) in t.identifiers && IdRowOf(u, i).item == i; }
    }
    SortArranges(NumberLess, rows, Selected(t, namespace, kind));
  }

  lemma BrowsedNumbers(t: Tables, namespace: string, kind: string, rows: seq<Identifier>)
    requires Browsed(t, namespace, kind, rows)
    ensures forall i :: i in rows ==> i.number.Some?
  {
  }

  /** With this limit the index always returns the first lines of the reference list. */
  ghost predicate AlwaysAgreesTo(t: Tables, b: Bundle, namespace: string, kind: string, limit: nat)
    requires WellBuilt(b)
  {
    ReferenceNumbers(b, namespace, kind);
    forall rows: seq<Identifier> :: Browsed(t, namespace, kind, rows) ==>
      (forall i :: i in rows ==> i.number.Some?)
      && Cut(LinesOf(rows), limit) == Cut(LinesOf(ReferenceRows(b, namespace, kind)), limit)
  }

  /** Lines p and p + 1 are of one target and one number. */
  predicate TiedAt(rows: seq<Identifier>, p: nat) {
    p + 1 < |rows| && rows[p].target == rows[p + 1].target && Number(rows[p]) == Number(rows[p + 1])
  }

  /** No group of tied lines starts before rank limit. */
  ghost predicate NoTieBefore(rows: seq<Identifier>, limit: nat) { forall p :: 0 <= p < limit ==> !TiedAt(rows, p) }

  /** A line that does not tie with the next has one place in every allowed order. */
  lemma {:induction false} SamePlace(t: Tables, namespace: string, kind: string, one: seq<Identifier>,
                                     two: seq<Identifier>,
                                     limit: nat, k: nat)
    requires Browsed(t, namespace, kind, one) && Browsed(t, namespace, kind, two) && NoTieBefore(one, limit)
    requires k <= limit && k <= |one|
    ensures k <= |two| && one[..k] == two[..k]
    decreases k
  {
    SameSize(t, namespace, kind, one, two);
    if k > 0 {
      SamePlace(t, namespace, kind, one, two, limit, k - 1);
      NextPlace(one, two, k - 1, Selected(t, namespace, kind));
      assert one[..k] == one[..k - 1] + [one[k - 1]] && two[..k] == two[..k - 1] + [two[k - 1]];
    }
  }

  lemma SameSize(t: Tables, namespace: string, kind: string, one: seq<Identifier>, two: seq<Identifier>)
    requires Browsed(t, namespace, kind, one) && Browsed(t, namespace, kind, two)
    ensures |one| == |two|
  {
    NoDupMultiset(one, Selected(t, namespace, kind));
    NoDupMultiset(two, Selected(t, namespace, kind));
    SameElements(one, two);
  }

  lemma NextPlace(one: seq<Identifier>, two: seq<Identifier>, k: nat, S: set<Identifier>)
    requires Arranges(NumberLess, one, S) && Arranges(NumberLess, two, S) && k < |one| == |two|
    requires one[..k] == two[..k] && !TiedAt(one, k)
    ensures one[k] == two[k]
  {
    NumberOrder();
    var j := PlaceOf(one, two, k, two[k]);
    var i := PlaceOf(two, one, k, one[k]);
    Squeezed(one, k, j);
  }

  /** In a sorted list everything between two lines that tie ties with them. */
  lemma Squeezed(rows: seq<Identifier>, p: nat, q: nat)
    requires Sorted(NumberLess, rows) && p <= q < |rows| && !NumberLess(rows[p], rows[q])
    ensures p == q || TiedAt(rows, p)
  {
    StrStrictTotal();
    if p + 1 < q { assert !NumberLess(rows[p + 1], rows[p]) && !NumberLess(rows[q], rows[p + 1]); }
  }

  /** Where an element of one list, not among the first k both share, stands in the other. */
  lemma PlaceOf(one: seq<Identifier>, two: seq<Identifier>, k: nat, x: Identifier) returns (j: nat)
    requires NoDup(one) && NoDup(two) && (forall y :: y in one <==> y in two) && k < |two| && k <= |one|
    requires one[..k] == two[..k] && x == two[k]
    ensures k <= j < |one| && one[j] == x
  {
    assert x in two;
    j :| 0 <= j < |one| && one[j] == x;
    forall i | 0 <= i < k ensures one[i] == two[i] { assert one[..k][i] == two[..k][i]; }
  }

  lemma WithoutTies(u: Unicode, b: Bundle, t: Tables, namespace: string, kind: string, limit: nat)
    requires WellBuilt(b) && Insertable(b) && Holds(u, b, t) && NoTieBefore(ReferenceRows(b, namespace, kind), limit)
    ensures AlwaysAgreesTo(t, b, namespace, kind, limit)
  {
    ReferenceNumbers(b, namespace, kind);
    var reference := ReferenceRows(b, namespace, kind);
    ReferenceIsAdmissible(u, b, t, namespace, kind);
    forall rows: seq<Identifier> | Browsed(t, namespace, kind, rows)
      ensures (forall i :: i in rows ==> i.number.Some?) && Cut(LinesOf(rows), limit) == Cut(LinesOf(reference), limit)
    {
      BrowsedNumbers(t, namespace, kind, rows);
      SameCut(t, namespace, kind, reference, rows, limit);
    }
  }

  ghost predicate Numbered(s: seq<Identifier>) { forall i :: i in s ==> i.number.Some? }

  lemma SameCut(t: Tables, namespace: string, kind: string, one: seq<Identifier>, two: seq<Identifier>, limit: nat)
    requires Browsed(t, namespace, kind, one) && Browsed(t, namespace, kind, two) && NoTieBefore(one, limit)
    requires Numbered(one) && Numbered(two)
    ensures Cut(LinesOf(two), limit) == Cut(LinesOf(one), limit)
  {
    var k := if limit <= |one| then limit else |one|;
    SameSize(t, namespace, kind, one, two);
    SamePlace(t, namespace, kind, one, two, limit, k);
    SameLines(one, two, k);
    assert Cut(LinesOf(two), limit) == LinesOf(two)[..k] && Cut(LinesOf(one), limit) == LinesOf(one)[..k];
  }

  lemma SameLines(one: seq<Identifier>, two: seq<Identifier>, k: nat)
    requires (forall i :: 0 <= i < |one| ==> one[i].number.Some?) && (forall i :: 0 <= i < |two| ==>
        two[i].number.Some?)
    requires k <= |one| && k <= |two| && one[..k] == two[..k]
    ensures LinesOf(one)[..k] == LinesOf(two)[..k]
  {
    forall i | 0 <= i < k ensures LinesOf(one)[i] == LinesOf(two)[i] {
      assert one[i] == one[..k][i] == two[..k][i] == two[i];
    }
  }

  // ----- ties -----

  lemma TiedValuesDiffer(b: Bundle, i: Identifier, j: Identifier, namespace: string, kind: string)
    requires IdsFit(b.identifiers) && i in b.identifiers && j in b.identifiers && i != j
    requires Wanted(i, namespace, kind) && Wanted(j, namespace, kind) && i.target == j.target
    ensures i.value != j.value
  {
    var p :| 0 <= p < |b.identifiers| && b.identifiers[p] == i;
    var q :| 0 <= q < |b.identifiers| && b.identifiers[q] == j;
    if p < q {
      assert !SameIdKey(b.identifiers[p], b.identifiers[q]);
    } else {
      assert !SameIdKey(b.identifiers[q], b.identifiers[p]);
    }
  }

  /** Swapping two neighbours that tie gives another admissible order. */
  lemma SwapAdmissible(t: Tables, namespace: string, kind: string, rows: seq<Identifier>, p: nat)
    requires Browsed(t, namespace, kind, rows) && p + 1 < |rows|
    requires !NumberLess(rows[p], rows[p + 1])
    ensures Browsed(t, namespace, kind, rows[p := rows[p + 1]][p + 1 := rows[p]])
  {
    var s := rows[p := rows[p + 1]][p + 1 := rows[p]];
    forall x ensures x in s <==> x in rows {
      if x in rows {
        var k :| 0 <= k < |rows| && rows[k] == x;
        assert s[if k == p then p + 1 else if k == p + 1 then p else k] == x;
      }
    }
    forall i, j | 0 <= i < j < |s| ensures s[i] != s[j] && !NumberLess(s[j], s[i]) {
      var a := if i == p then p + 1 else if i == p + 1 then p else i;
      var c := if j == p then p + 1 else if j == p + 1 then p else j;
      assert s[i] == rows[a] && s[j] == rows[c] && a != c;
    }
  }

  /** Two neighbours of the reference list that tie: another admissible order shows other lines. */
  lemma TieDisagrees(u: Unicode, b: Bundle, t: Tables, namespace: string, kind: string, limit: nat, m: nat)
    requires WellBuilt(b) && Insertable(b) && Holds(u, b, t)
    requires m < limit && TiedAt(ReferenceRows(b, namespace, kind), m)
    ensures !AlwaysAgreesTo(t, b, namespace, kind, limit)
  {
    var rows := ReferenceRows(b, namespace, kind);
    ReferenceNumbers(b, namespace, kind);
    ReferenceIsAdmissible(u, b, t, namespace, kind);
    assert rows[m] in rows && rows[m + 1] in rows && rows[m] != rows[m + 1];
    TiedValuesDiffer(b, rows[m], rows[m + 1], namespace, kind);
    StrStrictTotal();
    SwapAdmissible(t, namespace, kind, rows, m);
    var swapped := rows[m := rows[m + 1]][m + 1 := rows[m]];
    BrowsedNumbers(t, namespace, kind, swapped);
    SwapShows(rows, swapped, m, limit);
  }

  lemma SwapShows(rows: seq<Identifier>, swapped: seq<Identifier>, m: nat, limit: nat)
    requires Numbered(rows) && Numbered(swapped) && m + 1 < |rows| == |swapped| && m < limit
    requires swapped[m] == rows[m + 1] && rows[m].value != rows[m + 1].value
    ensures Cut(LinesOf(swapped), limit) != Cut(LinesOf(rows), limit)
  {
    assert LinesOf(swapped)[m] == LineOf(rows[m + 1]) && LinesOf(rows)[m] == LineOf(rows[m]);
    assert Cut(LinesOf(swapped), limit)[m] != Cut(LinesOf(rows), limit)[m];
  }

  /** For every limit, the index always returns the first lines of the reference list exactly when no group of
      tied lines starts among them. */
  lemma BrowsingAgreesIff(u: Unicode, b: Bundle, t: Tables, namespace: string, kind: string, limit: nat)
    requires WellBuilt(b) && Insertable(b) && Holds(u, b, t)
    ensures AlwaysAgreesTo(t, b, namespace, kind, limit) <==> NoTieBefore(ReferenceRows(b, namespace, kind), limit)
  {
    if NoTieBefore(ReferenceRows(b, namespace, kind), limit) {
      WithoutTies(u, b, t, namespace, kind, limit);
    } else {
      var m :| 0 <= m < limit && TiedAt(ReferenceRows(b, namespace, kind), m);
      TieDisagrees(u, b, t, namespace, kind, limit, m);
    }
  }

  /** Within the namespace and type no target repeats a number. */
  ghost predicate NoTies(b: Bundle, namespace: string, kind: string) {
    forall i, j | i in b.identifiers && j in b.identifiers && Wanted(i, namespace, kind)
        && Wanted(j, namespace, kind) ::
      i.target == j.target && i.number == j.number ==> i == j
  }

  /** A caller who sees no repeated number can rely on every limit. */
  lemma NoTiesAnywhere(u: Unicode, b: Bundle, t: Tables, namespace: string, kind: string, limit: nat)
    requires WellBuilt(b) && Insertable(b) && Holds(u, b, t) && NoTies(b, namespace, kind)
    ensures NoTieBefore(ReferenceRows(b, namespace, kind), limit)
  {
    var rows := ReferenceRows(b, namespace, kind);
    ReferenceNumbers(b, namespace, kind);
    ReferenceIsAdmissible(u, b, t, namespace, kind);
    forall p | 0 <= p < limit ensures !TiedAt(rows, p) {
      if p + 1 < |rows| { assert rows[p] in rows && rows[p + 1] in rows && rows[p] != rows[p + 1]; }
    }
  }

  /** lines is what the query may return over tables that hold the bundle. */
  ghost predicate MayBrowse(u: Unicode, b: Bundle, namespace: string, kind: string, limit: nat, lines: seq<Line>) {
    exists t, rows :: Holds(u, b, t) && BrowsedAs(t, namespace, kind, limit, rows, lines)
  }

  ghost predicate Referenced(b: Bundle, namespace: string, kind: string, lines: seq<Line>) {
    var rows := ReferenceRows(b, namespace, kind);
    (forall i :: i in rows ==> i.number.Some?) && lines == LinesOf(rows)
  }

  lemma BrowsedWithoutTies(u: Unicode, b: Bundle, namespace: string, kind: string, limit: nat, lines: seq<Line>,
                           all: seq<Line>)
    requires WellBuilt(b) && Insertable(b) && NoTieBefore(ReferenceRows(b, namespace, kind), limit)
    requires MayBrowse(u, b, namespace, kind, limit, lines) && Referenced(b, namespace, kind, all)
    ensures lines == Cut(all, limit)
  {
    var t, rows :| Holds(u, b, t) && BrowsedAs(t, namespace, kind, limit, rows, lines);
    WithoutTies(u, b, t, namespace, kind, limit);
  }

  /** Build, index and browse once. */
  method Browse(u: Unicode, b: Bundle, namespace: string, kind: string, limit: nat) returns (r: Result<seq<Line>>)
    requires WellBuilt(b)
    ensures r.Ok? <==> Insertable(b)
    ensures r.Ok? ==> MayBrowse(u, b, namespace, kind, limit, r.value)
  {
    WellBuiltIsValidated(b);
    var t := Populate(u, b);
    if t.Err? { return Err(t.error); }
    ghost var rows;
    var lines;
    lines, rows := IndexedBrowse(t.value, namespace, kind, limit);
    r := Ok(lines);
  }

  /** From permuted records to the same first lines: what callers of numeric_browse see. */
  method BrowsePermuted(u: Unicode, one: seq<Record>, two: seq<Record>, namespace: string, kind: string, limit: nat)
    returns (r: Result<(seq<Line>, seq<Line>, seq<Line>)>)
    requires multiset(one) == multiset(two)
    ensures r.Ok? <==> ValidInput(one) && Insertable(Projection(u, one))
    ensures r.Ok? ==>
      var b := Projection(u, one);
      && Referenced(b, namespace, kind, r.value.2)
      && MayBrowse(u, b, namespace, kind, limit, r.value.0) && MayBrowse(u, b, namespace, kind, limit, r.value.1)
      && (NoTieBefore(ReferenceRows(b, namespace, kind), limit) ==>
            r.value.0 == r.value.1 == Cut(r.value.2, limit))
  {
    if ValidInput(one) { ProjectionPermutes(u, one, two); }
    var a := BuildProjection(u, one);
    if a.Err? { return Err(a.error); }
    var x := Browse(u, a.value, namespace, kind, limit);
    if x.Err? { return Err(x.error); }
    var c := BuildProjection(u, two);
    var y := Browse(u, c.value, namespace, kind, limit);
    var z := ReferenceBrowse(a.value, namespace, kind);
    if NoTieBefore(ReferenceRows(a.value, namespace, kind), limit) {
      BrowsedWithoutTies(u, a.value, namespace, kind, limit, x.value, z);
      BrowsedWithoutTies(u, a.value, namespace, kind, limit, y.value, z);
    }
    r := Ok((x.value, y.value, z));
  }
}

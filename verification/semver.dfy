/** tools/pack/versioning.py: strict SemVer text and precedence
    (sections 9, 10 and 11 of Semantic Versioning 2.0.0). */
module SemVers {
  import opened Wrappers
  import opened Ordering
  import opened Text

  predicate IsIdentifierChar(c: char) {
    IsDigit(c) || 'A' <= c <= 'Z' || 'a' <= c <= 'z' || c == '-'
  }

  /** [0-9A-Za-z-]+, and a numeric identifier has no leading zero. */
  predicate IsIdentifier(s: string) {
    && s != []
    && (forall i :: 0 <= i < |s| ==> IsIdentifierChar(s[i]))
    && (IsDigits(s) ==> NoLeadingZero(s))
  }

  type Identifier = s: string | IsIdentifier(s) witness "0"

  datatype SemVer = SemVer(major: nat, minor: nat, patch: nat, prerelease: seq<Identifier>)

  /** 0|[1-9][0-9]* */
  predicate IsCoreNumber(s: string) { IsDigits(s) && NoLeadingZero(s) }

  function ParseCore(core: string): Result<(nat, nat, nat)> {
    var c := Split(core, '.');
    if |c| == 3 && IsCoreNumber(c[0]) && IsCoreNumber(c[1]) && IsCoreNumber(c[2])
    then Ok((ToNat(c[0]), ToNat(c[1]), ToNat(c[2])))
    else Err("invalid strict SemVer")
  }

  function ParsePrerelease(text: string): Result<seq<Identifier>> {
    var tokens := Split(text, '.');
    if forall i :: 0 <= i < |tokens| ==> IsIdentifier(tokens[i])
    then Ok(tokens)
    else Err("invalid prerelease identifier")
  }

  /** The core has no '-', so the first '-' starts the prerelease. */
  function Parse(value: string): Result<SemVer> {
    var dash := Find(value, '-');
    match ParseCore(value[..dash])
    case Err(e) => Err(e)
    case Ok((major, minor, patch)) =>
      if dash == |value| then Ok(SemVer(major, minor, patch, []))
      else match ParsePrerelease(value[dash + 1..])
        case Err(e) => Err(e)
        case Ok(pre) => Ok(SemVer(major, minor, patch, pre))
  }

  predicate CoreLess(a: SemVer, b: SemVer) {
    a.major < b.major || (a.major == b.major && (a.minor < b.minor || (a.minor == b.minor && a.patch < b.patch)))
  }

  predicate SameCore(a: SemVer, b: SemVer) { a.major == b.major && a.minor == b.minor && a.patch == b.patch }

  /** The zip loop over the two prerelease tuples and the length test after it. */
  function ComparePrerelease(p: seq<Identifier>, q: seq<Identifier>): int {
    if p == [] || q == [] then
      if |p| < |q| then -1 else 1
    else if p[0] == q[0] then ComparePrerelease(p[1..], q[1..])
    else
      var leftNum, rightNum := IsDigits(p[0]), IsDigits(q[0]);
      if leftNum && rightNum then (if ToNat(p[0]) < ToNat(q[0]) then -1 else 1)
      else if leftNum != rightNum then (if leftNum then -1 else 1)
      else if StrLess(p[0], q[0]) then -1 else 1
  }

  function Compare(a: SemVer, b: SemVer): int {
    if !SameCore(a, b) then (if CoreLess(a, b) then -1 else 1)
    else if a.prerelease == b.prerelease then 0
    else if a.prerelease == [] then 1
    else if b.prerelease == [] then -1
    else ComparePrerelease(a.prerelease, b.prerelease)
  }

  function CompareVersions(left: string, right: string): Result<int> {
    match Parse(left)
    case Err(e) => Err(e)
    case Ok(l) =>
      match Parse(right)
      case Err(e) => Err(e)
      case Ok(r) => Ok(Compare(l, r))
  }

  // ----- text round trip -----

  /** The version's own text, written from its parts. */
  function Render(v: SemVer): string {
    RenderNumbers(v.major, v.minor, v.patch) + RenderSuffix(v.prerelease)
  }

  function RenderNumbers(major: nat, minor: nat, patch: nat): string {
    FromNat(major) + "." + FromNat(minor) + "." + FromNat(patch)
  }

  function RenderSuffix(pre: seq<Identifier>): string {
    if pre == [] then "" else "-" + Join(pre, '.')
  }

  lemma CoreText(a: string, b: string, c: string)
    ensures Join([a, b, c], '.') == a + "." + b + "." + c
  {
    assert [a, b, c][1..] == [b, c] && [b, c][1..] == [c];
    assert Join([b, c], '.') == b + "." + c;
    assert a + ['.'] + (b + "." + c) == a + "." + b + "." + c;
  }

  lemma RenderCore(core: string)
    requires ParseCore(core).Ok?
    ensures var (major, minor, patch) := ParseCore(core).value;
            RenderNumbers(major, minor, patch) == core
  {
    var c := Split(core, '.');
    JoinSplit(core, '.');
    TextRoundTrip(c[0]);
    TextRoundTrip(c[1]);
    TextRoundTrip(c[2]);
    assert c == [c[0], c[1], c[2]];
    CoreText(c[0], c[1], c[2]);
  }

  lemma RenderParsed(s: string)
    requires Parse(s).Ok?
    ensures Render(Parse(s).value) == s
  {
    var dash := Find(s, '-');
    RenderCore(s[..dash]);
    if dash < |s| {
      RenderPrerelease(s[dash + 1..]);
      assert s == s[..dash] + ("-" + s[dash + 1..]);
    }
  }

  lemma RenderPrerelease(text: string)
    requires ParsePrerelease(text).Ok?
    ensures ParsePrerelease(text).value != []
    ensures RenderSuffix(ParsePrerelease(text).value) == "-" + text
  {
    JoinSplit(text, '.');
  }

  lemma NoDash(s: string, c: char)
    requires IsDigits(s) && !IsDigit(c)
    ensures c !in s
  {
  }

  lemma ParseNumbers(major: nat, minor: nat, patch: nat)
    ensures var core := RenderNumbers(major, minor, patch);
            '-' !in core && ParseCore(core) == Ok((major, minor, patch))
  {
    var a, b, c := FromNat(major), FromNat(minor), FromNat(patch);
    NatRoundTrip(major);
    NatRoundTrip(minor);
    NatRoundTrip(patch);
    NoDash(a, '-');
    NoDash(b, '-');
    NoDash(c, '-');
    NoDash(a, '.');
    NoDash(b, '.');
    NoDash(c, '.');
    CoreText(a, b, c);
    SplitJoin([a, b, c], '.');
  }

  lemma ParseSuffix(pre: seq<Identifier>)
    requires pre != []
    ensures ParsePrerelease(Join(pre, '.')) == Ok(pre)
  {
    forall p | p in pre ensures '.' !in p { assert IsIdentifier(p); }
    SplitJoin(pre, '.');
  }

  lemma CutAtDash(core: string, pre: string)
    requires '-' !in core
    ensures var s := core + ("-" + pre);
            Find(s, '-') == |core| < |s| && s[..|core|] == core && s[|core| + 1..] == pre
  {
    var s := core + ("-" + pre);
    assert s == core + ['-'] + pre;
    FindAt(core, '-', pre);
    assert s[..|core|] == core;
    assert s[|core| + 1..] == pre;
  }

  lemma ParsePlain(core: string, n: (nat, nat, nat))
    requires '-' !in core && ParseCore(core) == Ok(n)
    ensures Parse(core) == Ok(SemVer(n.0, n.1, n.2, []))
  {
    FindAt(core, '-', "");
    assert core[..|core|] == core;
  }

  lemma ParseDashed(core: string, text: string, n: (nat, nat, nat), pre: seq<Identifier>)
    requires '-' !in core && ParseCore(core) == Ok(n) && ParsePrerelease(text) == Ok(pre)
    ensures Parse(core + ("-" + text)) == Ok(SemVer(n.0, n.1, n.2, pre))
  {
    CutAtDash(core, text);
  }

  lemma ParseRendered(v: SemVer)
    ensures Parse(Render(v)) == Ok(v)
  {
    var core, n := RenderNumbers(v.major, v.minor, v.patch), (v.major, v.minor, v.patch);
    ParseNumbers(v.major, v.minor, v.patch);
    if v.prerelease == [] {
      assert Render(v) == core + "" == core;
      ParsePlain(core, n);
    } else {
      ParseSuffix(v.prerelease);
      ParseDashed(core, Join(v.prerelease, '.'), n, v.prerelease);
    }
  }

  /** Parsing accepts exactly the texts of versions, and two different texts never parse alike. */
  lemma ParseInjective(s: string, t: string)
    requires Parse(s).Ok? && Parse(s) == Parse(t)
    ensures s == t
  {
    RenderParsed(s);
    RenderParsed(t);
  }

  lemma ParseAccepts(s: string)
    ensures Parse(s).Ok? <==> exists v :: Render(v) == s
  {
    if Parse(s).Ok? {
      RenderParsed(s);
    }
    if v :| Render(v) == s {
      ParseRendered(v);
    }
  }

  // ----- the accepted texts, as the pattern spells them -----

  /** 0 or a number that does not start with 0. */
  predicate CoreNumberText(s: string) {
    s == "0" || (s != "" && '1' <= s[0] <= '9' && forall i :: 0 <= i < |s| ==> '0' <= s[i] <= '9')
  }

  /** Letters, digits and hyphens; only digits means no leading 0. */
  predicate IdentifierText(s: string) {
    && s != ""
    && (forall i :: 0 <= i < |s| ==> '0' <= s[i] <= '9' || 'A' <= s[i] <= 'Z' || 'a' <= s[i] <= 'z' || s[i] == '-')
    && ((forall i :: 0 <= i < |s| ==> '0' <= s[i] <= '9') && |s| > 1 ==> s[0] != '0')
  }

  function Written(a: string, b: string, c: string, pre: seq<string>): string {
    a + "." + b + "." + c + if pre == [] then "" else "-" + Join(pre, '.')
  }

  /** A parsed version has the numbers and identifiers its text is written with. */
  lemma ParsedAsWritten(a: string, b: string, c: string, pre: seq<string>)
    requires CoreNumberText(a) && CoreNumberText(b) && CoreNumberText(c) && forall p :: p in pre ==> IdentifierText(p)
    ensures var r := Parse(Written(a, b, c, pre));
            && r.Ok? && r.value.prerelease == pre
            && FromNat(r.value.major) == a && FromNat(r.value.minor) == b && FromNat(r.value.patch) == c
  {
    forall k | 0 <= k < |pre| ensures IsIdentifier(pre[k]) { assert IdentifierText(pre[k]); }
    var ids: seq<Identifier> := pre;
    TextRoundTrip(a);
    TextRoundTrip(b);
    TextRoundTrip(c);
    var v := SemVer(ToNat(a), ToNat(b), ToNat(c), ids);
    assert Render(v) == Written(a, b, c, pre);
    ParseRendered(v);
  }

  /** Nothing else is accepted; build metadata in particular is not. */
  lemma OnlyWritten(s: string) returns (a: string, b: string, c: string, pre: seq<string>)
    requires Parse(s).Ok?
    ensures CoreNumberText(a) && CoreNumberText(b) && CoreNumberText(c) && forall p :: p in pre ==> IdentifierText(p)
    ensures s == Written(a, b, c, pre)
  {
    var v := Parse(s).value;
    RenderParsed(s);
    NatRoundTrip(v.major);
    NatRoundTrip(v.minor);
    NatRoundTrip(v.patch);
    a, b, c, pre := FromNat(v.major), FromNat(v.minor), FromNat(v.patch), v.prerelease;
    CoreOfNat(v.major);
    CoreOfNat(v.minor);
    CoreOfNat(v.patch);
    forall k | 0 <= k < |v.prerelease| ensures IdentifierText(pre[k]) {
      var id: Identifier := v.prerelease[k];
      assert IsIdentifier(id);
      if forall i :: 0 <= i < |id| ==> '0' <= id[i] <= '9' { assert IsDigits(id); }
    }
  }

  lemma CoreOfNat(n: nat)
    ensures CoreNumberText(FromNat(n))
  {
    NatRoundTrip(n);
    if n == 0 { assert FromNat(0) == "0"; }
  }

  // ----- precedence, as section 11 states it -----

  /** 11.4.1 to 11.4.3 */
  predicate IdentifierLess(x: Identifier, y: Identifier) {
    if IsDigits(x) && IsDigits(y) then ToNat(x) < ToNat(y)
    else if IsDigits(x) || IsDigits(y) then IsDigits(x)
    else StrLess(x, y)
  }

  /** 11.4: the first difference decides; 11.4.4: with none, more fields win. */
  ghost predicate PrereleaseBelow(p: seq<Identifier>, q: seq<Identifier>) {
    exists i: nat :: DecidedAt(IdentifierLess, p, q, i)
  }

  function Numbers(v: SemVer): seq<nat> { [v.major, v.minor, v.patch] }

  /** 11.2: the first of major, minor and patch that differs decides, numerically. */
  ghost predicate CoreBelow(a: SemVer, b: SemVer) {
    exists k :: 0 <= k < 3 && Numbers(a)[..k] == Numbers(b)[..k] && Numbers(a)[k] < Numbers(b)[k]
  }

  /** 11.2, and 11.3: a prerelease comes before the release. */
  ghost predicate Precedes(a: SemVer, b: SemVer) {
    || CoreBelow(a, b)
    || (Numbers(a) == Numbers(b) && a.prerelease != [] &&
        (b.prerelease == [] || PrereleaseBelow(a.prerelease, b.prerelease)))
  }

  lemma CoreMeans(a: SemVer, b: SemVer)
    ensures CoreLess(a, b) <==> CoreBelow(a, b)
    ensures SameCore(a, b) <==> Numbers(a) == Numbers(b)
  {
    var m, n := Numbers(a), Numbers(b);
    assert m[..0] == n[..0];
    assert m[..1] == [a.major] && n[..1] == [b.major];
    assert m[..2] == [a.major, a.minor] && n[..2] == [b.major, b.minor];
    if SameCore(a, b) { assert m == n; }
    if m == n { assert m[0] == n[0] && m[1] == n[1] && m[2] == n[2]; }
    if k :| 0 <= k < 3 && m[..k] == n[..k] && m[k] < n[k] {
      if k >= 1 { assert m[..k][0] == n[..k][0]; }
      if k == 2 { assert m[..k][1] == n[..k][1]; }
    }
    if CoreLess(a, b) {
      var k := if a.major < b.major then 0 else if a.minor < b.minor then 1 else 2;
      assert m[..k] == n[..k] && m[k] < n[k];
    }
  }

  lemma IdentifierStrictTotal()
    ensures StrictTotal(IdentifierLess)
  {
    StrStrictTotal();
    forall x: Identifier, y: Identifier | x != y ensures IdentifierLess(x, y) || IdentifierLess(y, x) {
      if IsDigits(x) && IsDigits(y) && ToNat(x) == ToNat(y) {
        TextRoundTrip(x);
        TextRoundTrip(y);
      }
    }
  }

  lemma {:induction false} ComparePrereleaseLex(p: seq<Identifier>, q: seq<Identifier>)
    requires p != q
    ensures ComparePrerelease(p, q) == if LexLess(IdentifierLess, p, q) then -1 else 1
  {
    if p != [] && q != [] && p[0] == q[0] {
      assert p == [p[0]] + p[1..] && q == [q[0]] + q[1..];
      ComparePrereleaseLex(p[1..], q[1..]);
    }
  }

  /** compare() is section 11: below, equal or above exactly as the standard orders the two. */
  lemma CompareIsPrecedence(a: SemVer, b: SemVer)
    ensures Compare(a, b) == -1 <==> Precedes(a, b)
    ensures Compare(a, b) == 1 <==> Precedes(b, a)
    ensures Compare(a, b) == 0 <==> a == b
    ensures -1 <= Compare(a, b) <= 1
  {
    IdentifierStrictTotal();
    LexStrictTotal(IdentifierLess);
    LexMeans(IdentifierLess, a.prerelease, b.prerelease);
    LexMeans(IdentifierLess, b.prerelease, a.prerelease);
    CoreMeans(a, b);
    CoreMeans(b, a);
    if a.prerelease != b.prerelease {
      ComparePrereleaseLex(a.prerelease, b.prerelease);
    }
  }

  /** The core numbers decide before any prerelease does. */
  lemma CoreDecides(a: SemVer, b: SemVer)
    ensures a.major < b.major ==> Compare(a, b) == -1
    ensures a.major == b.major && a.minor < b.minor ==> Compare(a, b) == -1
    ensures a.major == b.major && a.minor == b.minor && a.patch < b.patch ==> Compare(a, b) == -1
    ensures a.major > b.major ==> Compare(a, b) == 1
    ensures a.major == b.major && a.minor > b.minor ==> Compare(a, b) == 1
    ensures a.major == b.major && a.minor == b.minor && a.patch > b.patch ==> Compare(a, b) == 1
  {
  }

  lemma CompareAntisymmetric(a: SemVer, b: SemVer)
    ensures Compare(b, a) == -Compare(a, b)
  {
    CompareIsPrecedence(a, b);
    CompareIsPrecedence(b, a);
  }

  lemma PrecedesTransitive(a: SemVer, b: SemVer, c: SemVer)
    requires Precedes(a, b) && Precedes(b, c)
    ensures Precedes(a, c)
  {
    IdentifierStrictTotal();
    LexMeans(IdentifierLess, a.prerelease, b.prerelease);
    LexMeans(IdentifierLess, b.prerelease, c.prerelease);
    LexMeans(IdentifierLess, a.prerelease, c.prerelease);
    CoreMeans(a, b);
    CoreMeans(b, c);
    CoreMeans(a, c);
    if LexLess(IdentifierLess, a.prerelease, b.prerelease) && LexLess(IdentifierLess, b.prerelease, c.prerelease) {
      LexTransitive(IdentifierLess, a.prerelease, b.prerelease, c.prerelease);
    }
  }

  lemma CompareTransitive(a: SemVer, b: SemVer, c: SemVer)
    requires Compare(a, b) <= 0 && Compare(b, c) <= 0
    ensures Compare(a, c) <= 0
    ensures Compare(a, c) == 0 ==> a == b == c
  {
    CompareIsPrecedence(a, b);
    CompareIsPrecedence(b, c);
    CompareIsPrecedence(a, c);
    CompareIsPrecedence(c, b);
    if Precedes(a, b) && Precedes(b, c) {
      PrecedesTransitive(a, b, c);
    }
  }

  // ----- the order on version texts that the runtime trusts -----

  predicate ValidVersion(s: string) { Parse(s).Ok? }

  predicate AtMost(left: string, right: string) {
    CompareVersions(left, right).Ok? && CompareVersions(left, right).value <= 0
  }

  /** compare_versions raises exactly on an invalid text, and otherwise says which version precedes the other. */
  lemma VersionsCompare(left: string, right: string)
    ensures CompareVersions(left, right).Ok? <==> Parse(left).Ok? && Parse(right).Ok?
    ensures CompareVersions(left, right).Ok? ==>
      var a, b, order := Parse(left).value, Parse(right).value, CompareVersions(left, right).value;
      && (order < 0 <==> Precedes(a, b)) && (order > 0 <==> Precedes(b, a)) && (order == 0 <==> left == right)
  {
    if Parse(left).Ok? && Parse(right).Ok? {
      CompareIsPrecedence(Parse(left).value, Parse(right).value);
      if Parse(left) == Parse(right) { ParseInjective(left, right); }
    }
  }

  /** compare_versions is a total order on valid texts; equal means the same text. */
  lemma VersionTextOrder(s: string, t: string, u: string)
    requires ValidVersion(s) && ValidVersion(t) && ValidVersion(u)
    ensures AtMost(s, t) || AtMost(t, s)
    ensures AtMost(s, t) && AtMost(t, s) ==> s == t
    ensures AtMost(s, t) && AtMost(t, u) ==> AtMost(s, u)
    ensures CompareVersions(s, t) == Ok(0) <==> s == t
  {
    var a, b, c := Parse(s).value, Parse(t).value, Parse(u).value;
    CompareAntisymmetric(a, b);
    CompareIsPrecedence(a, b);
    if Compare(a, b) == 0 { ParseInjective(s, t); }
    if Compare(a, b) <= 0 && Compare(b, c) <= 0 { CompareTransitive(a, b, c); }
  }
}

/** String helpers with Python's meaning: str.split on one character, str.join, decimal text. */
module Text {

  function Join(parts: seq<string>, sep: char): string
    requires parts != []
  {
    if |parts| == 1 then parts[0] else parts[0] + [sep] + Join(parts[1..], sep)
  }

  /** The index of the first occurrence of c, or |s| when there is none. */
  function Find(s: string, c: char): (i: nat)
    ensures i <= |s| && c !in s[..i]
    ensures i < |s| ==> s[i] == c
  {
    if s == [] || s[0] == c then 0 else 1 + Find(s[1..], c)
  }

  function Split(s: string, sep: char): (parts: seq<string>)
    ensures parts != []
    decreases |s|
  {
    var i := Find(s, sep);
    if i == |s| then [s] else [s[..i]] + Split(s[i + 1..], sep)
  }

  /** What s.split(sep) returns can be joined back, and its parts are free of the separator. */
  lemma {:induction false} JoinSplit(s: string, sep: char)
    ensures Join(Split(s, sep), sep) == s
    ensures forall p :: p in Split(s, sep) ==> sep !in p
    decreases |s|
  {
    var i := Find(s, sep);
    if i < |s| {
      JoinSplit(s[i + 1..], sep);
      assert s == s[..i] + [sep] + s[i + 1..];
      assert Split(s, sep)[1..] == Split(s[i + 1..], sep);
    } else {
      assert s[..i] == s;
    }
  }

  lemma {:induction false} FindAt(before: string, sep: char, after: string)
    requires sep !in before
    ensures Find(before + [sep] + after, sep) == |before|
    ensures Find(before, sep) == |before|
  {
    var s := before + [sep] + after;
    var i := Find(s, sep);
    assert s[|before|] == sep && forall k :: 0 <= k < |before| ==> s[k] == before[k];
    forall k | 0 <= k < i ensures s[k] != sep { assert s[k] in s[..i]; }
    assert forall k :: 0 <= k < |before| ==> before[k] != sep;
  }

  lemma {:induction false} SplitJoin(parts: seq<string>, sep: char)
    requires parts != [] && forall p :: p in parts ==> sep !in p
    ensures Split(Join(parts, sep), sep) == parts
  {
    var s := Join(parts, sep);
    if |parts| == 1 {
      FindAt(s, sep, []);
    } else {
      var rest := Join(parts[1..], sep);
      FindAt(parts[0], sep, rest);
      assert s[..|parts[0]|] == parts[0] && s[|parts[0]| + 1..] == rest;
      SplitJoin(parts[1..], sep);
      assert parts == [parts[0]] + parts[1..];
    }
  }

  // ----- ASCII decimal text -----

  predicate IsDigit(c: char) { '0' <= c <= '9' }

  /** [0-9]+, and str.isdigit on ASCII text. */
  predicate IsDigits(s: string) { s != [] && forall i :: 0 <= i < |s| ==> IsDigit(s[i]) }

  function DigitValue(c: char): (d: nat)
    requires IsDigit(c)
    ensures d < 10
  {
    c as int - '0' as int
  }

  function DigitChar(d: nat): (c: char)
    requires d < 10
    ensures IsDigit(c) && DigitValue(c) == d
  {
    ('0' as int + d) as char
  }

  /** int(s) for ASCII digits. */
  function ToNat(s: string): nat
    requires IsDigits(s)
  {
    var last := |s| - 1;
    DigitValue(s[last]) + if last == 0 then 0 else 10 * ToNat(s[..last])
  }

  /** str(n). */
  function FromNat(n: nat): (s: string)
    ensures IsDigits(s)
  {
    if n < 10 then [DigitChar(n)] else FromNat(n / 10) + [DigitChar(n % 10)]
  }

  predicate NoLeadingZero(s: string) { |s| > 1 ==> s[0] != '0' }

  lemma {:induction false} NatRoundTrip(n: nat)
    ensures ToNat(FromNat(n)) == n && NoLeadingZero(FromNat(n))
    ensures n > 0 ==> FromNat(n)[0] != '0'
  {
    if n >= 10 {
      NatRoundTrip(n / 10);
      var s := FromNat(n);
      assert s[..|s| - 1] == FromNat(n / 10);
    }
  }

  lemma {:induction false} ToNatPositive(s: string)
    requires IsDigits(s) && s[0] != '0'
    ensures ToNat(s) > 0
  {
    if |s| > 1 { ToNatPositive(s[..|s| - 1]); }
  }

  lemma AppendDigit(n: nat, c: char)
    requires IsDigit(c) && n > 0
    ensures FromNat(10 * n + DigitValue(c)) == FromNat(n) + [c]
  {
    var m := 10 * n + DigitValue(c);
    assert m / 10 == n && m % 10 == DigitValue(c);
  }

  lemma {:induction false} TextRoundTrip(s: string)
    requires IsDigits(s) && NoLeadingZero(s)
    ensures FromNat(ToNat(s)) == s
  {
    var last := |s| - 1;
    if last > 0 {
      ToNatPositive(s[..last]);
      TextRoundTrip(s[..last]);
      AppendDigit(ToNat(s[..last]), s[last]);
      assert s == s[..last] + [s[last]];
    }
  }
}

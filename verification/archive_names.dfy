/** The rules of validate_archive_member_name on components and places, and what they make of an extraction. */
module ArchiveNames {
  import opened Wrappers
  import opened Text
  import opened Archive

  /** str.upper and the two name tables of tools/pack/contract.py. */
  datatype NameTables = NameTables(upper: string -> string, reserved: set<string>, activeExtensions: set<string>)

  /** The rules of validate_archive_member_name. */
  function StandardNames(nfc: string -> string, casefold: string -> string, t: NameTables): Names {
    Names(nfc, casefold,
          (part: string) => ComponentSafe(t, part),
          (parts: seq<string>, isDir: bool) => parts != [] && InNamespaces(casefold, t, parts, isDir))
  }

  predicate ComponentSafe(t: NameTables, part: string) {
    && part != "" && part != "." && part != ".."
    && part[|part| - 1] != ' ' && part[|part| - 1] != '.'
    && t.upper(part[..Find(part, '.')]) !in t.reserved
  }

  /** The index of the last '.', or |s|. */
  function LastDot(s: string): (i: nat)
    ensures i <= |s|
  {
    if s == [] then 0
    else if s[|s| - 1] == '.' then |s| - 1
    else
      var i := LastDot(s[..|s| - 1]);
      if i == |s| - 1 then |s| else i
  }

  /** PurePosixPath.suffix of a file name */
  function Suffix(name: string): string {
    var i := LastDot(name);
    if 0 < i < |name| - 1 then name[i..] else ""
  }

  predicate VersionedRoot(s: string) {
    |s| > 10 && s[|s| - 10..] == ".root.json" && IsDigits(s[..|s| - 10]) && s[0] != '0'
  }

  predicate TopLevelMetadata(s: string) {
    s == "root.json" || s == "timestamp.json" || s == "snapshot.json" || s == "targets.json"
  }

  predicate TargetNamespace(s: string) { s == "atlas" || s == "content" || s == "search" }

  predicate InNamespaces(casefold: string -> string, t: NameTables, parts: seq<string>, isDir: bool)
    requires parts != []
  {
    && (parts[0] == "metadata" || parts[0] == "targets")
    && (parts[0] == "metadata" && !isDir ==> |parts| == 2 && (TopLevelMetadata(parts[1]) || VersionedRoot(parts[1])))
    && (parts[0] == "targets" ==>
          if |parts| < 2 then isDir
          else TargetNamespace(parts[1]) && (isDir || casefold(Suffix(parts[|parts| - 1])) !in t.activeExtensions))
  }

  // ----- member names, component by component -----

  /** What precedes the first '.' of a component, or all of it. */
  predicate IsStem(part: string, stem: string) {
    stem <= part && '.' !in stem && (|stem| < |part| ==> part[|stem|] == '.')
  }

  /** A component that means the same everywhere: no separator, no "..", nothing Windows would rewrite or reserve. */
  ghost predicate PlainPart(t: NameTables, part: string) {
    && part != "" && part != "." && part != ".." && '/' !in part && '\\' !in part && '\0' !in part
    && part[|part| - 1] != ' ' && part[|part| - 1] != '.'
    && forall stem :: IsStem(part, stem) ==> t.upper(stem) !in t.reserved
  }

  ghost predicate PlainPath(t: NameTables, p: seq<string>) {
    p != [] && (p[0] == "metadata" || p[0] == "targets") && forall k :: 0 <= k < |p| ==> PlainPart(t, p[k])
  }

  /** ext is what follows the last '.' of a name, the '.' included; names that only begin or end with one have none. */
  predicate HasExtension(name: string, ext: string) {
    1 < |ext| < |name| && name[|name| - |ext|..] == ext && ext[0] == '.' && '.' !in ext[1..]
  }

  /** root.json, timestamp.json, snapshot.json, targets.json, or <n>.root.json. */
  ghost predicate KnownMetadata(name: string) {
    || name in {"root.json", "timestamp.json", "snapshot.json", "targets.json"}
    || (exists n :: IsNumber(n) && name == n + ".root.json")
  }

  /** A decimal without leading zero. */
  predicate IsNumber(n: string) {
    n != "" && '1' <= n[0] <= '9' && forall k :: 0 <= k < |n| ==> '0' <= n[k] <= '9'
  }

  /** Where a file may lie: known metadata, or passive content below the three target namespaces. */
  ghost predicate FilePlace(casefold: string -> string, t: NameTables, p: seq<string>) {
    && |p| >= 2
    && (p[0] == "metadata" ==> |p| == 2 && KnownMetadata(p[1]))
    && (p[0] == "targets" ==>
          && p[1] in {"atlas", "content", "search"}
          && Passive(casefold, t, p[|p| - 1]))
  }

  /** The extension of a name, or the empty one where it has none, is not active. */
  ghost predicate Passive(casefold: string -> string, t: NameTables, name: string) {
    && (forall ext :: HasExtension(name, ext) ==> casefold(ext) !in t.activeExtensions)
    && (casefold("") in t.activeExtensions ==> exists ext :: HasExtension(name, ext))
  }

  /** Where a directory may lie: anywhere below metadata/, at targets/ or below its three namespaces. */
  predicate DirPlace(p: seq<string>) { |p| >= 2 && p[0] == "targets" ==> p[1] in {"atlas", "content", "search"} }

  /** The name of a path; a directory's ends in a slash. */
  function NameOf(p: seq<string>, isDir: bool): string
    requires p != []
  {
    Join(p, '/') + if isDir then "/" else ""
  }

  /** An acceptable member, by its path. */
  ghost predicate GoodPath(nfc: string -> string, casefold: string -> string, t: NameTables, p: seq<string>,
                           isDir: bool, limits: Limits)
  {
    && PlainPath(t, p) && (if isDir then DirPlace(p) else FilePlace(casefold, t, p))
    && |Join(p, '/')| <= limits.maxPath && nfc(Join(p, '/')) == Join(p, '/')
  }

  lemma ReservedMeans(t: NameTables, part: string)
    ensures (t.upper(part[..Find(part, '.')]) !in t.reserved) <==>
      forall stem :: IsStem(part, stem) ==> t.upper(stem) !in t.reserved
  {
    var i := Find(part, '.');
    assert IsStem(part, part[..i]);
    forall stem | IsStem(part, stem) ensures stem == part[..i] {
      assert forall k :: 0 <= k < |stem| ==> stem[k] == part[k] && stem[k] != '.';
    }
  }

  lemma {:induction false} LastDotMeans(s: string)
    ensures var i := LastDot(s); (i < |s| ==> s[i] == '.') && '.' !in s[if i < |s| then i + 1 else 0..]
  {
    if s != [] && s[|s| - 1] != '.' {
      var last := |s| - 1;
      LastDotMeans(s[..last]);
      var i := LastDot(s[..last]);
      assert s == s[..last] + [s[last]];
      if i < last { assert s[i + 1..] == s[..last][i + 1..] + [s[last]]; }
    }
  }

  /** The suffix is the extension, or empty when there is none. */
  lemma SuffixMeans(name: string)
    ensures Suffix(name) != "" ==> HasExtension(name, Suffix(name))
    ensures forall ext :: HasExtension(name, ext) ==> ext == Suffix(name)
  {
    LastDotMeans(name);
    forall ext | HasExtension(name, ext) ensures ext == Suffix(name) { OneLastDot(name, ext); }
  }

  lemma OneLastDot(name: string, ext: string)
    requires HasExtension(name, ext)
    ensures LastDot(name) == |name| - |ext|
  {
    var i, d := LastDot(name), |name| - |ext|;
    LastDotMeans(name);
    assert name[d] == ext[0];
    assert forall k :: d < k < |name| ==> name[k] == ext[1..][k - d - 1];
    assert i < |name| ==> i <= d;
    assert forall k :: i < k < |name| ==> name[k] == name[i + 1..][k - i - 1];
  }

  lemma MetadataMeans(name: string)
    ensures TopLevelMetadata(name) || VersionedRoot(name) <==> KnownMetadata(name)
  {
    if VersionedRoot(name) {
      var n := name[..|name| - 10];
      assert name == n + name[|name| - 10..];
      assert IsNumber(n) && name == n + ".root.json";
    }
    forall n | IsNumber(n) && name == n + ".root.json" ensures VersionedRoot(name) {
      assert name[..|name| - 10] == n && name[|name| - 10..] == ".root.json";
    }
  }

  lemma PlaceMeans(casefold: string -> string, t: NameTables, p: seq<string>, isDir: bool)
    requires p != [] && (p[0] == "metadata" || p[0] == "targets")
    ensures InNamespaces(casefold, t, p, isDir) <==> if isDir then DirPlace(p) else FilePlace(casefold, t, p)
  {
    if !isDir && |p| >= 2 {
      MetadataMeans(p[1]);
      SuffixMeans(p[|p| - 1]);
    }
  }

  lemma {:induction false} SplitChars(s: string, sep: char, c: char)
    requires c !in s
    ensures forall p :: p in Split(s, sep) ==> c !in p
    decreases |s|
  {
    var i := Find(s, sep);
    if i < |s| {
      SplitChars(s[i + 1..], sep, c);
      assert Split(s, sep)[1..] == Split(s[i + 1..], sep);
    }
  }

  lemma {:induction false} JoinChars(parts: seq<string>, sep: char, c: char)
    requires parts != [] && c != sep && forall p :: p in parts ==> c !in p
    ensures c !in Join(parts, sep)
  {
    if |parts| > 1 { JoinChars(parts[1..], sep, c); }
  }

  lemma PartMeans(t: NameTables, part: string)
    requires '/' !in part && '\\' !in part && '\0' !in part
    ensures ComponentSafe(t, part) <==> PlainPart(t, part)
  {
    ReservedMeans(t, part);
  }

  lemma PartsSafe(t: NameTables, p: seq<string>)
    requires forall k :: 0 <= k < |p| ==> '/' !in p[k] && '\\' !in p[k] && '\0' !in p[k]
    ensures (forall k :: 0 <= k < |p| ==> ComponentSafe(t, p[k])) <==> (forall k :: 0 <= k < |p| ==> PlainPart(t, p[k]))
  {
    forall k | 0 <= k < |p| ensures ComponentSafe(t, p[k]) <==> PlainPart(t, p[k]) { PartMeans(t, p[k]); }
  }

  /** What validate_archive_member_name asks of the components of a path. */
  ghost predicate CheckedParts(nfc: string -> string, casefold: string -> string, t: NameTables, p: seq<string>,
                               isDir: bool, limits: Limits)
  {
    && p != [] && (forall k :: 0 <= k < |p| ==> ComponentSafe(t, p[k]))
    && (forall k :: 0 <= k < |p| ==> '/' !in p[k] && '\\' !in p[k] && '\0' !in p[k])
    && InNamespaces(casefold, t, p, isDir)
    && |Join(p, '/')| <= limits.maxPath && nfc(Join(p, '/')) == Join(p, '/')
  }

  lemma CheckedIsGood(nfc: string -> string, casefold: string -> string, t: NameTables, p: seq<string>, isDir: bool,
                      limits: Limits)
    ensures CheckedParts(nfc, casefold, t, p, isDir, limits) <==> GoodPath(nfc, casefold, t, p, isDir, limits)
  {
    if p != [] && (p[0] == "metadata" || p[0] == "targets") { PlaceMeans(casefold, t, p, isDir); }
    if PlainPath(t, p) {
      assert forall k :: 0 <= k < |p| && PlainPart(t, p[k]) ==> '/' !in p[k] && '\\' !in p[k] && '\0' !in p[k];
      PartsSafe(t, p);
    } else if CheckedParts(nfc, casefold, t, p, isDir, limits) {
      PartsSafe(t, p);
    }
  }

  /** An accepted name is that of an acceptable path. */
  lemma ValidNameIsGood(nfc: string -> string, casefold: string -> string, t: NameTables, name: string, isDir: bool,
                        limits: Limits)
    requires ValidName(StandardNames(nfc, casefold, t), name, isDir, limits)
    ensures GoodPath(nfc, casefold, t, Parts(name, isDir), isDir, limits) && name == NameOf(Parts(name, isDir), isDir)
  {
    ValidIsChecked(nfc, casefold, t, name, isDir, limits);
    CheckedIsGood(nfc, casefold, t, Parts(name, isDir), isDir, limits);
  }

  lemma ValidIsChecked(nfc: string -> string, casefold: string -> string, t: NameTables, name: string, isDir: bool,
                       limits: Limits)
    requires ValidName(StandardNames(nfc, casefold, t), name, isDir, limits)
    ensures CheckedParts(nfc, casefold, t, Parts(name, isDir), isDir, limits)
    ensures name == NameOf(Parts(name, isDir), isDir)
  {
    var parts, e := Parts(name, isDir), StandardNames(nfc, casefold, t);
    SplitName(name, isDir);
    forall k | 0 <= k < |parts| ensures ComponentSafe(t, parts[k]) { assert e.safe(parts[k]); }
    assert e.placed(parts, isDir);
  }

  lemma SplitName(name: string, isDir: bool)
    requires '\0' !in name && '\\' !in name && name != "" && (isDir ==> name[|name| - 1] == '/')
    ensures forall k :: 0 <= k < |Parts(name, isDir)| ==>
              '/' !in Parts(name, isDir)[k] && '\\' !in Parts(name, isDir)[k] && '\0' !in Parts(name, isDir)[k]
    ensures Join(Parts(name, isDir), '/') == Raw(name, isDir) && name == NameOf(Parts(name, isDir), isDir)
  {
    var raw := Raw(name, isDir);
    assert name == raw + if isDir then "/" else "";
    JoinSplit(raw, '/');
    SplitChars(raw, '/', '\\');
    SplitChars(raw, '/', '\0');
  }

  lemma {:induction false} JoinEnds(p: seq<string>)
    requires p != [] && forall k :: 0 <= k < |p| ==> p[k] != ""
    ensures Join(p, '/') != "" && Join(p, '/')[0] == p[0][0]
    ensures Join(p, '/')[|Join(p, '/')| - 1] == p[|p| - 1][|p[|p| - 1]| - 1]
    ensures |p[0]| > 1 ==> |Join(p, '/')| > 1 && Join(p, '/')[1] == p[0][1]
  {
    if |p| > 1 {
      JoinEnds(p[1..]);
      var rest := Join(p[1..], '/');
      assert Join(p, '/') == p[0] + ['/'] + rest;
      assert p[1..][|p[1..]| - 1] == p[|p| - 1];
    }
  }

  /** The name of every acceptable path is accepted, and is split back into it. */
  lemma GoodPathIsValid(nfc: string -> string, casefold: string -> string, t: NameTables, p: seq<string>, isDir: bool,
                        limits: Limits)
    requires GoodPath(nfc, casefold, t, p, isDir, limits)
    ensures Parts(NameOf(p, isDir), isDir) == p
    ensures ValidName(StandardNames(nfc, casefold, t), NameOf(p, isDir), isDir, limits)
  {
    CheckedIsGood(nfc, casefold, t, p, isDir, limits);
    CheckedIsValid(nfc, casefold, t, p, isDir, limits);
  }

  lemma CheckedIsValid(nfc: string -> string, casefold: string -> string, t: NameTables, p: seq<string>, isDir: bool,
                       limits: Limits)
    requires CheckedParts(nfc, casefold, t, p, isDir, limits)
    ensures Parts(NameOf(p, isDir), isDir) == p
    ensures ValidName(StandardNames(nfc, casefold, t), NameOf(p, isDir), isDir, limits)
  {
    var raw, name := Join(p, '/'), NameOf(p, isDir);
    JoinChars(p, '/', '\\');
    JoinChars(p, '/', '\0');
    SplitJoin(p, '/');
    assert Raw(name, isDir) == raw;
    NameEnds(p);
  }

  /** The name of a path below metadata/ or targets/ begins like no rooted path, and ends in its last component. */
  lemma NameEnds(p: seq<string>)
    requires p != [] && (p[0] == "metadata" || p[0] == "targets")
    requires forall k :: 0 <= k < |p| ==> p[k] != "" && '/' !in p[k]
    ensures var raw := Join(p, '/'); |raw| > 1 && raw[0] != '/' && raw[1] != ':' && raw[|raw| - 1] != '/'
  {
    JoinEnds(p);
    LastPart(p);
    assert p[0][1] == 'e' || p[0][1] == 'a';
  }

  lemma LastPart(p: seq<string>)
    requires p != [] && (forall k :: 0 <= k < |p| ==> p[k] != "" && '/' !in p[k])
    ensures p[|p| - 1][|p[|p| - 1]| - 1] != '/'
  {
    var last := p[|p| - 1];
    assert last[|last| - 1] in last;
  }

  // ----- preflight -----

  /** One member preflight lets through: the name it was read under, an acceptable path, and sizes within bounds. */
  ghost predicate GoodEntry(nfc: string -> string, casefold: string -> string, t: NameTables, limits: Limits,
                            x: Entry)
  {
    && x.original == x.name && x.allowed && GoodSize(limits, x)
    && x.name == NameOf(x.Path(), x.IsDir()) && GoodPath(nfc, casefold, t, x.Path(), x.IsDir(), limits)
  }

  ghost predicate GoodSize(limits: Limits, x: Entry) {
    if x.IsDir() then x.fileSize == 0
    else
    && x.fileSize <= limits.maxFile
    && (x.fileSize > 0 ==>
          x.fileSize as real <= limits.maxRatio * if x.compressSize == 0 then 1.0 else x.compressSize as real)
  }

  /** No two members have the same path letter case aside. */
  ghost predicate CaseDistinct(casefold: string -> string, entries: seq<Entry>) {
    forall i, j :: 0 <= i < j < |entries| ==>
      casefold(Join(entries[i].Path(), '/')) != casefold(Join(entries[j].Path(), '/'))
  }

  /** A name is accepted exactly when it is that of an acceptable path. */
  lemma NameMeans(nfc: string -> string, casefold: string -> string, t: NameTables, name: string, isDir: bool,
                  limits: Limits)
    ensures ValidName(StandardNames(nfc, casefold, t), name, isDir, limits) <==>
            name == NameOf(Parts(name, isDir), isDir) && GoodPath(nfc, casefold, t, Parts(name, isDir), isDir, limits)
  {
    if name == NameOf(Parts(name, isDir), isDir) && GoodPath(nfc, casefold, t, Parts(name, isDir), isDir, limits) {
      GoodPathIsValid(nfc, casefold, t, Parts(name, isDir), isDir, limits);
    } else if ValidName(StandardNames(nfc, casefold, t), name, isDir, limits) {
      ValidNameIsGood(nfc, casefold, t, name, isDir, limits);
    }
  }

  lemma EntryMeans(nfc: string -> string, casefold: string -> string, t: NameTables, limits: Limits, x: Entry)
    ensures EntryOk(StandardNames(nfc, casefold, t), limits, x) <==> GoodEntry(nfc, casefold, t, limits, x)
  {
    NameMeans(nfc, casefold, t, x.name, x.IsDir(), limits);
    SizeMeans(limits, x);
  }

  lemma SizeMeans(limits: Limits, x: Entry)
    ensures SizeOk(limits, x) <==> GoodSize(limits, x)
  {
    RatioMeans(x.fileSize as real, Max(x.compressSize, 1) as real, limits.maxRatio);
  }

  lemma KeyMeans(nfc: string -> string, casefold: string -> string, t: NameTables, limits: Limits, x: Entry)
    requires GoodEntry(nfc, casefold, t, limits, x)
    ensures CollisionKey(StandardNames(nfc, casefold, t), x) == casefold(Join(x.Path(), '/'))
  {
    assert Raw(x.name, x.IsDir()) == Join(x.Path(), '/');
  }

  lemma RatioMeans(a: real, b: real, bound: real)
    requires b > 0.0
    ensures a / b <= bound <==> a <= bound * b
  {
    assert a == (a / b) * b;
    if a / b <= bound { assert (bound - a / b) * b >= 0.0; } else { assert (a / b - bound) * b > 0.0; }
  }

  /** What preflight accepts. */
  lemma PreflightMeans(nfc: string -> string, casefold: string -> string, t: NameTables, limits: Limits,
                       entries: seq<Entry>)
    ensures PreflightOk(ChecksOf(StandardNames(nfc, casefold, t), limits), limits, entries) <==>
            && |entries| <= limits.maxEntries && Total(entries) <= limits.maxTotal
            && (forall k :: 0 <= k < |entries| ==> GoodEntry(nfc, casefold, t, limits, entries[k]))
            && CaseDistinct(casefold, entries)
  {
    var c := ChecksOf(StandardNames(nfc, casefold, t), limits);
    forall k | 0 <= k < |entries|
      ensures c.ok(entries[k]) <==> GoodEntry(nfc, casefold, t, limits, entries[k])
      ensures c.ok(entries[k]) ==> c.key(entries[k]) == casefold(Join(entries[k].Path(), '/'))
    {
      EntryMeans(nfc, casefold, t, limits, entries[k]);
      if c.ok(entries[k]) { KeyMeans(nfc, casefold, t, limits, entries[k]); }
    }
  }

  /** Whatever an accepted archive contains, extraction only makes plain paths below metadata/ and targets/, and
      its files are known metadata or passive content. */
  lemma ExtractionIsContained(nfc: string -> string, casefold: string -> string, t: NameTables, limits: Limits,
                              entries: seq<Entry>, tree: Tree)
    requires PreflightOk(ChecksOf(StandardNames(nfc, casefold, t), limits), limits, entries)
    requires Extracted(tree, MembersOf(entries))
    ensures forall p :: p in tree ==> PlainPath(t, p)
    ensures forall p :: p in tree && tree[p].File? ==> FilePlace(casefold, t, p)
  {
    var e, ms := StandardNames(nfc, casefold, t), MembersOf(entries);
    forall k | 0 <= k < |ms|
      ensures PlainPath(t, ms[k].path) && (!ms[k].isDir ==> FilePlace(casefold, t, ms[k].path))
    {
      assert ChecksOf(e, limits).ok(entries[k]);
      ValidNameIsGood(nfc, casefold, t, entries[k].name, entries[k].IsDir(), limits);
    }
    forall p | p in tree ensures PlainPath(t, p) && (tree[p].File? ==> FilePlace(casefold, t, p)) {
      if tree[p].File? {
        assert HasFile(ms, p, tree[p].content);
        var k :| 0 <= k < |ms| && !ms[k].isDir && ms[k].path == p && ms[k].content == tree[p].content;
      } else {
        assert HasDir(ms, p);
        var k :| 0 <= k < |ms| && Makes(ms[k], p);
        PrefixIsPlain(t, ms[k].path, p);
      }
    }
  }

  lemma PrefixIsPlain(t: NameTables, path: seq<string>, p: seq<string>)
    requires PlainPath(t, path) && p != [] && p <= path
    ensures PlainPath(t, p)
  {
    forall k | 0 <= k < |p| ensures PlainPart(t, p[k]) { assert p[k] == path[k]; }
  }
}

/** tools/pack/builder.py, and the round trip of building and extracting. */
module ArchiveRoundTrip {
  import opened Wrappers
  import opened Ordering
  import opened Text
  import opened Archive

  /** The regular files below metadata/ and targets/, by relative name. */
  type Source = map<string, Bytes>

  ghost predicate ValidSource(e: Names, limits: Limits, source: Source) {
    (forall name :: name in source ==> ValidName(e, name, false, limits)) && |source.Keys| <= limits.maxEntries
  }

  lemma SortedCount(S: set<string>)
    ensures |SortedStrings(S)| == |S|
  {
    NoDupMultiset(SortedStrings(S), S);
    assert |multiset(SortedStrings(S))| == |SortedStrings(S)| && |multiset(S)| == |S|;
  }

  /** The source files by name. */
  ghost function Listed(source: Source): (files: seq<string>)
    ensures files == SortedStrings(source.Keys) && forall j :: 0 <= j < |files| ==> files[j] in source
  {
    var files := SortedStrings(source.Keys);
    assert forall j :: 0 <= j < |files| ==> files[j] in files;
    files
  }

  /** _source_files: whatever order the directory walk has, the list is sorted by name. */
  method SourceFiles(e: Names, limits: Limits, source: Source) returns (r: Result<seq<string>>)
    ensures r.Ok? <==> ValidSource(e, limits, source)
    ensures r.Ok? ==> r.value == SortedStrings(source.Keys)
  {
    var walk := Enumerate(source.Keys);
    for k := 0 to |walk|
      invariant forall j :: 0 <= j < k ==> ValidName(e, walk[j], false, limits)
    {
      assert walk[k] in source;
      var ok := ValidName(e, walk[k], false, limits);
      if !ok { return Err("invalid member name"); }
    }
    forall name | name in source ensures ValidName(e, name, false, limits) { assert name in walk; }
    var files := SortStrings(source.Keys);
    SortedCount(source.Keys);
    if |files| > limits.maxEntries { return Err("signed source exceeds archive entry bound"); }
    r := Ok(files);
  }

  /** A member as the writer stores it: uncompressed, a regular file, nothing for a parser to repair. */
  function Stored(name: string, data: Bytes): Entry { Entry(name, name, true, |data|, |data|, data) }

  function StoredAll(files: seq<string>, source: Source): (entries: seq<Entry>)
    requires forall k :: 0 <= k < |files| ==> files[k] in source
    ensures |entries| == |files| && forall k :: 0 <= k < |files| ==> entries[k] == Stored(files[k], source[files[k]])
  {
    seq(|files|, k requires 0 <= k < |files| => Stored(files[k], source[files[k]]))
  }

  function Size(files: seq<string>, source: Source, k: nat): nat
    requires k <= |files| && forall j :: 0 <= j < |files| ==> files[j] in source
  {
    if k == 0 then 0 else Size(files, source, k - 1) + |source[files[k - 1]]|
  }

  ghost predicate FitsLimits(limits: Limits, files: seq<string>, source: Source)
    requires forall j :: 0 <= j < |files| ==> files[j] in source
  {
    && (forall k :: 0 <= k < |files| ==> |source[files[k]]| <= limits.maxFile)
    && Size(files, source, |files|) <= limits.maxTotal
  }

  lemma {:induction false} SizeGrows(files: seq<string>, source: Source, k: nat)
    requires k <= |files| && forall j :: 0 <= j < |files| ==> files[j] in source
    ensures Size(files, source, k) <= Size(files, source, |files|)
    decreases |files| - k
  {
    if k < |files| { SizeGrows(files, source, k + 1); }
  }

  lemma NextStored(files: seq<string>, source: Source, k: nat)
    requires k < |files| && forall j :: 0 <= j < |files| ==> files[j] in source
    ensures StoredAll(files, source)[..k + 1] == StoredAll(files, source)[..k] + [Stored(files[k], source[files[k]])]
  {
  }

  /** _write_deterministic_zip; zipSize is the byte length of the written archive. */
  method WriteZip(files: seq<string>, source: Source, limits: Limits, zipSize: seq<Entry> -> nat)
    returns (r: Result<seq<Entry>>)
    requires forall j :: 0 <= j < |files| ==> files[j] in source
    ensures r.Ok? <==> FitsLimits(limits, files, source) && zipSize(StoredAll(files, source)) <= limits.maxArchive
    ensures r.Ok? ==> r.value == StoredAll(files, source)
  {
    var entries: seq<Entry> := [];
    var total := 0;
    for k := 0 to |files|
      invariant entries == StoredAll(files, source)[..k] && total == Size(files, source, k) <= limits.maxTotal
      invariant forall j :: 0 <= j < k ==> |source[files[j]]| <= limits.maxFile
    {
      var data := source[files[k]];
      SizeGrows(files, source, k + 1);
      if |data| > limits.maxFile { return Err("source file exceeds per-file bound"); }
      total := total + |data|;
      if total > limits.maxTotal { return Err("signed source exceeds aggregate bound"); }
      NextStored(files, source, k);
      entries := entries + [Stored(files[k], data)];
    }
    assert entries == StoredAll(files, source);
    if zipSize(entries) > limits.maxArchive { return Err("built atlaspack exceeds compressed-size bound"); }
    r := Ok(entries);
  }

  // ----- what extraction makes of a built archive -----

  /** No file's path lies above another's, as in any directory tree. */
  ghost predicate PrefixFree(source: Source) {
    forall a, b :: a in source && b in source && a != b ==> !(Parts(a, false) <= Parts(b, false))
  }

  ghost predicate CasefoldDistinct(e: Names, source: Source) {
    forall a, b :: a in source && b in source && a != b ==> e.casefold(a) != e.casefold(b)
  }

  /** The tree's files are exactly the source files under their paths. */
  ghost predicate Reproduces(t: Tree, source: Source) {
    && (forall a :: a in source ==> Parts(a, false) in t && t[Parts(a, false)] == File(source[a]))
    && (forall p :: p in t && t[p].File? ==> exists a :: a in source && p == Parts(a, false) && t[p] == File(source[a]))
  }

  lemma RatioOfStored(d: real)
    requires d > 0.0
    ensures d / d == 1.0
  {
  }

  lemma StoredFacts(e: Names, limits: Limits, name: string, data: Bytes)
    requires ValidName(e, name, false, limits) && |data| <= limits.maxFile && limits.maxRatio >= 1.0
    ensures var x := Stored(name, data);
            && !x.IsDir() && EntryOk(e, limits, x) && CollisionKey(e, x) == e.casefold(name)
            && MemberOf(x) == Member(Parts(name, false), false, |data|, data)
  {
    if |data| > 0 {
      var d := |data| as real;
      RatioOfStored(d);
    }
  }

  lemma {:induction false} StoredTotal(files: seq<string>, source: Source, k: nat)
    requires k <= |files| && forall j :: 0 <= j < |files| ==> files[j] in source
    requires forall j :: 0 <= j < |files| ==> !StoredAll(files, source)[j].IsDir()
    ensures Total(StoredAll(files, source)[..k]) == Size(files, source, k)
  {
    var all := StoredAll(files, source);
    if k > 0 {
      StoredTotal(files, source, k - 1);
      TotalStep(all, k - 1);
      assert all[k - 1] == Stored(files[k - 1], source[files[k - 1]]);
    }
  }

  lemma BuiltChecks(e: Names, limits: Limits, source: Source, files: seq<string>)
    requires ValidSource(e, limits, source) && files == SortedStrings(source.Keys)
    requires (forall j :: 0 <= j < |files| ==> files[j] in source) && FitsLimits(limits, files, source)
        && limits.maxRatio >= 1.0
    ensures var c, all := ChecksOf(e, limits), StoredAll(files, source);
            && |all| <= limits.maxEntries && AllOk(c, all)
            && (forall j :: 0 <= j < |all| ==>
                  && !all[j].IsDir() && c.key(all[j]) == e.casefold(files[j])
                  && MembersOf(all)[j] == Member(Parts(files[j], false), false, |source[files[j]]|, source[files[j]]))
  {
    SortedCount(source.Keys);
    var all := StoredAll(files, source);
    forall j | 0 <= j < |all|
      ensures ChecksOf(e, limits).ok(all[j]) && !all[j].IsDir()
          && ChecksOf(e, limits).key(all[j]) == e.casefold(files[j])
      ensures MembersOf(all)[j] == Member(Parts(files[j], false), false, |source[files[j]]|, source[files[j]])
    {
      StoredFacts(e, limits, files[j], source[files[j]]);
    }
  }

  /** Distinct in position is distinct in value, for a list without duplicates. */
  lemma DistinctImages(files: seq<string>, f: string -> string)
    requires NoDup(files)
    ensures (forall i, j :: 0 <= i < j < |files| ==> f(files[i]) != f(files[j]))
       <==> (forall a, b :: a in files && b in files && a != b ==> f(a) != f(b))
  {
    if forall i, j :: 0 <= i < j < |files| ==> f(files[i]) != f(files[j]) {
      forall a, b | a in files && b in files && a != b ensures f(a) != f(b) {
        var i :| 0 <= i < |files| && files[i] == a;
        var j :| 0 <= j < |files| && files[j] == b;
        assert if i < j then f(files[i]) != f(files[j]) else f(files[j]) != f(files[i]);
      }
    }
    if forall a, b :: a in files && b in files && a != b ==> f(a) != f(b) {
      forall i, j | 0 <= i < j < |files| ensures f(files[i]) != f(files[j]) {
        assert files[i] in files && files[j] in files && files[i] != files[j];
      }
    }
  }

  lemma CollisionsMatch(e: Names, c: Checks, all: seq<Entry>, files: seq<string>, source: Source)
    requires files == SortedStrings(source.Keys) && |all| == |files|
    requires forall j :: 0 <= j < |all| ==> c.key(all[j]) == e.casefold(files[j])
    ensures NoCollision(c, all) <==> CasefoldDistinct(e, source)
  {
    DistinctImages(files, e.casefold);
    assert forall a :: a in files <==> a in source;
  }

  /** Preflight accepts a built archive exactly when no two names are equal under casefold. */
  lemma BuiltPreflight(e: Names, limits: Limits, source: Source, files: seq<string>)
    requires ValidSource(e, limits, source) && files == SortedStrings(source.Keys)
    requires (forall j :: 0 <= j < |files| ==> files[j] in source) && FitsLimits(limits, files, source)
        && limits.maxRatio >= 1.0
    ensures PreflightOk(ChecksOf(e, limits), limits, StoredAll(files, source)) <==> CasefoldDistinct(e, source)
  {
    var all := StoredAll(files, source);
    BuiltChecks(e, limits, source, files);
    StoredTotal(files, source, |files|);
    assert all[..|files|] == all;
    CollisionsMatch(e, ChecksOf(e, limits), all, files, source);
  }

  lemma BuiltMembers(e: Names, limits: Limits, source: Source, files: seq<string>)
    requires ValidSource(e, limits, source) && files == SortedStrings(source.Keys) && PrefixFree(source)
    requires (forall j :: 0 <= j < |files| ==> files[j] in source) && FitsLimits(limits, files, source)
        && limits.maxRatio >= 1.0
    ensures FilesAreLeaves(MembersOf(StoredAll(files, source))) && SizesMatch(MembersOf(StoredAll(files, source)))
  {
    BuiltChecks(e, limits, source, files);
    var ms := MembersOf(StoredAll(files, source));
    forall i, j | 0 <= i < |ms| && 0 <= j < |ms| && i != j ensures !(ms[i].path <= ms[j].path) {
      assert files[i] != files[j];
    }
  }

  lemma ExtractedReproduces(source: Source, files: seq<string>, ms: seq<Member>, t: Tree)
    requires files == SortedStrings(source.Keys) && |ms| == |files|
    requires forall j :: 0 <= j < |files| ==> files[j] in source
    requires forall j :: 0 <= j < |files| ==>
        ms[j] == Member(Parts(files[j], false), false, |source[files[j]]|, source[files[j]])
    requires Extracted(t, ms)
    ensures Reproduces(t, source)
  {
    forall a | a in source ensures Parts(a, false) in t && t[Parts(a, false)] == File(source[a]) {
      assert a in files;
      var j :| 0 <= j < |files| && files[j] == a;
      assert HasFile(ms, Parts(a, false), source[a]);
    }
    forall p | p in t && t[p].File? ensures exists a :: a in source && p == Parts(a, false) && t[p] == File(source[a]) {
      assert HasFile(ms, p, t[p].content);
      var k :| 0 <= k < |ms| && !ms[k].isDir && ms[k].path == p && ms[k].content == t[p].content;
      assert files[k] in source;
    }
  }

  /** Build, then extract: extraction of whatever was built succeeds exactly when no two names are equal
      under casefold, and then the tree holds exactly the source files. */
  method RoundTrip(e: Names, limits: Limits, source: Source, zipSize: seq<Entry> -> nat)
    returns (built: Result<seq<Entry>>, r: Result<Tree>)
    requires PrefixFree(source) && limits.maxRatio >= 1.0
    ensures built.Ok? <==> && ValidSource(e, limits, source) && FitsLimits(limits, Listed(source), source)
                           && zipSize(StoredAll(Listed(source), source)) <= limits.maxArchive
    ensures built.Ok? ==> built.value == StoredAll(Listed(source), source)
    ensures r.Ok? <==> built.Ok? && CasefoldDistinct(e, source)
    ensures r.Ok? ==> Reproduces(r.value, source)
  {
    var files := SourceFiles(e, limits, source);
    if files.Err? { return Err(files.error), Err(files.error); }
    assert files.value == Listed(source);
    built := WriteZip(files.value, source, limits, zipSize);
    if built.Err? { return built, Err(built.error); }
    r := ExtractBuilt(e, limits, source, built.value, zipSize(built.value));
  }

  /** Extraction of a built archive. */
  method ExtractBuilt(e: Names, limits: Limits, source: Source, built: seq<Entry>, size: nat) returns (r: Result<Tree>)
    requires PrefixFree(source) && limits.maxRatio >= 1.0 && size <= limits.maxArchive
    requires ValidSource(e, limits, source) && FitsLimits(limits, Listed(source), source)
    requires built == StoredAll(Listed(source), source)
    ensures r.Ok? <==> CasefoldDistinct(e, source)
    ensures r.Ok? ==> Reproduces(r.value, source)
  {
    ghost var files := Listed(source);
    BuiltChecks(e, limits, source, files);
    BuiltPreflight(e, limits, source, files);
    BuiltMembers(e, limits, source, files);
    r := SafeExtract(e, limits, size, built);
    if r.Ok? { ExtractedReproduces(source, files, MembersOf(built), r.value); }
  }
}

/** tools/pack/archive.py: validation of member names, preflight of all members, and extraction into an
    empty directory. */
module Archive {
  import opened Wrappers
  import opened Text
  import Frames

  type Bytes = Frames.Bytes

  datatype Limits = Limits(maxArchive: nat, maxEntries: nat, maxPath: nat, maxFile: nat, maxTotal: nat, maxRatio: real)

  /** NFC and casefold, and the rules on one path component and on where a path may lie. */
  datatype Names = Names(nfc: string -> string, casefold: string -> string,
                         safe: string -> bool, placed: (seq<string>, bool) -> bool)

  // ----- member names -----

  predicate IsLetter(c: char) { 'A' <= c <= 'Z' || 'a' <= c <= 'z' }

  function Raw(name: string, isDir: bool): string {
    if isDir && name != "" then name[..|name| - 1] else name
  }

  function Parts(name: string, isDir: bool): (p: seq<string>)
    ensures p != []
  {
    Split(Raw(name, isDir), '/')
  }

  /** validate_archive_member_name does not raise. */
  predicate ValidName(e: Names, name: string, isDir: bool, limits: Limits) {
    && name != "" && '\0' !in name && '\\' !in name
    && |name| <= limits.maxPath + 1
    && name[0] != '/' && !(|name| > 1 && IsLetter(name[0]) && name[1] == ':')
    && (isDir <==> name[|name| - 1] == '/')
    && Raw(name, isDir) != "" && |Raw(name, isDir)| <= limits.maxPath
    && e.nfc(Raw(name, isDir)) == Raw(name, isDir)
    && (forall k :: 0 <= k < |Parts(name, isDir)| ==> e.safe(Parts(name, isDir)[k]))
    && e.placed(Parts(name, isDir), isDir)
  }

  // ----- preflight -----

  /** A ZIP member: allowed says whether its flags, method and mode pass _validate_entry_type. */
  datatype Entry = Entry(name: string, original: string, allowed: bool, fileSize: nat, compressSize: nat,
                         content: Bytes)
  {
    predicate IsDir() { name != "" && name[|name| - 1] == '/' }

    function Path(): (p: seq<string>)
      ensures p != []
    {
      Parts(name, IsDir())
    }
  }

  function Max(a: nat, b: nat): nat { if a < b then b else a }

  predicate EntryOk(e: Names, limits: Limits, x: Entry) {
    x.original == x.name && x.allowed && ValidName(e, x.name, x.IsDir(), limits) && SizeOk(limits, x)
  }

  predicate SizeOk(limits: Limits, x: Entry) {
    if x.IsDir() then x.fileSize == 0
    else
    && x.fileSize <= limits.maxFile
    && (x.fileSize > 0 ==> x.fileSize as real / Max(x.compressSize, 1) as real <= limits.maxRatio)
  }

  function CollisionKey(e: Names, x: Entry): string { e.casefold(e.nfc(Raw(x.name, x.IsDir()))) }

  /** The two tests preflight makes on one member. */
  datatype Checks = Checks(ok: Entry -> bool, key: Entry -> string)

  function ChecksOf(e: Names, limits: Limits): Checks {
    Checks((x: Entry) => EntryOk(e, limits, x), (x: Entry) => CollisionKey(e, x))
  }

  function Total(entries: seq<Entry>): nat {
    if entries == [] then 0 else
      var last := entries[|entries| - 1];
      Total(entries[..|entries| - 1]) + if last.IsDir() then 0 else last.fileSize
  }

  ghost predicate NoCollision(c: Checks, entries: seq<Entry>) {
    forall i, j :: 0 <= i < j < |entries| ==> c.key(entries[i]) != c.key(entries[j])
  }

  ghost predicate AllOk(c: Checks, entries: seq<Entry>) {
    forall k :: 0 <= k < |entries| ==> c.ok(entries[k])
  }

  ghost predicate PreflightOk(c: Checks, limits: Limits, entries: seq<Entry>) {
    && |entries| <= limits.maxEntries
    && AllOk(c, entries) && NoCollision(c, entries) && Total(entries) <= limits.maxTotal
  }

  lemma {:induction false} TotalGrows(entries: seq<Entry>, k: nat)
    requires k <= |entries|
    ensures Total(entries[..k]) <= Total(entries)
  {
    if k < |entries| {
      var front := entries[..|entries| - 1];
      TotalGrows(front, k);
      assert front[..k] == entries[..k];
    } else {
      assert entries[..k] == entries;
    }
  }

  lemma TotalStep(entries: seq<Entry>, k: nat)
    requires k < |entries|
    ensures Total(entries[..k + 1]) == Total(entries[..k]) + if entries[k].IsDir() then 0 else entries[k].fileSize
    ensures Total(entries[..k + 1]) <= Total(entries)
  {
    var longer := entries[..k + 1];
    assert longer[..|longer| - 1] == entries[..k] && longer[|longer| - 1] == entries[k];
    TotalGrows(entries, k + 1);
  }

  /** _preflight: every member is validated before anything is written. */
  method Preflight(c: Checks, limits: Limits, entries: seq<Entry>) returns (ok: bool)
    ensures ok <==> PreflightOk(c, limits, entries)
  {
    if |entries| > limits.maxEntries { return false; }
    var seen: set<string> := {};
    var total := 0;
    for k := 0 to |entries|
      invariant forall j :: 0 <= j < k ==> c.ok(entries[j])
      invariant forall i, j :: 0 <= i < j < k ==> c.key(entries[i]) != c.key(entries[j])
      invariant forall key :: key in seen <==> exists j :: 0 <= j < k && c.key(entries[j]) == key
      invariant total == Total(entries[..k]) <= limits.maxTotal
    {
      TotalStep(entries, k);
      if !c.ok(entries[k]) { return false; }
      var key := c.key(entries[k]);
      if key in seen { return false; }
      seen := seen + {key};
      if !entries[k].IsDir() { total := total + entries[k].fileSize; }
      if total > limits.maxTotal { return false; }
    }
    assert entries[..|entries|] == entries;
    ok := true;
  }

  // ----- extraction -----

  datatype Node = Dir | File(content: Bytes)

  /** The staging directory: paths below its root. */
  type Tree = map<seq<string>, Node>

  /** _mkdir_chain_without_links: a file on the way raises. */
  method MkdirChain(t: Tree, chain: seq<string>) returns (r: Result<Tree>)
    ensures r.Ok? <==> forall i :: 0 < i <= |chain| && chain[..i] in t ==> t[chain[..i]] == Dir
    ensures r.Ok? ==> forall p :: p in r.value <==> p in t || (p != [] && p <= chain)
    ensures r.Ok? ==> forall p :: p in r.value ==> r.value[p] == if p in t then t[p] else Dir
  {
    var u := t;
    for k := 0 to |chain|
      invariant forall i :: 0 < i <= k && chain[..i] in t ==> t[chain[..i]] == Dir
      invariant forall p :: p in u <==> p in t || (p != [] && |p| <= k && p <= chain)
      invariant forall p :: p in u ==> u[p] == if p in t then t[p] else Dir
    {
      var current := chain[..k + 1];
      if current in u {
        if u[current] != Dir { return Err("staging path component is not a normal directory"); }
      } else {
        u := u[current := Dir];
      }
      forall p ensures p != [] && |p| <= k + 1 && p <= chain <==> p == current || (p != [] && |p| <= k && p <= chain) {
        if |p| == k + 1 && p <= chain { assert p == chain[..k + 1]; }
      }
    }
    r := Ok(u);
  }

  const COPY_CHUNK: nat := 1024 * 1024

  /** The copy loop: a member longer or shorter than declared raises. */
  method CopyMember(content: Bytes, fileSize: nat, maxFile: nat) returns (r: Result<Bytes>)
    requires fileSize <= maxFile
    ensures r.Ok? <==> |content| == fileSize
    ensures r.Ok? ==> r.value == content
  {
    var output: Bytes := [];
    var written := 0;
    while written < |content|
      invariant written <= |content| && output == content[..written]
      invariant written <= fileSize
    {
      var n := if |content| - written < COPY_CHUNK then |content| - written else COPY_CHUNK;
      ghost var chunk := content[written..written + n];
      if written + n > fileSize || written + n > maxFile { return Err("decompressed member exceeded declared size"); }
      assert content[..written + n] == content[..written] + chunk;
      output := output + content[written..written + n];
      written := written + n;
    }
    if written != fileSize { return Err("decompressed member size mismatch"); }
    r := Ok(output);
  }

  /** A validated member: the tuple preflight returns. */
  datatype Member = Member(path: seq<string>, isDir: bool, fileSize: nat, content: Bytes)

  function MemberOf(x: Entry): (m: Member)
    ensures m.path != []
  {
    Member(x.Path(), x.IsDir(), x.fileSize, x.content)
  }

  function MembersOf(entries: seq<Entry>): (ms: seq<Member>)
    ensures |ms| == |entries| && forall k :: 0 <= k < |ms| ==> ms[k] == MemberOf(entries[k])
  {
    seq(|entries|, k requires 0 <= k < |entries| => MemberOf(entries[k]))
  }

  ghost predicate Named(ms: seq<Member>) { forall k :: 0 <= k < |ms| ==> ms[k].path != [] }

  ghost predicate HasFile(ms: seq<Member>, p: seq<string>, c: Bytes) {
    exists k :: 0 <= k < |ms| && !ms[k].isDir && ms[k].path == p && ms[k].content == c
  }

  /** p is a directory that a member creates on its way. */
  predicate Makes(m: Member, p: seq<string>) { p != [] && p <= m.path && (m.isDir || |p| < |m.path|) }

  ghost predicate HasDir(ms: seq<Member>, p: seq<string>) {
    exists k :: 0 <= k < |ms| && Makes(ms[k], p)
  }

  /** The tree holds the members' files and the directories above them, and nothing else. */
  ghost predicate Extracted(t: Tree, ms: seq<Member>) {
    && (forall p, c :: p in t && t[p] == File(c) <==> HasFile(ms, p, c))
    && (forall p :: p in t && t[p] == Dir <==> HasDir(ms, p))
  }

  /** No file member lies at or above another member. */
  ghost predicate FilesAreLeaves(ms: seq<Member>) {
    forall i, j :: 0 <= i < |ms| && 0 <= j < |ms| && i != j && !ms[i].isDir ==> !(ms[i].path <= ms[j].path)
  }

  ghost predicate SizesMatch(ms: seq<Member>) {
    forall k :: 0 <= k < |ms| && !ms[k].isDir ==> |ms[k].content| == ms[k].fileSize
  }

  /** The directories member m needs: all of its path, or all but the last part. */
  function Chain(m: Member): (c: seq<string>)
    requires m.path != []
    ensures c <= m.path && forall p :: Makes(m, p) <==> p != [] && p <= c
  {
    if m.isDir then m.path else m.path[..|m.path| - 1]
  }

  ghost predicate Conflict(ms: seq<Member>, k: nat) {
    exists j :: 0 <= j < k < |ms| &&
      ((!ms[j].isDir && ms[j].path <= ms[k].path) || (!ms[k].isDir && ms[k].path <= ms[j].path))
  }

  lemma ConflictIsNoLeaf(ms: seq<Member>, k: nat)
    requires Conflict(ms, k)
    ensures !FilesAreLeaves(ms)
  {
  }

  lemma OneMoreFile(ms: seq<Member>, k: nat, p: seq<string>, c: Bytes)
    requires k < |ms|
    ensures HasFile(ms[..k + 1], p, c) <==>
      HasFile(ms[..k], p, c) || (!ms[k].isDir && ms[k].path == p && ms[k].content == c)
  {
    var longer := ms[..k + 1];
    assert longer[k] == ms[k] && forall j :: 0 <= j < k ==> longer[j] == ms[..k][j];
  }

  lemma OneMoreDir(ms: seq<Member>, k: nat, p: seq<string>)
    requires k < |ms|
    ensures HasDir(ms[..k + 1], p) <==> HasDir(ms[..k], p) || Makes(ms[k], p)
  {
    var longer := ms[..k + 1];
    assert longer[k] == ms[k] && forall j :: 0 <= j < k ==> longer[j] == ms[..k][j];
  }

  /** A file found where a directory is needed belongs to an earlier member at or above this one. */
  lemma BlockedChain(t: Tree, ms: seq<Member>, k: nat, p: seq<string>)
    requires Named(ms) && k < |ms| && Extracted(t, ms[..k]) && p != [] && p <= Chain(ms[k]) && p in t && t[p] != Dir
    ensures Conflict(ms, k)
  {
    assert HasFile(ms[..k], p, t[p].content);
    var j :| 0 <= j < k && !ms[..k][j].isDir && ms[..k][j].path == p;
    assert ms[..k][j] == ms[j] && ms[j].path <= ms[k].path;
  }

  lemma BlockedFile(t: Tree, ms: seq<Member>, k: nat)
    requires Named(ms) && k < |ms| && Extracted(t, ms[..k]) && !ms[k].isDir && ms[k].path in t
    ensures Conflict(ms, k)
  {
    var p := ms[k].path;
    if t[p] == Dir {
      assert HasDir(ms[..k], p);
      var j :| 0 <= j < k && Makes(ms[..k][j], p);
      assert ms[..k][j] == ms[j];
    } else {
      assert HasFile(ms[..k], p, t[p].content);
      var j :| 0 <= j < k && !ms[..k][j].isDir && ms[..k][j].path == p;
      assert ms[..k][j] == ms[j];
    }
  }

  lemma PrefixCases(q: seq<string>, m: Member)
    requires m.path != []
    ensures q <= m.path ==> q <= Chain(m) || (q == m.path && !m.isDir)
    ensures q <= m.path ==> q == m.path || |q| < |m.path|
  {
  }

  lemma TreeHasMember(t: Tree, ms: seq<Member>, k: nat, j: nat)
    requires k <= |ms| && j < k && Extracted(t, ms[..k])
    ensures !ms[j].isDir ==> ms[j].path in t && t[ms[j].path] == File(ms[j].content)
    ensures forall p :: Makes(ms[j], p) ==> p in t && t[p] == Dir
  {
    assert ms[..k][j] == ms[j];
    if !ms[j].isDir { assert HasFile(ms[..k], ms[j].path, ms[j].content); }
    forall p | Makes(ms[j], p) ensures p in t && t[p] == Dir { assert HasDir(ms[..k], p); }
  }

  /** When nothing blocks member k, it conflicts with no earlier member. */
  lemma Unblocked(t: Tree, ms: seq<Member>, k: nat)
    requires Named(ms) && k < |ms| && Extracted(t, ms[..k])
    requires forall p :: p != [] && p <= Chain(ms[k]) && p in t ==> t[p] == Dir
    requires !ms[k].isDir ==> ms[k].path !in t
    ensures !Conflict(ms, k)
  {
    forall j | 0 <= j < k
      ensures !(!ms[j].isDir && ms[j].path <= ms[k].path) && !(!ms[k].isDir && ms[k].path <= ms[j].path)
    {
      TreeHasMember(t, ms, k, j);
      PrefixCases(ms[j].path, ms[k]);
      PrefixCases(ms[k].path, ms[j]);
    }
  }

  ghost predicate NoConflicts(ms: seq<Member>, n: nat) { forall k :: 0 <= k < n ==> !Conflict(ms, k) }

  lemma NoConflictsIsLeaves(ms: seq<Member>)
    requires NoConflicts(ms, |ms|)
    ensures FilesAreLeaves(ms)
  {
    forall i, j | 0 <= i < |ms| && 0 <= j < |ms| && i != j && !ms[i].isDir ensures !(ms[i].path <= ms[j].path) {
      if i < j {
        assert !Conflict(ms, j);
      } else {
        assert !Conflict(ms, i);
      }
    }
  }

  /** One member of the extraction loop. */
  method Place(t: Tree, ms: seq<Member>, k: nat, limits: Limits) returns (r: Result<Tree>)
    requires Named(ms) && k < |ms| && Extracted(t, ms[..k]) && (!ms[k].isDir ==> ms[k].fileSize <= limits.maxFile)
    ensures r.Ok? <==> !Conflict(ms, k) && (!ms[k].isDir ==> |ms[k].content| == ms[k].fileSize)
    ensures r.Ok? ==> Extracted(r.value, ms[..k + 1])
  {
    var m := ms[k];
    var parent := MkdirChain(t, Chain(m));
    if parent.Err? {
      var i :| 0 < i <= |Chain(m)| && Chain(m)[..i] in t && t[Chain(m)[..i]] != Dir;
      BlockedChain(t, ms, k, Chain(m)[..i]);
      return parent;
    }
    forall p | p != [] && p <= Chain(m) && p in t ensures t[p] == Dir {
      assert Chain(m)[..|p|] == p;
    }
    if m.isDir {
      Unblocked(t, ms, k);
      PlacedDir(t, ms, k, parent.value);
      return parent;
    }
    if m.path in parent.value {
      BlockedFile(t, ms, k);
      return Err("refusing to overwrite staging path");
    }
    Unblocked(t, ms, k);
    var content := CopyMember(m.content, m.fileSize, limits.maxFile);
    if content.Err? { return Err(content.error); }
    r := Ok(parent.value[m.path := File(content.value)]);
    PlacedFile(t, ms, k, parent.value);
  }

  ghost predicate Parented(t: Tree, c: seq<string>, u: Tree) {
    && (forall p :: p in u <==> p in t || (p != [] && p <= c))
    && (forall p :: p in u ==> u[p] == if p in t then t[p] else Dir)
    && (forall p :: p != [] && p <= c && p in t ==> t[p] == Dir)
  }

  lemma PlacedDir(t: Tree, ms: seq<Member>, k: nat, u: Tree)
    requires Named(ms) && k < |ms| && Extracted(t, ms[..k]) && ms[k].isDir && Parented(t, Chain(ms[k]), u)
    ensures Extracted(u, ms[..k + 1])
  {
    var more := ms[..k + 1];
    forall p, c ensures p in u && u[p] == File(c) <==> HasFile(more, p, c) { OneMoreFile(ms, k, p, c); }
    forall p ensures p in u && u[p] == Dir <==> HasDir(more, p) { OneMoreDir(ms, k, p); }
    assert Extracted(u, more);
  }

  lemma PlacedFile(t: Tree, ms: seq<Member>, k: nat, u: Tree)
    requires Named(ms) && k < |ms| && Extracted(t, ms[..k]) && !ms[k].isDir && Parented(t, Chain(ms[k]), u)
    requires ms[k].path !in u
    ensures Extracted(u[ms[k].path := File(ms[k].content)], ms[..k + 1])
  {
    var v := u[ms[k].path := File(ms[k].content)];
    var more := ms[..k + 1];
    forall p, c ensures p in v && v[p] == File(c) <==> HasFile(more, p, c) { OneMoreFile(ms, k, p, c); }
    forall p ensures p in v && v[p] == Dir <==> HasDir(more, p) { OneMoreDir(ms, k, p); }
    assert Extracted(v, more);
  }

  /** The extraction loop: succeeds exactly when no file lies at or above another member and every
      member has its declared size. */
  method ExtractMembers(ms: seq<Member>, limits: Limits) returns (r: Result<Tree>)
    requires Named(ms) && forall k :: 0 <= k < |ms| && !ms[k].isDir ==> ms[k].fileSize <= limits.maxFile
    ensures r.Ok? <==> FilesAreLeaves(ms) && SizesMatch(ms)
    ensures r.Ok? ==> Extracted(r.value, ms)
  {
    var t: Tree := map[];
    for k := 0 to |ms|
      invariant Extracted(t, ms[..k]) && NoConflicts(ms, k)
      invariant forall j :: 0 <= j < k && !ms[j].isDir ==> |ms[j].content| == ms[j].fileSize
    {
      var next := Place(t, ms, k, limits);
      if next.Err? {
        if Conflict(ms, k) { ConflictIsNoLeaf(ms, k); }
        return next;
      }
      t := next.value;
    }
    assert ms[..|ms|] == ms;
    NoConflictsIsLeaves(ms);
    r := Ok(t);
  }

  /** safe_extract_atlaspack: everything is preflighted, then the tree holds exactly the members. */
  method SafeExtract(e: Names, limits: Limits, archiveSize: nat, entries: seq<Entry>) returns (r: Result<Tree>)
    ensures r.Ok? <==>
      && archiveSize <= limits.maxArchive && PreflightOk(ChecksOf(e, limits), limits, entries)
      && FilesAreLeaves(MembersOf(entries)) && SizesMatch(MembersOf(entries))
    ensures r.Ok? ==> Extracted(r.value, MembersOf(entries))
  {
    if archiveSize > limits.maxArchive { return Err("atlaspack exceeds configured compressed-size bound"); }
    var ok := Preflight(ChecksOf(e, limits), limits, entries);
    if !ok { return Err("preflight refused"); }
    assert forall k :: 0 <= k < |entries| ==> ChecksOf(e, limits).ok(entries[k]);
    r := ExtractMembers(MembersOf(entries), limits);
  }
}

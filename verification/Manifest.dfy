/** The evidence manifest of a bundle: building, validating and verifying it
    against a static file tree. */
module Manifest {
  import opened ByteOrder
  import opened Outcomes
  import opened Text

  /** "manifest.v1.json", "receipt.v1.json" and "verification-result.v1.json" at the root. */
  const MANIFEST_PATH: Bytes := [109, 97, 110, 105, 102, 101, 115, 116, 46, 118, 49, 46, 106, 115, 111, 110]
  const RECEIPT_PATH: Bytes := [114, 101, 99, 101, 105, 112, 116, 46, 118, 49, 46, 106, 115, 111, 110]
  const RESULT_PATH: Bytes := [118, 101, 114, 105, 102, 105, 99, 97, 116, 105, 111, 110, 45, 114, 101, 115, 117, 108, 116, 46, 118, 49, 46, 106, 115, 111, 110]
  const EXCLUDED: seq<Bytes> := [MANIFEST_PATH, RECEIPT_PATH, RESULT_PATH]

  /** A regular file with one link on the bundle's own device, or any node that
      the walk refuses. */
  datatype Node = Regular(content: Bytes) | Forbidden

  type Tree = map<Bytes, Node>

  datatype Entry = Entry(path: Bytes, length: int, digest: string)

  datatype Document = Document(schema: string, algorithm: string, root: string, excluded: seq<Bytes>, entries: seq<Entry>)

  const SCHEMA: string := "ag.clean-host-evidence-manifest/v1"

  /** `_validate_relative_path` */
  predicate RelativePath(path: Bytes) {
    && BACKSLASH !in path && NUL !in path
    && forall part :: part in Split(path) ==> part != [] && part != [DOT] && part != [DOT, DOT]
  }

  /** The path is these components, none of them empty, "." or "..", with one slash between each two. */
  ghost predicate Normalized(path: Bytes, parts: seq<Bytes>) {
    && parts != [] && path == Join(parts)
    && forall part :: part in parts ==>
         part != [] && part != Ascii(".") && part != Ascii("..") && SLASH !in part && BACKSLASH !in part && NUL !in part
  }

  lemma DotTexts()
    ensures Ascii(".") == [DOT] && Ascii("..") == [DOT, DOT]
  {
  }

  /** A path is accepted exactly when it is already normalized below the root. */
  lemma RelativePathExact(path: Bytes)
    ensures RelativePath(path) <==> exists parts :: Normalized(path, parts)
  {
    DotTexts();
    JoinSplit(path);
    SplitHolds(path, BACKSLASH);
    SplitHolds(path, NUL);
    if RelativePath(path) {
      assert Normalized(path, Split(path));
    }
    if parts :| Normalized(path, parts) {
      SplitJoin(parts);
    }
  }

  predicate IsHex(c: char) {
    '0' <= c <= '9' || 'a' <= c <= 'f'
  }

  predicate DigestOk(digest: string) {
    |digest| == 71 && digest[..7] == "sha256:" && forall c :: c in digest[7..] ==> IsHex(c)
  }

  /** A digest is accepted exactly as "sha256:" and 64 lower-case hexadecimal digits. */
  lemma DigestExact(digest: string)
    ensures DigestOk(digest) <==>
              && |digest| == 71 && "sha256:" <= digest
              && forall i :: 7 <= i < 71 ==> digest[i] in "0123456789abcdef"
  {
    if |digest| == 71 {
      assert "sha256:" <= digest <==> digest[..7] == "sha256:";
      forall i | 7 <= i < 71
        ensures IsHex(digest[i]) <==> digest[i] in "0123456789abcdef"
      {
        HexDigits(digest[i]);
      }
      assert forall i :: 7 <= i < 71 ==> digest[7..][i - 7] == digest[i];
    }
  }

  lemma HexDigits(c: char)
    ensures IsHex(c) <==> c in "0123456789abcdef"
  {
    var digits := "0123456789abcdef";
    if '0' <= c <= '9' {
      assert digits[c as int - 48] == c;
    } else if 'a' <= c <= 'f' {
      assert digits[c as int - 97 + 10] == c;
    }
  }

  lemma ExcludedTexts()
    ensures EXCLUDED == [Ascii("manifest.v1.json"), Ascii("receipt.v1.json"), Ascii("verification-result.v1.json")]
  {
    ManifestText();
    ReceiptText();
    ResultText();
  }

  lemma ManifestText()
    ensures MANIFEST_PATH == Ascii("manifest.v1.json")
  {
  }

  lemma ReceiptText()
    ensures RECEIPT_PATH == Ascii("receipt.v1.json")
  {
  }

  lemma ResultText()
    ensures RESULT_PATH == Ascii("verification-result.v1.json")
  {
  }

  predicate EntryOk(entry: Entry) {
    RelativePath(entry.path) && DigestOk(entry.digest) && entry.length >= 0
  }

  // ---------- Building ----------

  /** What the walk accepts. */
  predicate SafeTree(tree: Tree) {
    forall path :: path in tree ==> RelativePath(path) && tree[path].Regular?
  }

  function Included(tree: Tree): set<Bytes> {
    set path | path in tree && path !in EXCLUDED
  }

  function EntryFor(hash: Bytes -> string, tree: Tree, path: Bytes): Entry {
    if path in tree && tree[path].Regular? then Entry(path, |tree[path].content|, hash(tree[path].content))
    else Entry(path, 0, "")
  }

  function EntriesFor(hash: Bytes -> string, tree: Tree, paths: seq<Bytes>): (r: seq<Entry>)
    ensures |r| == |paths| && forall i :: 0 <= i < |r| ==> r[i] == EntryFor(hash, tree, paths[i])
  {
    seq(|paths|, i requires 0 <= i < |paths| => EntryFor(hash, tree, paths[i]))
  }

  /** The one manifest of a tree: every file that is not excluded, once, in bytewise order. */
  function Built(hash: Bytes -> string, tree: Tree): Document {
    Document(SCHEMA, "sha256", ".", EXCLUDED, EntriesFor(hash, tree, Listing(Included(tree))))
  }

  lemma AppendAscending(names: seq<Bytes>, files: seq<Bytes>, i: nat)
    requires Ascending(names) && Ascending(files) && i < |files|
    requires forall x :: x in names ==> x in files[..i]
    ensures Ascending(names + [files[i]])
  {
    forall j | 0 <= j < |names|
      ensures Less(names[j], files[i])
    {
      assert names[j] in files[..i];
    }
  }

  /** The names are those of the first `i` files that are not excluded, in order. */
  ghost predicate Kept(names: seq<Bytes>, files: seq<Bytes>, i: nat, excluded: seq<Bytes>)
    requires i <= |files|
  {
    Ascending(names) && forall x :: x in names <==> x in files[..i] && x !in excluded
  }

  lemma KeptNext(names: seq<Bytes>, files: seq<Bytes>, i: nat, excluded: seq<Bytes>)
    requires i < |files| && Ascending(files) && Kept(names, files, i, excluded)
    ensures Kept(if files[i] in excluded then names else names + [files[i]], files, i + 1, excluded)
  {
    assert files[..i + 1] == files[..i] + [files[i]];
    AppendAscending(names, files, i);
  }

  lemma KeptAll(names: seq<Bytes>, tree: Tree)
    requires Kept(names, Listing(tree.Keys), |Listing(tree.Keys)|, EXCLUDED)
    ensures names == Listing(Included(tree))
  {
    var files := Listing(tree.Keys);
    assert files[..|files|] == files;
    AscendingUnique(names, Listing(Included(tree)));
  }

  lemma EntriesAppend(hash: Bytes -> string, tree: Tree, names: seq<Bytes>, path: Bytes)
    ensures EntriesFor(hash, tree, names + [path]) == EntriesFor(hash, tree, names) + [EntryFor(hash, tree, path)]
  {
  }

  /** `build_manifest`: walks every file in bytewise order and skips the excluded ones. */
  method BuildManifest(hash: Bytes -> string, tree: Tree) returns (r: Option<Document>)
    ensures r == if SafeTree(tree) then Some(Built(hash, tree)) else None
  {
    if !SafeTree(tree) {
      return None;
    }
    var files := Listing(tree.Keys);
    var entries: seq<Entry> := [];
    ghost var names: seq<Bytes> := [];
    for i := 0 to |files|
      invariant entries == EntriesFor(hash, tree, names) && Kept(names, files, i, EXCLUDED)
    {
      assert files[i] in files;
      KeptNext(names, files, i, EXCLUDED);
      if files[i] !in EXCLUDED {
        EntriesAppend(hash, tree, names, files[i]);
        entries := entries + [Entry(files[i], |tree[files[i]].content|, hash(tree[files[i]].content))];
        names := names + [files[i]];
      }
    }
    KeptAll(names, tree);
    r := Some(Document(SCHEMA, "sha256", ".", EXCLUDED, entries));
  }

  // ---------- Validating ----------

  function Paths(entries: seq<Entry>): (r: seq<Bytes>)
    ensures |r| == |entries| && forall i :: 0 <= i < |r| ==> r[i] == entries[i].path
  {
    seq(|entries|, i requires 0 <= i < |entries| => entries[i].path)
  }

  predicate HeaderOk(m: Document) {
    m.schema == SCHEMA && m.algorithm == "sha256" && m.root == "." && m.excluded == EXCLUDED
  }

  /** Well formed, nothing excluded, every path once and in bytewise order. */
  ghost predicate Validated(m: Document) {
    && HeaderOk(m)
    && (forall i :: 0 <= i < |m.entries| ==> EntryOk(m.entries[i]) && m.entries[i].path !in EXCLUDED)
    && Ascending(Paths(m.entries))
  }

  /** A manifest is valid exactly with this header and with entries for normalized
      paths, each later one after all before it, none of an excluded file. */
  lemma ValidatedExact(m: Document)
    ensures Validated(m) <==>
              && m.schema == "ag.clean-host-evidence-manifest/v1" && m.algorithm == "sha256" && m.root == "."
              && m.excluded == [Ascii("manifest.v1.json"), Ascii("receipt.v1.json"), Ascii("verification-result.v1.json")]
              && (forall e :: e in m.entries ==>
                    (exists parts :: Normalized(e.path, parts)) && HasDigest(e) && e.length >= 0 && e.path !in m.excluded)
              && (forall i, j :: 0 <= i < j < |m.entries| ==> Less(m.entries[i].path, m.entries[j].path))
  {
    ExcludedTexts();
    forall e | e in m.entries
      ensures EntryOk(e) <==> (exists parts :: Normalized(e.path, parts)) && HasDigest(e) && e.length >= 0
    {
      RelativePathExact(e.path);
      DigestExact(e.digest);
    }
  }

  /** "sha256:" and 64 lower-case hexadecimal digits. */
  ghost predicate HasDigest(e: Entry) {
    |e.digest| == 71 && "sha256:" <= e.digest && forall i :: 7 <= i < 71 ==> e.digest[i] in "0123456789abcdef"
  }

  /** Without repetition, sorted means ascending. */
  lemma SortedIffAscending(ordered: seq<Bytes>, seen: set<Bytes>)
    requires forall x :: x in seen <==> x in ordered
    ensures ordered == Listing(seen) <==> Ascending(ordered)
  {
    if Ascending(ordered) {
      AscendingUnique(ordered, Listing(seen));
    }
  }

  lemma AscendingDistinct(ordered: seq<Bytes>, i: nat)
    requires Ascending(ordered) && i < |ordered|
    ensures ordered[i] !in ordered[..i]
  {
    LessIrreflexive(ordered[i]);
  }

  /** `validate_manifest` */
  method ValidateManifest(m: Document) returns (ok: bool)
    ensures ok <==> Validated(m)
  {
    if !HeaderOk(m) {
      return false;
    }
    var seen: set<Bytes> := {};
    var ordered: seq<Bytes> := [];
    for i := 0 to |m.entries|
      invariant ordered == Paths(m.entries)[..i]
      invariant forall x :: x in seen <==> x in ordered
      invariant forall j :: 0 <= j < i ==> EntryOk(m.entries[j]) && m.entries[j].path !in EXCLUDED
    {
      var path := m.entries[i].path;
      assert path == Paths(m.entries)[i];
      if !EntryOk(m.entries[i]) || path in EXCLUDED {
        return false;
      }
      if path in seen {
        if Ascending(Paths(m.entries)) {
          AscendingDistinct(Paths(m.entries), i);
        }
        return false;
      }
      seen := seen + {path};
      ordered := ordered + [path];
    }
    assert ordered == Paths(m.entries);
    SortedIffAscending(ordered, seen);
    ok := ordered == Listing(seen);
  }

  // ---------- Coverage ----------

  predicate Matches(hash: Bytes -> string, tree: Tree, entry: Entry) {
    && entry.path in tree && tree[entry.path].Regular?
    && hash(tree[entry.path].content) == entry.digest && |tree[entry.path].content| == entry.length
  }

  /** The tree holds exactly the files declared, with the contents declared. */
  ghost predicate Covers(hash: Bytes -> string, tree: Tree, m: Document) {
    && SafeTree(tree)
    && (forall x :: x in Paths(m.entries) <==> x in Included(tree))
    && forall i :: 0 <= i < |m.entries| ==> Matches(hash, tree, m.entries[i])
  }

  /** One pass of `verify_manifest_coverage`. */
  method CoveragePass(hash: Bytes -> string, tree: Tree, m: Document) returns (ok: bool)
    ensures ok <==> Covers(hash, tree, m)
  {
    if !SafeTree(tree) {
      return false;
    }
    var actual := Included(tree);
    var declared := set x | x in Paths(m.entries);
    if declared - actual != {} || actual - declared != {} {
      ghost var x :| x in declared - actual || x in actual - declared;
      assert x in Paths(m.entries) <==> x !in Included(tree);
      return false;
    }
    assert declared == actual by {
      assert declared <= actual && actual <= declared;
    }
    for i := 0 to |m.entries|
      invariant forall j :: 0 <= j < i ==> Matches(hash, tree, m.entries[j])
    {
      assert m.entries[i].path == Paths(m.entries)[i] && Paths(m.entries)[i] in declared;
      var content := tree[m.entries[i].path].content;
      if hash(content) != m.entries[i].digest || |content| != m.entries[i].length {
        return false;
      }
    }
    ok := true;
  }

  /** `verify_manifest_coverage`: two passes over what may have become two trees. */
  method VerifyManifestCoverage(hash: Bytes -> string, first: Tree, second: Tree, m: Document) returns (ok: bool)
    ensures ok <==> Validated(m) && Covers(hash, first, m) && Covers(hash, second, m)
  {
    ok := ValidateManifest(m);
    if ok {
      ok := CoveragePass(hash, first, m);
    }
    if ok {
      ok := CoveragePass(hash, second, m);
    }
  }

  // ---------- What it means ----------

  /** The manifest built for a tree is valid. */
  lemma BuiltValidates(hash: Bytes -> string, tree: Tree)
    requires SafeTree(tree) && forall path :: path in tree ==> DigestOk(hash(tree[path].content))
    ensures Validated(Built(hash, tree))
  {
    var paths := Listing(Included(tree));
    var entries := EntriesFor(hash, tree, paths);
    forall i | 0 <= i < |entries|
      ensures EntryOk(entries[i]) && entries[i].path !in EXCLUDED
      ensures entries[i].path == paths[i]
    {
      assert paths[i] in paths;
    }
    assert Paths(entries) == paths;
  }

  /** Entries that match a tree are the ones built for their paths, and the other way round. */
  lemma MatchingEntries(hash: Bytes -> string, tree: Tree, entries: seq<Entry>)
    ensures (forall i :: 0 <= i < |entries| ==> Matches(hash, tree, entries[i])) ==>
              entries == EntriesFor(hash, tree, Paths(entries))
  {
    if forall i :: 0 <= i < |entries| ==> Matches(hash, tree, entries[i]) {
      forall i | 0 <= i < |entries|
        ensures entries[i] == EntriesFor(hash, tree, Paths(entries))[i]
      {
        assert Matches(hash, tree, entries[i]);
      }
    }
  }

  lemma BuiltMatches(hash: Bytes -> string, tree: Tree, paths: seq<Bytes>)
    requires SafeTree(tree) && forall x :: x in paths ==> x in tree
    ensures Paths(EntriesFor(hash, tree, paths)) == paths
    ensures forall i :: 0 <= i < |paths| ==> Matches(hash, tree, EntriesFor(hash, tree, paths)[i])
  {
    forall i | 0 <= i < |paths|
      ensures EntriesFor(hash, tree, paths)[i].path == paths[i] && Matches(hash, tree, EntriesFor(hash, tree, paths)[i])
    {
      assert paths[i] in paths;
    }
  }

  /** A valid manifest covers a tree exactly when it is the one built for it. */
  lemma CoversIffBuilt(hash: Bytes -> string, tree: Tree, m: Document)
    requires Validated(m)
    ensures Covers(hash, tree, m) <==> SafeTree(tree) && m == Built(hash, tree)
  {
    if Covers(hash, tree, m) {
      AscendingUnique(Paths(m.entries), Listing(Included(tree)));
      MatchingEntries(hash, tree, m.entries);
    } else if SafeTree(tree) && m == Built(hash, tree) {
      BuiltMatches(hash, tree, Listing(Included(tree)));
    }
  }

  /** The trees hold the same files, up to what the hash and length tell apart. */
  predicate Alike(hash: Bytes -> string, t: Tree, u: Tree)
    requires SafeTree(t) && SafeTree(u)
  {
    && Included(t) == Included(u)
    && forall path :: path in Included(t) ==>
         hash(t[path].content) == hash(u[path].content) && |t[path].content| == |u[path].content|
  }

  /** No two of the trees' contents at one path share a hash and a length. */
  predicate NoClash(hash: Bytes -> string, t: Tree, u: Tree)
    requires SafeTree(t) && SafeTree(u)
  {
    forall path :: path in t && path in u
                   && hash(t[path].content) == hash(u[path].content) && |t[path].content| == |u[path].content|
                   ==> t[path] == u[path]
  }

  predicate SameFiles(t: Tree, u: Tree) {
    Included(t) == Included(u) && forall path :: path in Included(t) ==> t[path] == u[path]
  }

  lemma EntriesAlike(hash: Bytes -> string, t: Tree, u: Tree, p: seq<Bytes>, q: seq<Bytes>, i: nat)
    requires i < |p| == |q| && EntriesFor(hash, t, p) == EntriesFor(hash, u, q)
    ensures EntryFor(hash, t, p[i]) == EntryFor(hash, u, q[i]) && p[i] == q[i]
  {
    assert EntriesFor(hash, t, p)[i] == EntriesFor(hash, u, q)[i];
  }

  lemma BuiltEqualAlike(hash: Bytes -> string, t: Tree, u: Tree)
    requires SafeTree(t) && SafeTree(u) && Built(hash, t) == Built(hash, u)
    ensures Alike(hash, t, u)
  {
    var p, q := Listing(Included(t)), Listing(Included(u));
    assert |EntriesFor(hash, t, p)| == |p| && |EntriesFor(hash, u, q)| == |q|;
    assert p == q by {
      forall i | 0 <= i < |p|
        ensures p[i] == q[i]
      {
        EntriesAlike(hash, t, u, p, q, i);
      }
    }
    assert forall x :: x in Included(t) <==> x in p;
    assert forall x :: x in Included(u) <==> x in q;
    forall path | path in Included(t)
      ensures hash(t[path].content) == hash(u[path].content) && |t[path].content| == |u[path].content|
    {
      assert path in p;
      var i :| 0 <= i < |p| && p[i] == path;
      EntriesAlike(hash, t, u, p, q, i);
    }
  }

  lemma AlikeBuiltEqual(hash: Bytes -> string, t: Tree, u: Tree)
    requires SafeTree(t) && SafeTree(u) && Alike(hash, t, u)
    ensures Built(hash, t) == Built(hash, u)
  {
    var p := Listing(Included(t));
    forall i | 0 <= i < |p|
      ensures EntriesFor(hash, t, p)[i] == EntriesFor(hash, u, p)[i]
    {
      assert p[i] in p;
    }
    assert EntriesFor(hash, t, p) == EntriesFor(hash, u, p);
  }

  /** A sealed bundle passes exactly as long as its files are what they were: any
      file added, removed or changed, other than the excluded ones, is refused
      unless the two contents clash under the hash. */
  lemma SealedPassesIffUnchanged(hash: Bytes -> string, sealed: Tree, now: Tree)
    requires SafeTree(sealed) && forall path :: path in sealed ==> DigestOk(hash(sealed[path].content))
    ensures Covers(hash, now, Built(hash, sealed)) <==> SafeTree(now) && Alike(hash, sealed, now)
    ensures SafeTree(now) && NoClash(hash, sealed, now) ==>
              (Covers(hash, now, Built(hash, sealed)) <==> SameFiles(sealed, now))
  {
    BuiltValidates(hash, sealed);
    CoversIffBuilt(hash, now, Built(hash, sealed));
    if SafeTree(now) && Alike(hash, sealed, now) {
      AlikeBuiltEqual(hash, sealed, now);
    }
    if SafeTree(now) && Built(hash, sealed) == Built(hash, now) {
      BuiltEqualAlike(hash, sealed, now);
    }
  }

  /** Writing an excluded file, the manifest itself included, changes nothing. */
  lemma ExcludedIrrelevant(hash: Bytes -> string, tree: Tree, path: Bytes, node: Node)
    requires path in EXCLUDED
    ensures Built(hash, tree[path := node]) == Built(hash, tree)
  {
    var written := tree[path := node];
    assert Included(written) == Included(tree);
    var paths := Listing(Included(tree));
    forall i | 0 <= i < |paths|
      ensures EntryFor(hash, written, paths[i]) == EntryFor(hash, tree, paths[i])
    {
      assert paths[i] in paths;
    }
    assert EntriesFor(hash, written, paths) == EntriesFor(hash, tree, paths);
  }

  /** `seal_bundle`: once, over a bundle with none of the excluded files, and the
      sealed bundle passes its own verification. */
  method SealBundle(hash: Bytes -> string, encode: Document -> Bytes, tree: Tree) returns (r: Option<Tree>)
    requires forall content :: DigestOk(hash(content))
    ensures r.Some? <==> SafeTree(tree) && forall path :: path in EXCLUDED ==> path !in tree
    ensures r.Some? ==>
              && r.value == tree[MANIFEST_PATH := Regular(encode(Built(hash, tree)))]
              && Covers(hash, r.value, Built(hash, tree))
  {
    assert EXCLUDED[0] == MANIFEST_PATH && EXCLUDED[1] == RECEIPT_PATH && EXCLUDED[2] == RESULT_PATH;
    if MANIFEST_PATH in tree || RECEIPT_PATH in tree || RESULT_PATH in tree {
      return None;
    }
    var built := BuildManifest(hash, tree);
    if built.None? {
      return None;
    }
    BuiltValidates(hash, tree);
    var sealed := tree[MANIFEST_PATH := Regular(encode(built.value))];
    ManifestPathOk();
    ExcludedIrrelevant(hash, tree, MANIFEST_PATH, Regular(encode(built.value)));
    CoversIffBuilt(hash, sealed, built.value);
    r := Some(sealed);
  }

  lemma ManifestPathOk()
    ensures RelativePath(MANIFEST_PATH)
  {
    ManifestPathPlain();
    PlainOk(MANIFEST_PATH);
  }

  lemma ManifestPathPlain()
    ensures |MANIFEST_PATH| > 2 && SLASH !in MANIFEST_PATH && BACKSLASH !in MANIFEST_PATH && NUL !in MANIFEST_PATH
  {
  }

  lemma PlainOk(name: Bytes)
    requires |name| > 2 && SLASH !in name && BACKSLASH !in name && NUL !in name
    ensures RelativePath(name)
  {
    SplitPlain(name);
  }

  lemma {:induction false} SplitPlain(text: Bytes)
    requires SLASH !in text
    ensures Split(text) == [text]
  {
    if text != [] {
      SplitPlain(text[1..]);
      assert text == [text[0]] + text[1..];
    }
  }
}

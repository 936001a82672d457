/** The Git identity of a rebuilt tree (`object_id`, `tree_id`): one canonical
    byte string per directory, hashed bottom up.

    The hash is a parameter returning `width` bytes. Nothing can make such a
    function injective on all byte strings, so "collision free" is said of the
    objects of the two archives being compared. */
module GitTreeId {
  import opened ByteOrder
  import opened Outcomes
  import opened Text
  import opened ArchiveTrie

  type Hash = Bytes -> Bytes

  const BLOB: Bytes := [98, 108, 111, 98]
  const TREE: Bytes := [116, 114, 101, 101]
  const TREE_MODE: Bytes := [52, 48, 48, 48, 48]

  function ModeText(mode: Mode): Bytes {
    match mode
    case Plain => [49, 48, 48, 54, 52, 52]
    case Executable => [49, 48, 48, 55, 53, 53]
    case Symlink => [49, 50, 48, 48, 48, 48]
  }

  function Decimal(n: nat): (r: Bytes)
    ensures NUL !in r && SPACE !in r
  {
    if n < 10 then [48 + n] else Decimal(n / 10) + [48 + n % 10]
  }

  /** The number a string of decimal digits reads as. */
  function Reading(digits: Bytes): int {
    if digits == [] then 0 else Reading(digits[..|digits| - 1]) * 10 + digits[|digits| - 1] - 48
  }

  /** A number in decimal digits reads back, and has no leading zero. */
  lemma {:induction false} DecimalReads(n: nat)
    ensures Reading(Decimal(n)) == n && Decimal(n) != [] && (forall c :: c in Decimal(n) ==> 48 <= c <= 57)
    ensures Decimal(n)[0] == 48 ==> n == 0
  {
    if n < 10 {
      assert Decimal(n)[..0] == [];
    } else {
      DecimalReads(n / 10);
      assert Decimal(n)[..|Decimal(n)| - 1] == Decimal(n / 10);
    }
  }

  /** The bytes hashed for one object: kind, payload length, NUL, payload. */
  function Object(kind: Bytes, payload: Bytes): Bytes {
    kind + [SPACE] + Decimal(|payload|) + [NUL] + payload
  }

  // ---------- The tree below a path ----------

  /** What every trie the member loop builds satisfies: named components, and
      every entry inside a directory. */
  ghost predicate WellFormed(t: Trie) {
    forall p :: p in t ==>
      && p != []
      && (forall n :: n in p ==> NameOk(n))
      && (|p| > 1 ==> p[..|p| - 1] in t && t[p[..|p| - 1]].Directory?)
  }

  predicate StrictlyBelow(q: Path, p: Path) {
    |p| < |q| && q[..|p|] == p
  }

  function Below(t: Trie, p: Path): set<Path> {
    set q | q in t && StrictlyBelow(q, p)
  }

  /** Directories sort as if their name ended in a slash. */
  function SortKey(name: Name, entry: Entry): Bytes {
    if entry.Directory? then name + [SLASH] else name
  }

  function NameOf(key: Bytes): Name {
    if key != [] && key[|key| - 1] == SLASH then key[..|key| - 1] else key
  }

  function Names(t: Trie, p: Path): set<Name> {
    set q | q in t && |q| == |p| + 1 && q[..|p|] == p :: q[|p|]
  }

  lemma NamesOf(t: Trie, p: Path, n: Name)
    ensures n in Names(t, p) <==> p + [n] in t
  {
    assert (p + [n])[..|p|] == p;
    if n in Names(t, p) {
      var q :| q in t && |q| == |p| + 1 && q[..|p|] == p && q[|p|] == n;
      assert q == p + [n];
    }
  }

  function Keys(t: Trie, p: Path): set<Bytes> {
    set n | n in Names(t, p) && p + [n] in t :: SortKey(n, t[p + [n]])
  }

  lemma BelowShrinks(t: Trie, p: Path, n: Name)
    requires p + [n] in t
    ensures |Below(t, p + [n])| < |Below(t, p)|
  {
    var child := p + [n];
    assert child in Below(t, p) - Below(t, child);
    forall q | q in Below(t, child)
      ensures q in Below(t, p)
    {
      assert q[..|p|] == q[..|child|][..|p|] == p;
    }
    assert Below(t, child) <= Below(t, p) - {child};
    SubsetSmaller(Below(t, child), Below(t, p) - {child});
  }

  lemma {:induction false} SubsetSmaller(a: set<Path>, b: set<Path>)
    requires a <= b
    ensures |a| <= |b|
  {
    assert b == a + (b - a);
  }

  function TreeObject(h: Hash, t: Trie, p: Path): Bytes
    decreases |Below(t, p)|, 3, 0
  {
    Object(TREE, Serialize(h, t, p, Listing(Keys(t, p))))
  }

  function TreeId(h: Hash, t: Trie, p: Path): Bytes
    decreases |Below(t, p)|, 4, 0
  {
    h(TreeObject(h, t, p))
  }

  function Serialize(h: Hash, t: Trie, p: Path, keys: seq<Bytes>): Bytes
    decreases |Below(t, p)|, 2, |keys|
  {
    if keys == [] then [] else EntryText(h, t, p, NameOf(keys[0])) + Serialize(h, t, p, keys[1..])
  }

  /** `mode SP name NUL id` */
  function Line(mode: Bytes, name: Name, id: Bytes): Bytes {
    mode + [SPACE] + name + [NUL] + id
  }

  /** The line of an entry; empty for a name that is not there. */
  function EntryText(h: Hash, t: Trie, p: Path, n: Name): Bytes
    decreases |Below(t, p)|, 1, 0
  {
    if p + [n] !in t then [] else
      Line(EntryMode(t[p + [n]]), n, EntryId(h, t, p, n))
  }

  function EntryMode(e: Entry): Bytes {
    if e.Directory? then TREE_MODE else ModeText(e.mode)
  }

  function EntryId(h: Hash, t: Trie, p: Path, n: Name): Bytes
    requires p + [n] in t
    decreases |Below(t, p)|, 0, 0
  {
    BelowShrinks(t, p, n);
    match t[p + [n]]
    case Directory => TreeId(h, t, p + [n])
    case Blob(_, content) => h(Object(BLOB, content))
  }

  // ---------- Unique parsing ----------

  lemma Delimited(a: Bytes, x: Bytes, b: Bytes, y: Bytes, c: byte)
    requires a + [c] + x == b + [c] + y
    requires c !in a && c !in b
    ensures a == b && x == y
  {
    var whole := a + [c] + x;
    assert whole[|a|] == c && (b + [c] + y)[|b|] == c;
    assert forall i :: 0 <= i < |a| ==> whole[i] == a[i];
    assert forall i :: 0 <= i < |b| ==> whole[i] == b[i];
    assert |a| == |b|;
    assert a == whole[..|a|] == b && x == whole[|a| + 1..] == y;
  }

  /** An object's bytes determine its kind and its payload. */
  lemma ObjectInjective(kind: Bytes, p: Bytes, other: Bytes, q: Bytes)
    requires NUL !in kind && SPACE !in kind && NUL !in other && SPACE !in other
    requires Object(kind, p) == Object(other, q)
    ensures kind == other && p == q
  {
    Delimited(kind + [SPACE] + Decimal(|p|), p, other + [SPACE] + Decimal(|q|), q, NUL);
    Delimited(kind, Decimal(|p|), other, Decimal(|q|), SPACE);
  }

  lemma LineParses(a: Bytes, m: Bytes, i: Bytes, x: Bytes, b: Bytes, n: Bytes, j: Bytes, y: Bytes)
    requires SPACE !in a && SPACE !in b && NUL !in m && NUL !in n && |i| == |j|
    requires Line(a, m, i) + x == Line(b, n, j) + y
    ensures a == b && m == n && i == j && x == y
  {
    assert Line(a, m, i) + x == a + [SPACE] + (m + [NUL] + (i + x));
    assert Line(b, n, j) + y == b + [SPACE] + (n + [NUL] + (j + y));
    Delimited(a, m + [NUL] + (i + x), b, n + [NUL] + (j + y), SPACE);
    Delimited(m, i + x, n, j + y, NUL);
    assert i == (i + x)[..|i|] == j;
    assert x == (i + x)[|i|..] == y;
  }

  lemma EntryIdWidth(h: Hash, width: nat, t: Trie, p: Path, n: Name)
    requires forall z :: |h(z)| == width
    requires p + [n] in t
    ensures |EntryId(h, t, p, n)| == width
  {
    match t[p + [n]]
    case Directory => assert |h(TreeObject(h, t, p + [n]))| == width;
    case Blob(_, content) => assert |h(Object(BLOB, content))| == width;
  }

  lemma ModeUnspaced(e: Entry)
    ensures SPACE !in EntryMode(e)
  {
  }

  lemma EntryTextParses(h: Hash, width: nat, t: Trie, m: Name, x: Bytes, u: Trie, n: Name, y: Bytes, p: Path)
    requires forall z :: |h(z)| == width
    requires p + [m] in t && p + [n] in u && NameOk(m) && NameOk(n)
    requires EntryText(h, t, p, m) + x == EntryText(h, u, p, n) + y
    ensures m == n && EntryMode(t[p + [m]]) == EntryMode(u[p + [n]])
    ensures EntryId(h, t, p, m) == EntryId(h, u, p, n) && x == y
  {
    EntryIdWidth(h, width, t, p, m);
    EntryIdWidth(h, width, u, p, n);
    ModeUnspaced(t[p + [m]]);
    ModeUnspaced(u[p + [n]]);
    LineParses(EntryMode(t[p + [m]]), m, EntryId(h, t, p, m), x, EntryMode(u[p + [n]]), n, EntryId(h, u, p, n), y);
  }

  /** Each key names an entry under `p` and is that entry's sort key. */
  ghost predicate KeysName(t: Trie, p: Path, keys: seq<Bytes>) {
    forall k :: k in keys ==>
      && NameOk(NameOf(k))
      && p + [NameOf(k)] in t
      && k == SortKey(NameOf(k), t[p + [NameOf(k)]])
  }

  lemma ListingNames(t: Trie, p: Path)
    requires WellFormed(t)
    ensures KeysName(t, p, Listing(Keys(t, p)))
  {
    forall k | k in Keys(t, p)
      ensures NameOk(NameOf(k)) && p + [NameOf(k)] in t && k == SortKey(NameOf(k), t[p + [NameOf(k)]])
    {
      var n :| n in Names(t, p) && p + [n] in t && k == SortKey(n, t[p + [n]]);
      assert (p + [n])[|p|] == n && n in p + [n];
      assert NameOf(k) == n;
    }
  }

  lemma ModesTell(e: Entry, f: Entry)
    requires EntryMode(e) == EntryMode(f)
    ensures e.Directory? <==> f.Directory?
    ensures e.Blob? ==> e.mode == f.mode
  {
    if e.Blob? && f.Blob? {
      assert ModeText(e.mode)[3] == ModeText(f.mode)[3];
      assert ModeText(e.mode)[1] == ModeText(f.mode)[1];
    }
  }

  ghost predicate SameEntry(h: Hash, t: Trie, u: Trie, p: Path, k: Bytes) {
    p + [NameOf(k)] in t && p + [NameOf(k)] in u ==>
      && EntryMode(t[p + [NameOf(k)]]) == EntryMode(u[p + [NameOf(k)]])
      && EntryId(h, t, p, NameOf(k)) == EntryId(h, u, p, NameOf(k))
  }

  lemma FirstParses(h: Hash, width: nat, t: Trie, u: Trie, p: Path, ks: seq<Bytes>, js: seq<Bytes>)
    requires forall z :: |h(z)| == width
    requires KeysName(t, p, ks) && KeysName(u, p, js) && ks != [] && js != []
    requires Serialize(h, t, p, ks) == Serialize(h, u, p, js)
    ensures ks[0] == js[0] && SameEntry(h, t, u, p, ks[0])
    ensures Serialize(h, t, p, ks[1..]) == Serialize(h, u, p, js[1..])
  {
    var m, n := NameOf(ks[0]), NameOf(js[0]);
    assert ks[0] in ks && js[0] in js;
    EntryTextParses(h, width, t, m, Serialize(h, t, p, ks[1..]), u, n, Serialize(h, u, p, js[1..]), p);
    ModesTell(t[p + [m]], u[p + [n]]);
  }

  /** Equal payloads list the same keys with the same modes and ids. */
  lemma {:induction false} SerializeParses(h: Hash, width: nat, t: Trie, u: Trie, p: Path, ks: seq<Bytes>, js: seq<Bytes>)
    requires forall z :: |h(z)| == width
    requires KeysName(t, p, ks) && KeysName(u, p, js)
    requires Serialize(h, t, p, ks) == Serialize(h, u, p, js)
    ensures ks == js
    ensures forall k :: k in ks ==> SameEntry(h, t, u, p, k)
  {
    if ks != [] && js != [] {
      FirstParses(h, width, t, u, p, ks, js);
      SerializeParses(h, width, t, u, p, ks[1..], js[1..]);
      assert ks == [ks[0]] + ks[1..] && js == [js[0]] + js[1..];
    } else {
      SerializeEmpty(h, t, p, ks);
      SerializeEmpty(h, u, p, js);
    }
  }

  lemma SerializeEmpty(h: Hash, t: Trie, p: Path, ks: seq<Bytes>)
    requires KeysName(t, p, ks)
    ensures ks == [] <==> Serialize(h, t, p, ks) == []
  {
  }

  // ---------- What is hashed ----------

  /** Git's mode of an entry. */
  ghost function GitMode(e: Entry): string {
    match e
    case Directory => "40000"
    case Blob(Plain, _) => "100644"
    case Blob(Executable, _) => "100755"
    case Blob(Symlink, _) => "120000"
  }

  lemma ModeTexts(e: Entry)
    ensures EntryMode(e) == Ascii(GitMode(e))
  {
  }

  lemma KindTexts()
    ensures BLOB == Ascii("blob") && TREE == Ascii("tree") && [SPACE] == Ascii(" ") && [SLASH] == Ascii("/")
  {
  }

  /** The line of a tree for one of its children. */
  ghost function GitLine(h: Hash, t: Trie, p: Path, n: Name): Bytes
    requires p + [n] in t
  {
    Ascii(GitMode(t[p + [n]])) + Ascii(" ") + n + [0] +
    if t[p + [n]].Directory? then TreeId(h, t, p + [n])
    else h(Ascii("blob") + Ascii(" ") + Decimal(|t[p + [n]].content|) + [0] + t[p + [n]].content)
  }

  ghost function GitLines(h: Hash, t: Trie, p: Path, names: seq<Name>): Bytes
    requires forall n :: n in names ==> p + [n] in t
  {
    if names == [] then [] else GitLine(h, t, p, names[0]) + GitLines(h, t, p, names[1..])
  }

  /** The children of a directory, each once, in the order of their names with a
      slash after those of directories. */
  ghost predicate GitOrder(t: Trie, p: Path, names: seq<Name>) {
    && (forall n :: n in names <==> p + [n] in t)
    && (forall i, j :: 0 <= i < j < |names| ==> GitBefore(t, p, names[i], names[j]))
  }

  ghost predicate GitBefore(t: Trie, p: Path, m: Name, n: Name) {
    && p + [m] in t && p + [n] in t
    && Less(if t[p + [m]].Directory? then m + Ascii("/") else m, if t[p + [n]].Directory? then n + Ascii("/") else n)
  }

  lemma EntryTextIs(h: Hash, t: Trie, p: Path, n: Name)
    requires p + [n] in t
    ensures EntryText(h, t, p, n) == GitLine(h, t, p, n)
  {
    ModeTexts(t[p + [n]]);
    KindTexts();
  }

  function NamesIn(keys: seq<Bytes>): (names: seq<Name>)
    ensures |names| == |keys| && forall i :: 0 <= i < |keys| ==> names[i] == NameOf(keys[i])
  {
    seq(|keys|, i requires 0 <= i < |keys| => NameOf(keys[i]))
  }

  lemma {:induction false} SerializeIs(h: Hash, t: Trie, p: Path, keys: seq<Bytes>)
    requires KeysName(t, p, keys)
    ensures forall n :: n in NamesIn(keys) ==> p + [n] in t
    ensures Serialize(h, t, p, keys) == GitLines(h, t, p, NamesIn(keys))
  {
    forall n | n in NamesIn(keys)
      ensures p + [n] in t
    {
      var i :| 0 <= i < |keys| && NamesIn(keys)[i] == n;
      assert keys[i] in keys;
    }
    if keys != [] {
      assert keys[0] in keys && NamesIn(keys)[1..] == NamesIn(keys[1..]);
      SerializeIs(h, t, p, keys[1..]);
      EntryTextIs(h, t, p, NameOf(keys[0]));
    }
  }

  lemma ListedNames(t: Trie, p: Path, n: Name)
    requires WellFormed(t)
    ensures n in NamesIn(Listing(Keys(t, p))) <==> p + [n] in t
  {
    var keys := Listing(Keys(t, p));
    ListingNames(t, p);
    if n in NamesIn(keys) {
      var i :| 0 <= i < |keys| && NamesIn(keys)[i] == n;
      assert keys[i] in keys;
    }
    if p + [n] in t {
      KeyOfChild(t, p, n);
      var i :| 0 <= i < |keys| && keys[i] == SortKey(n, t[p + [n]]);
      assert NamesIn(keys)[i] == n;
    }
  }

  lemma ListedBefore(t: Trie, p: Path, k: Bytes, l: Bytes)
    requires KeysName(t, p, [k, l]) && Less(k, l)
    ensures GitBefore(t, p, NameOf(k), NameOf(l))
  {
    KindTexts();
    assert k in [k, l] && l in [k, l];
  }

  lemma ListingOrdered(t: Trie, p: Path)
    requires WellFormed(t)
    ensures GitOrder(t, p, NamesIn(Listing(Keys(t, p))))
  {
    var keys := Listing(Keys(t, p));
    var names := NamesIn(keys);
    ListingNames(t, p);
    forall n
      ensures n in names <==> p + [n] in t
    {
      ListedNames(t, p, n);
    }
    forall i, j | 0 <= i < j < |names|
      ensures GitBefore(t, p, names[i], names[j])
    {
      assert keys[i] in keys && keys[j] in keys;
      ListedBefore(t, p, keys[i], keys[j]);
    }
  }

  /** The id of a tree is the hash of "tree", its length in decimal, a NUL, and a
      line for each child: its mode, its name, and the id of the child itself. */
  lemma TreeIdIs(h: Hash, t: Trie, p: Path) returns (names: seq<Name>)
    requires WellFormed(t)
    ensures GitOrder(t, p, names)
    ensures TreeId(h, t, p) == h(Ascii("tree") + Ascii(" ") + Decimal(|GitLines(h, t, p, names)|) + [0] + GitLines(h, t, p, names))
  {
    names := NamesIn(Listing(Keys(t, p)));
    ListingOrdered(t, p);
    ListingNames(t, p);
    SerializeIs(h, t, p, Listing(Keys(t, p)));
    KindTexts();
  }

  // ---------- Injectivity ----------

  ghost predicate DirectoryAt(t: Trie, p: Path) {
    p == [] || (p in t && t[p].Directory?)
  }

  /** `x` is one of the byte strings hashed while identifying `t`. */
  ghost predicate IsObject(h: Hash, t: Trie, x: Bytes) {
    || (exists p :: DirectoryAt(t, p) && x == TreeObject(h, t, p))
    || (exists p :: p in t && t[p].Blob? && x == Object(BLOB, t[p].content))
  }

  ghost predicate NoClash(h: Hash, t: Trie, u: Trie) {
    forall x, y :: IsObject(h, t, x) && IsObject(h, u, y) && h(x) == h(y) ==> x == y
  }

  lemma SamePayload(h: Hash, t: Trie, u: Trie, p: Path, ks: seq<Bytes>, js: seq<Bytes>)
    requires DirectoryAt(t, p) && DirectoryAt(u, p) && NoClash(h, t, u) && TreeId(h, t, p) == TreeId(h, u, p)
    requires ks == Listing(Keys(t, p)) && js == Listing(Keys(u, p))
    ensures Serialize(h, t, p, ks) == Serialize(h, u, p, js)
  {
    assert IsObject(h, t, TreeObject(h, t, p)) && IsObject(h, u, TreeObject(h, u, p));
    ObjectInjective(TREE, Serialize(h, t, p, ks), TREE, Serialize(h, u, p, js));
  }

  lemma SameKeys(h: Hash, width: nat, t: Trie, u: Trie, p: Path)
    requires WellFormed(t) && WellFormed(u) && DirectoryAt(t, p) && DirectoryAt(u, p)
    requires forall z :: |h(z)| == width
    requires NoClash(h, t, u)
    requires TreeId(h, t, p) == TreeId(h, u, p)
    ensures Keys(t, p) == Keys(u, p)
    ensures forall k :: k in Keys(t, p) ==> SameEntry(h, t, u, p, k)
  {
    var ks, js := Listing(Keys(t, p)), Listing(Keys(u, p));
    SamePayload(h, t, u, p, ks, js);
    ListingNames(t, p);
    ListingNames(u, p);
    SerializeParses(h, width, t, u, p, ks, js);
    assert forall k :: k in Keys(t, p) <==> k in ks;
    assert forall k :: k in Keys(u, p) <==> k in js;
  }

  lemma KeyOfChild(t: Trie, p: Path, n: Name)
    requires WellFormed(t) && p + [n] in t
    ensures SortKey(n, t[p + [n]]) in Keys(t, p) && NameOf(SortKey(n, t[p + [n]])) == n
  {
    NamesOf(t, p, n);
    assert n in p + [n];
  }

  /** A name present on one side is present on the other, with the same mode and id. */
  lemma SameChild(h: Hash, width: nat, t: Trie, u: Trie, p: Path, n: Name)
    requires WellFormed(t) && WellFormed(u) && DirectoryAt(t, p) && DirectoryAt(u, p)
    requires forall z :: |h(z)| == width
    requires NoClash(h, t, u)
    requires TreeId(h, t, p) == TreeId(h, u, p)
    requires p + [n] in t
    ensures p + [n] in u
    ensures EntryMode(t[p + [n]]) == EntryMode(u[p + [n]])
    ensures EntryId(h, t, p, n) == EntryId(h, u, p, n)
  {
    SameKeys(h, width, t, u, p);
    var k := SortKey(n, t[p + [n]]);
    KeyOfChild(t, p, n);
    assert SameEntry(h, t, u, p, k);
    ListingNames(u, p);
    assert k in Listing(Keys(u, p));
  }

  lemma ClashFlips(h: Hash, t: Trie, u: Trie)
    requires NoClash(h, t, u)
    ensures NoClash(h, u, t)
  {
  }

  lemma SameBlob(h: Hash, t: Trie, u: Trie, q: Path)
    requires NoClash(h, t, u) && q in t && q in u && t[q].Blob? && u[q].Blob?
    requires h(Object(BLOB, t[q].content)) == h(Object(BLOB, u[q].content))
    ensures t[q].content == u[q].content
  {
    assert IsObject(h, t, Object(BLOB, t[q].content)) && IsObject(h, u, Object(BLOB, u[q].content));
    ObjectInjective(BLOB, t[q].content, BLOB, u[q].content);
  }

  lemma {:induction false} InjectiveBelow(h: Hash, width: nat, t: Trie, u: Trie, p: Path, q: Path)
    requires WellFormed(t) && WellFormed(u) && DirectoryAt(t, p) && DirectoryAt(u, p)
    requires forall z :: |h(z)| == width
    requires NoClash(h, t, u)
    requires TreeId(h, t, p) == TreeId(h, u, p)
    requires q in t && StrictlyBelow(q, p)
    ensures q in u && t[q] == u[q]
    decreases |q| - |p|
  {
    var child := q[..|p| + 1];
    var n := q[|p|];
    assert child == p + [n];
    AncestorPresent(t, q, |p| + 1);
    SameChild(h, width, t, u, p, n);
    ModesTell(t[child], u[child]);
    if child != q {
      InjectiveBelow(h, width, t, u, child, q);
    } else if t[q].Blob? {
      SameBlob(h, t, u, q);
    }
  }

  lemma {:induction false} AncestorPresent(t: Trie, q: Path, k: nat)
    requires WellFormed(t) && q in t && 1 <= k <= |q|
    ensures q[..k] in t && (k < |q| ==> t[q[..k]].Directory?)
    decreases |q| - k
  {
    if k < |q| {
      AncestorPresent(t, q, k + 1);
      assert q[..k + 1][..k] == q[..k];
    } else {
      assert q[..k] == q;
    }
  }

  /** Two trees have the same id exactly when they are the same tree. */
  lemma TreeIdInjective(h: Hash, width: nat, t: Trie, u: Trie)
    requires WellFormed(t) && WellFormed(u)
    requires forall z :: |h(z)| == width
    requires NoClash(h, t, u)
    ensures TreeId(h, t, []) == TreeId(h, u, []) <==> t == u
  {
    if TreeId(h, t, []) == TreeId(h, u, []) {
      forall q | q in t
        ensures q in u && t[q] == u[q]
      {
        InjectiveBelow(h, width, t, u, [], q);
      }
      ClashFlips(h, t, u);
      forall q | q in u
        ensures q in t
      {
        InjectiveBelow(h, width, u, t, [], q);
      }
    }
  }

  // ---------- Archives ----------

  lemma {:induction false} PrefixesClosed(p: Path, q: Path)
    requires q in Prefixes(p) && |q| > 1
    ensures q[..|q| - 1] in Prefixes(p)
  {
    PrefixesHold(p, |q| - 1);
    assert q[..|q| - 1] == p[..|q| - 1];
  }

  /** A directory made for a member has admissible names and a directory above it. */
  lemma DirectoryFormed(ms: seq<Member>, m: Member, q: Path)
    requires m in ms && q in DirsOf(m) && forall n :: n in PathOf(m) ==> NameOk(n)
    ensures q != [] && (forall n :: n in q ==> NameOk(n))
    ensures |q| > 1 ==> q[..|q| - 1] in DirSet(ms)
  {
    assert forall n :: n in q ==> n in PathOf(m);
    if |q| > 1 {
      PrefixesClosed(if IsFile(m) then PathOf(m)[..|PathOf(m)| - 1] else PathOf(m), q);
    }
  }

  lemma FileFormed(ms: seq<Member>, m: Member, q: Path)
    requires m in ms && IsFile(m) && PathOf(m) == q && |q| > 1
    ensures q[..|q| - 1] in DirSet(ms)
  {
    PrefixesHold(q[..|q| - 1], |q| - 1);
    assert q[..|q| - 1][..|q| - 1] == q[..|q| - 1];
    assert q[..|q| - 1] in DirsOf(m);
  }

  lemma MeaningWellFormed(ms: seq<Member>, limit: int)
    requires Accepts(ms, limit)
    ensures WellFormed(Meaning(ms))
  {
    forall q | q in Meaning(ms)
      ensures q != [] && (forall n :: n in q ==> NameOk(n))
      ensures |q| > 1 ==> q[..|q| - 1] in DirSet(ms)
    {
      if q in DirSet(ms) {
        var m :| m in ms && q in DirsOf(m);
        DirectoryFormed(ms, m, q);
      } else {
        var m :| m in ms && IsFile(m) && PathOf(m) == q;
        if |q| > 1 {
          FileFormed(ms, m, q);
        }
      }
    }
  }

  /** The id of an archive, None when it is refused or holds nothing. */
  ghost function ArchiveId(h: Hash, ms: seq<Member>, limit: int): Option<Bytes> {
    if Accepts(ms, limit) && Meaning(ms) != map[] then Some(TreeId(h, Meaning(ms), [])) else None
  }

  lemma ArchiveIdOrderIndependent(h: Hash, a: seq<Member>, b: seq<Member>, limit: int)
    requires multiset(a) == multiset(b)
    ensures ArchiveId(h, a, limit) == ArchiveId(h, b, limit)
  {
    OrderIndependent(a, b, limit);
  }

  /** Two accepted archives share an id exactly when they hold the same
      directories and the same files with the same mode and content. */
  lemma ArchiveIdInjective(h: Hash, width: nat, a: seq<Member>, b: seq<Member>, alimit: int, blimit: int)
    requires ArchiveId(h, a, alimit).Some? && ArchiveId(h, b, blimit).Some?
    requires forall z :: |h(z)| == width
    requires NoClash(h, Meaning(a), Meaning(b))
    ensures ArchiveId(h, a, alimit) == ArchiveId(h, b, blimit) <==> Meaning(a) == Meaning(b)
  {
    MeaningWellFormed(a, alimit);
    MeaningWellFormed(b, blimit);
    TreeIdInjective(h, width, Meaning(a), Meaning(b));
  }

  /** Rebuilds the tree of an archive of `length` bytes and identifies it. */
  method CandidateArchiveGitTree(h: Hash, length: nat, members: seq<Member>) returns (r: Option<Bytes>, ghost names: seq<Name>)
    ensures r == if 0 < length <= 512 * 1024 * 1024 then ArchiveId(h, members, length) else None
    ensures r.Some? ==>
              && GitOrder(Meaning(members), [], names)
              && var lines := GitLines(h, Meaning(members), [], names);
                 r.value == h(Ascii("tree") + Ascii(" ") + Decimal(|lines|) + [0] + lines)
  {
    names := [];
    if !(0 < length <= 512 * 1024 * 1024) {
      return None, names;
    }
    var root := BuildTrie(members, length);
    if root.None? || root.value == map[] {
      return None, names;
    }
    r := Some(TreeId(h, root.value, []));
    MeaningWellFormed(members, length);
    names := TreeIdIs(h, root.value, []);
  }
}

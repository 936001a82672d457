/** Rebuilding a directory tree from the members of a governed source archive
    (`candidate_archive_git_tree`, the member loop).

    The nested dictionaries of the source are one table from path to entry: the
    dictionary reached through the components of `p` is the entry at `p`. */
module ArchiveTrie {
  import opened ByteOrder
  import opened Outcomes
  import opened Text

  type Name = Bytes
  type Path = seq<Name>

  datatype Mode = Plain | Executable | Symlink

  datatype Entry = Directory | Blob(mode: Mode, content: Bytes)

  type Trie = map<Path, Entry>

  /** What the tar reader reports for one member. `data` is what reading one
      byte more than the declared size returned, if the member is readable. */
  datatype Body =
    | DirectoryBody
    | RegularBody(size: int, data: Option<Bytes>, executable: bool)
    | SymlinkBody(target: Bytes)
    | OtherBody

  datatype Member = Member(name: Bytes, body: Body)

  /** "agent-governor-ng-0.1.0", the top-level directory of every governed archive. */
  const PREFIX: Bytes := [97, 103, 101, 110, 116, 45, 103, 111, 118, 101, 114, 110, 111, 114, 45, 110, 103, 45, 48, 46, 49, 46, 48]

  // ---------- Where a member sits ----------

  /** The components between slashes, empty and "." components dropped. */
  function Components(text: Bytes, current: Bytes := []): (parts: Path)
    ensures SLASH !in current ==> forall p :: p in parts ==> p != [] && p != [DOT] && SLASH !in p
    decreases |text|
  {
    if text == [] || text[0] == SLASH then
      var head := if current == [] || current == [DOT] then [] else [current];
      if text == [] then head else head + Components(text[1..], [])
    else
      Components(text[1..], current + [text[0]])
  }

  predicate NameOk(n: Name) {
    n != [] && NUL !in n && SLASH !in n
  }

  /** The name without one trailing slash. */
  function Trimmed(name: Bytes): Bytes {
    if name != [] && name[|name| - 1] == SLASH then name[..|name| - 1] else name
  }

  /** The path below the governed prefix, or None when the name is refused. */
  function Place(name: Bytes): (r: Option<Path>)
    ensures r.Some? ==> forall n :: n in r.value ==> NameOk(n)
  {
    var text := Trimmed(name);
    var parts := Components(text);
    if (text != [] && text[0] == SLASH) || parts == [] || [DOT, DOT] in parts || parts[0] != PREFIX then None
    else if exists n :: n in parts[1..] && NUL in n then None
    else
      assert forall n :: n in parts[1..] ==> n in parts;
      Some(parts[1..])
  }

  lemma PrefixText()
    ensures PREFIX == Ascii("agent-governor-ng-0.1.0")
  {
  }

  /** Empty and "." components dropped. */
  function Kept(parts: Path): Path {
    if parts == [] then []
    else (if parts[0] == [] || parts[0] == [DOT] then [] else [parts[0]]) + Kept(parts[1..])
  }

  lemma {:induction false} KeptHolds(parts: Path, part: Name)
    ensures part in Kept(parts) <==> part in parts && part != [] && part != [DOT]
  {
    if parts != [] {
      KeptHolds(parts[1..], part);
      assert parts == [parts[0]] + parts[1..];
    }
  }

  lemma {:induction false} KeptTrailing(parts: Path)
    ensures Kept(parts + [[]]) == Kept(parts)
  {
    if parts == [] {
      assert (parts + [[]])[1..] == [];
    } else {
      KeptTrailing(parts[1..]);
      assert (parts + [[]])[1..] == parts[1..] + [[]];
    }
  }

  lemma {:induction false} KeptAll(parts: Path)
    requires forall part :: part in parts ==> part != [] && part != [DOT]
    ensures Kept(parts) == parts
  {
    if parts != [] {
      assert parts[0] in parts && parts == [parts[0]] + parts[1..];
      assert forall part :: part in parts[1..] ==> part in parts;
      KeptAll(parts[1..]);
    }
  }

  lemma Refit(parts: Path)
    requires parts != []
    ensures [[] + parts[0]] + parts[1..] == parts
  {
    assert [] + parts[0] == parts[0];
  }

  /** The one-pass scan finds exactly the components that are kept. */
  lemma {:induction false} ComponentsAre(text: Bytes, current: Bytes)
    ensures Components(text, current) == Kept([current + Split(text)[0]] + Split(text)[1..])
    decreases |text|
  {
    var parts := [current + Split(text)[0]] + Split(text)[1..];
    assert parts[1..] == Split(text)[1..];
    if text == [] {
      assert current + [] == current;
    } else if text[0] == SLASH {
      ComponentsAre(text[1..], []);
      var rest := Split(text[1..]);
      assert current + [] == current && parts[1..] == rest;
      Refit(rest);
    } else {
      ComponentsAre(text[1..], current + [text[0]]);
      var rest := Split(text[1..]);
      assert (current + [text[0]]) + rest[0] == current + ([text[0]] + rest[0]);
    }
  }

  lemma TrimmedParts(name: Bytes)
    ensures Components(Trimmed(name)) == Kept(Split(name))
  {
    var text := Trimmed(name);
    if text != name {
      assert name == text + [SLASH];
      SplitTrailing(text);
      KeptTrailing(Split(text));
    }
    ComponentsAre(text, []);
    Refit(Split(text));
  }

  /** A NUL in a name is in a component past the first, if it is not in the first. */
  lemma NulBelow(name: Bytes, first: Name, below: Path)
    requires Kept(Split(name)) == [first] + below && NUL !in first
    ensures NUL in name <==> exists n :: n in below && NUL in n
  {
    SplitHolds(name, NUL);
    if NUL in name {
      var part :| part in Split(name) && NUL in part;
      KeptHolds(Split(name), part);
      assert part in below;
    }
    if n :| n in below && NUL in n {
      assert n in [first] + below;
      KeptHolds(Split(name), n);
    }
  }

  /** A name is refused exactly when it is absolute, has a ".." component or a NUL,
      or does not begin with the governed prefix; otherwise the path is everything
      below that prefix. */
  lemma PlaceExact(name: Bytes)
    ensures var kept := Kept(Split(name));
            && (Place(name).None? <==>
                  || (name != [] && name[0] == SLASH) || [DOT, DOT] in Split(name) || NUL in name
                  || kept == [] || kept[0] != PREFIX)
            && (Place(name).Some? ==> kept == [PREFIX] + Place(name).value)
  {
    TrimmedParts(name);
    KeptHolds(Split(name), [DOT, DOT]);
    var kept, prefix := Kept(Split(name)), PREFIX;
    if kept != [] && kept[0] == prefix {
      PrefixPlain();
      assert kept == [prefix] + kept[1..];
      NulBelow(name, prefix, kept[1..]);
    }
  }

  lemma PrefixPlain()
    ensures NUL !in PREFIX && SLASH !in PREFIX && PREFIX != [] && PREFIX != [DOT] && PREFIX != [DOT, DOT]
  {
  }

  lemma JoinedParts(parts: Path, trailing: bool)
    requires parts != [] && forall n :: n in parts ==> NameOk(n) && n != [DOT] && n != [DOT, DOT]
    ensures var name := Join(parts) + if trailing then [SLASH] else [];
            && Kept(Split(name)) == parts && [DOT, DOT] !in Split(name) && NUL !in name && name != [] && name[0] != SLASH
  {
    var name := Join(parts) + if trailing then [SLASH] else [];
    SplitJoin(parts);
    SplitTrailing(Join(parts));
    KeptAll(parts);
    KeptTrailing(parts);
    assert !trailing ==> name == Join(parts);
    SplitHolds(name, NUL);
    assert parts[0] in parts && Join(parts)[0] == parts[0][0];
  }

  /** A name below the prefix, with or without a trailing slash, is placed at its components. */
  lemma PlaceJoined(path: Path, trailing: bool)
    requires forall n :: n in path ==> NameOk(n) && n != [DOT] && n != [DOT, DOT]
    ensures Place(Join([PREFIX] + path) + if trailing then [SLASH] else []) == Some(path)
  {
    PrefixPlain();
    JoinedParts([PREFIX] + path, trailing);
    PlaceExact(Join([PREFIX] + path) + if trailing then [SLASH] else []);
  }

  predicate BodyOk(body: Body) {
    match body
    case DirectoryBody => true
    case RegularBody(size, data, _) => size >= 0 && data.Some? && |data.value| == size
    case SymlinkBody(target) => NUL !in target
    case OtherBody => false
  }

  /** Checks on one member that look at nothing else. */
  predicate MemberOk(m: Member) {
    && Place(m.name).Some?
    && (if Place(m.name).value == [] then m.body.DirectoryBody? else BodyOk(m.body))
  }

  function PathOf(m: Member): Path
    requires MemberOk(m)
  {
    Place(m.name).value
  }

  predicate IsFile(m: Member) {
    MemberOk(m) && !m.body.DirectoryBody?
  }

  function EntryOf(body: Body): Entry
    requires BodyOk(body) && !body.DirectoryBody?
  {
    match body
    case RegularBody(_, data, executable) => Blob(if executable then Executable else Plain, data.value)
    case SymlinkBody(target) => Blob(Symlink, target)
  }

  /** The entry holds the member's bytes under the mode of its kind. */
  predicate EntryIs(body: Body, entry: Entry) {
    && entry.Blob?
    && (body.RegularBody? ==>
          body.data == Some(entry.content) && (entry.mode == Executable <==> body.executable) && entry.mode != Symlink)
    && (body.SymlinkBody? ==> entry.content == body.target && entry.mode == Symlink)
  }

  function Size(m: Member): int {
    if m.body.RegularBody? then m.body.size else 0
  }

  // ---------- What an archive means ----------

  /** The nonempty prefixes of a path, itself included. */
  function Prefixes(p: Path): (r: set<Path>)
    ensures forall q :: q in r ==> 1 <= |q| <= |p| && q == p[..|q|]
  {
    if p == [] then {} else Prefixes(p[..|p| - 1]) + {p}
  }

  /** The directories a member brings into being: every ancestor, and itself
      when it is a directory member. */
  function DirsOf(m: Member): set<Path> {
    if !MemberOk(m) then {}
    else if m.body.DirectoryBody? then Prefixes(PathOf(m))
    else Prefixes(PathOf(m)[..|PathOf(m)| - 1])
  }

  function DirSet(ms: seq<Member>): set<Path> {
    set m, q | m in ms && q in DirsOf(m) :: q
  }

  function FileSet(ms: seq<Member>): set<Path> {
    set m | m in ms && IsFile(m) :: PathOf(m)
  }

  function Total(ms: seq<Member>): int {
    if ms == [] then 0 else Total(ms[..|ms| - 1]) + Size(ms[|ms| - 1])
  }

  ghost predicate FilesDistinct(ms: seq<Member>) {
    && (forall m :: m in ms && IsFile(m) ==> multiset(ms)[m] == 1)
    && (forall m, n :: m in ms && n in ms && IsFile(m) && IsFile(n) && PathOf(m) == PathOf(n) ==> m == n)
  }

  /** The archives the rebuild accepts, said without an order of members. */
  ghost predicate Accepts(ms: seq<Member>, limit: int) {
    && (forall m :: m in ms ==> MemberOk(m))
    && FilesDistinct(ms)
    && FileSet(ms) !! DirSet(ms)
    && Total(ms) <= limit
  }

  ghost function FileAt(ms: seq<Member>, q: Path): Entry
    requires q in FileSet(ms)
  {
    var m :| m in ms && IsFile(m) && PathOf(m) == q;
    EntryOf(m.body)
  }

  ghost function Meaning(ms: seq<Member>): Trie {
    map q | q in DirSet(ms) + FileSet(ms) :: if q in DirSet(ms) then Directory else FileAt(ms, q)
  }

  // ---------- One member ----------

  ghost function Directories(qs: set<Path>): Trie {
    map q | q in qs :: Directory
  }

  ghost predicate Walkable(t: Trie, p: Path) {
    forall q :: q in Prefixes(p) && q in t ==> t[q].Directory?
  }

  /** Checks on one member against what is already there. */
  ghost predicate Fits(t: Trie, m: Member)
    requires MemberOk(m)
  {
    if m.body.DirectoryBody? then Walkable(t, PathOf(m))
    else Walkable(t, PathOf(m)[..|PathOf(m)| - 1]) && PathOf(m) !in t
  }

  ghost function Grow(t: Trie, m: Member): Trie
    requires MemberOk(m)
  {
    var dirs := t + Directories(DirsOf(m));
    if IsFile(m) then dirs[PathOf(m) := EntryOf(m.body)] else dirs
  }

  lemma DirectoriesStep(t: Trie, qs: set<Path>, here: Path)
    ensures (t + Directories(qs))[here := Directory] == t + Directories(qs + {here})
    ensures here in t && t[here].Directory? ==> t + Directories(qs) == t + Directories(qs + {here})
  {
  }

  lemma WalkableStep(t: Trie, p: Path, k: nat)
    requires k < |p|
    ensures Walkable(t, p[..k + 1]) <==> Walkable(t, p[..k]) && (p[..k + 1] in t ==> t[p[..k + 1]].Directory?)
  {
    PrefixesStep(p, k);
  }

  lemma WalkablePrefix(t: Trie, p: Path, k: nat)
    requires 1 <= k <= |p| && Walkable(t, p)
    ensures p[..k] in t ==> t[p[..k]].Directory?
  {
    PrefixesHold(p, k);
  }

  /** `directory_for`: walks the components, creating what is missing. */
  method DirectoryFor(t: Trie, parts: Path) returns (r: Option<Trie>)
    ensures r.Some? <==> Walkable(t, parts)
    ensures r.Some? ==> r.value == t + Directories(Prefixes(parts))
  {
    var node, k := t, 0;
    assert t + Directories({}) == t;
    while k < |parts|
      invariant 0 <= k <= |parts|
      invariant Walkable(t, parts[..k])
      invariant node == t + Directories(Prefixes(parts[..k]))
    {
      var here := parts[..k + 1];
      PrefixesStep(parts, k);
      WalkableStep(t, parts, k);
      DirectoriesStep(t, Prefixes(parts[..k]), here);
      if here !in node {
        node := node[here := Directory];
      } else if !node[here].Directory? {
        if Walkable(t, parts) {
          WalkablePrefix(t, parts, k + 1);
        }
        return None;
      }
      k := k + 1;
    }
    assert parts[..k] == parts;
    r := Some(node);
  }

  lemma PrefixesStep(p: Path, k: nat)
    requires k < |p|
    ensures Prefixes(p[..k + 1]) == Prefixes(p[..k]) + {p[..k + 1]}
    ensures p[..k + 1] !in Prefixes(p[..k])
  {
    assert p[..k + 1][..k] == p[..k];
  }

  lemma {:induction false} PrefixesHold(p: Path, k: nat)
    requires 1 <= k <= |p|
    ensures p[..k] in Prefixes(p)
  {
    if k < |p| {
      PrefixesHold(p[..|p| - 1], k);
      assert p[..|p| - 1][..k] == p[..k];
    } else {
      assert p[..k] == p;
    }
  }

  /** Reads the content of a member that is not a directory. */
  method ReadEntry(body: Body, total: int, limit: int) returns (r: Option<Entry>)
    requires !body.DirectoryBody?
    ensures r.Some? <==> BodyOk(body) && (body.RegularBody? ==> total + body.size <= limit)
    ensures r.Some? ==> r.value == EntryOf(body)
    ensures r.Some? <==>
              || (&& body.RegularBody? && 0 <= body.size <= limit - total
                  && body.data.Some? && |body.data.value| == body.size)
              || (body.SymlinkBody? && NUL !in body.target)
    ensures r.Some? ==> EntryIs(body, r.value)
  {
    match body
    case RegularBody(size, data, executable) =>
      if !(size >= 0 && total + size <= limit) {
        return None;
      }
      if data.None? || |data.value| != size {
        return None;
      }
      r := Some(Blob(if executable then Executable else Plain, data.value));
    case SymlinkBody(target) =>
      r := if NUL in target then None else Some(Blob(Symlink, target));
    case _ =>
      r := None;
  }

  /** The body of the member loop. */
  method AddMember(t: Trie, total: int, m: Member, limit: int) returns (r: Option<(Trie, int)>)
    ensures r.Some? <==> MemberOk(m) && Fits(t, m) && (m.body.RegularBody? ==> total + Size(m) <= limit)
    ensures r.Some? ==> r.value == (Grow(t, m), total + Size(m))
  {
    var place := Place(m.name);
    if place.None? {
      return None;
    }
    var p := place.value;
    if p == [] {
      if !m.body.DirectoryBody? {
        return None;
      }
      assert Grow(t, m) == t + Directories({}) == t;
      return Some((t, total));
    }
    var last := |p| - 1;
    assert p[..last + 1] == p;
    WalkableStep(t, p, last);
    PrefixesStep(p, last);
    var walked := DirectoryFor(t, p[..last]);
    if walked.None? {
      return None;
    }
    var parent := walked.value;
    if m.body.DirectoryBody? {
      DirectoriesStep(t, Prefixes(p[..last]), p);
      if p in parent && !parent[p].Directory? {
        return None;
      }
      return Some((if p in parent then parent else parent[p := Directory], total));
    }
    if p in parent {
      return None;
    }
    var entry := ReadEntry(m.body, total, limit);
    if entry.None? {
      return None;
    }
    r := Some((parent[p := entry.value], total + Size(m)));
  }

  // ---------- The member loop ----------

  lemma SetsStep(ms: seq<Member>, x: Member)
    ensures DirSet(ms + [x]) == DirSet(ms) + DirsOf(x)
    ensures FileSet(ms + [x]) == FileSet(ms) + (if IsFile(x) then {PathOf(x)} else {})
    ensures Total(ms + [x]) == Total(ms) + Size(x)
  {
    assert (ms + [x])[..|ms|] == ms;
    assert x in ms + [x];
    forall q | q in DirSet(ms) + DirsOf(x)
      ensures q in DirSet(ms + [x])
    {
      if q in DirSet(ms) {
        var m :| m in ms && q in DirsOf(m);
        assert m in ms + [x];
      }
    }
    forall q | q in FileSet(ms)
      ensures q in FileSet(ms + [x])
    {
      var m :| m in ms && IsFile(m) && PathOf(m) == q;
      assert m in ms + [x];
    }
  }

  /** Files of a walkable path are not among the directories it needs. */
  lemma WalkableMeans(ms: seq<Member>, p: Path)
    requires FileSet(ms) !! DirSet(ms)
    ensures Walkable(Meaning(ms), p) <==> FileSet(ms) !! Prefixes(p)
  {
  }

  lemma FilesDistinctStep(ms: seq<Member>, x: Member)
    requires FilesDistinct(ms)
    ensures FilesDistinct(ms + [x]) <==> !IsFile(x) || PathOf(x) !in FileSet(ms)
  {
    var all := ms + [x];
    assert multiset(all) == multiset(ms) + multiset{x};
    assert x in all && forall m :: m in all <==> m in ms || m == x;
    if IsFile(x) && PathOf(x) in FileSet(ms) {
      var m :| m in ms && IsFile(m) && PathOf(m) == PathOf(x);
      assert m in all;
      assert m == x ==> multiset(all)[x] >= 2;
    }
  }

  /** The incremental collision checks are the global ones. */
  lemma SeparateStep(ms: seq<Member>, x: Member)
    requires MemberOk(x) && FileSet(ms) !! DirSet(ms)
    ensures Fits(Meaning(ms), x) <==>
              && FileSet(ms + [x]) !! DirSet(ms + [x])
              && (IsFile(x) ==> PathOf(x) !in FileSet(ms))
  {
    SetsStep(ms, x);
    var p := PathOf(x);
    if IsFile(x) {
      WalkableMeans(ms, p[..|p| - 1]);
      assert p !in DirsOf(x);
    } else {
      WalkableMeans(ms, p);
    }
  }

  lemma StepAccepts(ms: seq<Member>, x: Member, limit: int)
    requires Accepts(ms, limit)
    ensures Accepts(ms + [x], limit) <==> MemberOk(x) && Fits(Meaning(ms), x) && Total(ms) + Size(x) <= limit
  {
    assert x in ms + [x];
    if MemberOk(x) {
      SetsStep(ms, x);
      FilesDistinctStep(ms, x);
      SeparateStep(ms, x);
    }
  }

  /** Under distinct files, the entry at a file path is that of any member there. */
  lemma FileAtIs(ms: seq<Member>, m: Member)
    requires FilesDistinct(ms) && m in ms && IsFile(m)
    ensures PathOf(m) in FileSet(ms) && FileAt(ms, PathOf(m)) == EntryOf(m.body)
  {
  }

  lemma GrowAt(t: Trie, x: Member, q: Path)
    requires MemberOk(x)
    ensures q in Grow(t, x) <==> q in t || q in DirsOf(x) || (IsFile(x) && q == PathOf(x))
    ensures IsFile(x) && q == PathOf(x) ==> Grow(t, x)[q] == EntryOf(x.body)
    ensures q in DirsOf(x) && !(IsFile(x) && q == PathOf(x)) ==> Grow(t, x)[q] == Directory
    ensures q in t && q !in DirsOf(x) && !(IsFile(x) && q == PathOf(x)) ==> Grow(t, x)[q] == t[q]
  {
  }

  lemma StepMeaningFile(ms: seq<Member>, x: Member, q: Path)
    requires FilesDistinct(ms) && FilesDistinct(ms + [x])
    requires q in FileSet(ms)
    ensures q in FileSet(ms + [x]) && FileAt(ms + [x], q) == FileAt(ms, q)
  {
    var m :| m in ms && IsFile(m) && PathOf(m) == q;
    assert m in ms + [x];
    FileAtIs(ms, m);
    FileAtIs(ms + [x], m);
  }

  lemma StepMeaningAt(ms: seq<Member>, x: Member, q: Path)
    requires MemberOk(x) && FilesDistinct(ms) && FilesDistinct(ms + [x])
    requires FileSet(ms + [x]) !! DirSet(ms + [x])
    ensures q in Meaning(ms + [x]) <==> q in Grow(Meaning(ms), x)
    ensures q in Meaning(ms + [x]) ==> Meaning(ms + [x])[q] == Grow(Meaning(ms), x)[q]
  {
    SetsStep(ms, x);
    GrowAt(Meaning(ms), x, q);
    if q in FileSet(ms) {
      StepMeaningFile(ms, x, q);
    } else if IsFile(x) && q == PathOf(x) {
      FileAtIs(ms + [x], x);
    }
  }

  lemma StepMeaning(ms: seq<Member>, x: Member, limit: int)
    requires Accepts(ms, limit) && Accepts(ms + [x], limit)
    ensures Meaning(ms + [x]) == Grow(Meaning(ms), x)
  {
    assert x in ms + [x];
    var after, grown := Meaning(ms + [x]), Grow(Meaning(ms), x);
    forall q
      ensures (q in after <==> q in grown) && (q in after ==> after[q] == grown[q])
    {
      StepMeaningAt(ms, x, q);
    }
  }

  lemma {:induction false} AcceptsPrefix(ms: seq<Member>, k: nat, limit: int)
    requires k <= |ms| && Accepts(ms, limit)
    ensures Accepts(ms[..k], limit)
    decreases |ms| - k
  {
    if k < |ms| {
      AcceptsPrefix(ms, k + 1, limit);
      var front, x := ms[..k], ms[k];
      assert ms[..k + 1] == front + [x];
      SetsStep(front, x);
      assert multiset(front + [x]) == multiset(front) + multiset{x};
      assert x in front + [x];
      assert forall m :: m in front ==> m in front + [x];
      assert Size(x) >= 0;
    } else {
      assert ms[..k] == ms;
    }
  }

  /** The whole member loop accepts exactly the archives of `Accepts` and
      builds exactly their meaning. */
  method BuildTrie(ms: seq<Member>, limit: nat) returns (r: Option<Trie>)
    ensures r.Some? <==> Accepts(ms, limit)
    ensures r.Some? ==> r.value == Meaning(ms)
  {
    var root: Trie, payloadTotal, i := map[], 0, 0;
    assert ms[..0] == [];
    while i < |ms|
      invariant 0 <= i <= |ms|
      invariant Accepts(ms[..i], limit)
      invariant root == Meaning(ms[..i])
      invariant payloadTotal == Total(ms[..i])
    {
      var x := ms[i];
      assert ms[..i + 1] == ms[..i] + [x];
      StepAccepts(ms[..i], x, limit);
      SetsStep(ms[..i], x);
      var added := AddMember(root, payloadTotal, x, limit);
      if added.None? {
        if Accepts(ms, limit) {
          AcceptsPrefix(ms, i + 1, limit);
        }
        return None;
      }
      StepMeaning(ms[..i], x, limit);
      root, payloadTotal := added.value.0, added.value.1;
      i := i + 1;
    }
    assert ms[..i] == ms;
    r := Some(root);
  }

  /** What the rebuilt tree holds, member by member: every file with its own bytes
      and mode, every directory above or named by a member, and nothing else. */
  lemma MeaningIs(ms: seq<Member>, limit: int, q: Path)
    requires Accepts(ms, limit)
    ensures q in Meaning(ms) <==> q != [] && exists m :: m in ms && Place(m.name).Some? && q <= Place(m.name).value
    ensures forall m :: m in ms && Place(m.name).Some? && q != [] && q <= Place(m.name).value ==> MeansAt(ms, m, q)
  {
    if q in Meaning(ms) {
      MeaningFrom(ms, q);
    }
    forall m | m in ms && Place(m.name).Some? && q != [] && q <= Place(m.name).value
      ensures MeansAt(ms, m, q)
    {
      MemberMeans(ms, m, q);
    }
  }

  /** At its own place the tree holds what the member is, and above it directories. */
  ghost predicate MeansAt(ms: seq<Member>, m: Member, q: Path) {
    && q in Meaning(ms)
    && if Place(m.name) == Some(q) && !m.body.DirectoryBody? then EntryIs(m.body, Meaning(ms)[q]) else Meaning(ms)[q] == Directory
  }

  lemma MeaningFrom(ms: seq<Member>, q: Path)
    requires q in Meaning(ms)
    ensures q != [] && exists m :: m in ms && Place(m.name).Some? && q <= Place(m.name).value
  {
    if q in DirSet(ms) {
      var m :| m in ms && q in DirsOf(m);
      assert q <= Place(m.name).value;
    } else {
      var m :| m in ms && IsFile(m) && PathOf(m) == q;
      assert q <= Place(m.name).value;
    }
  }

  /** A member brings every directory on its way into being. */
  lemma DirsHold(m: Member, q: Path)
    requires MemberOk(m)
    ensures q != [] && (q < PathOf(m) || (q == PathOf(m) && m.body.DirectoryBody?)) ==> q in DirsOf(m)
  {
    var p := PathOf(m);
    if q != [] && (q < p || (q == p && m.body.DirectoryBody?)) {
      var whole := if m.body.DirectoryBody? then p else p[..|p| - 1];
      PrefixesHold(whole, |q|);
      assert whole[..|q|] == q;
    }
  }

  lemma MemberMeans(ms: seq<Member>, m: Member, q: Path)
    requires (forall x :: x in ms ==> MemberOk(x)) && FilesDistinct(ms) && FileSet(ms) !! DirSet(ms)
    requires m in ms && q != [] && q <= PathOf(m)
    ensures MeansAt(ms, m, q)
  {
    DirsHold(m, q);
    if q == PathOf(m) && IsFile(m) {
      FileAtIs(ms, m);
    }
  }

  /** Two members may share a place only as directories, and nothing is placed below a file. */
  ghost predicate Apart(m: Member, n: Member) {
    var p, q := Place(m.name), Place(n.name);
    p.Some? && q.Some? && p.value <= q.value ==> m.body.DirectoryBody? && (p == q ==> n.body.DirectoryBody?)
  }

  /** The member by itself: placed, only a directory at the prefix, and otherwise a
      directory, a readable file of its declared size, or a link without a NUL. */
  ghost predicate MemberSound(m: Member) {
    && Place(m.name).Some?
    && match m.body
       case DirectoryBody => true
       case RegularBody(size, data, _) => Place(m.name).value != [] && size >= 0 && data.Some? && |data.value| == size
       case SymlinkBody(target) => Place(m.name).value != [] && NUL !in target
       case OtherBody => false
  }

  lemma MemberExact(m: Member)
    ensures MemberOk(m) <==> MemberSound(m)
  {
  }

  lemma ApartAt(ms: seq<Member>, i: nat, j: nat)
    requires (forall m :: m in ms ==> MemberOk(m)) && FilesDistinct(ms) && FileSet(ms) !! DirSet(ms)
    requires i < |ms| && j < |ms| && i != j
    ensures Apart(ms[i], ms[j])
  {
    var m, n := ms[i], ms[j];
    DirsHold(n, PathOf(m));
    DirsHold(m, PathOf(n));
    assert IsFile(m) ==> PathOf(m) in FileSet(ms) && PathOf(m) !in DirSet(ms);
    assert IsFile(n) ==> PathOf(n) in FileSet(ms) && PathOf(n) !in DirSet(ms);
    assert m == n ==> multiset(ms)[m] >= 2 by {
      if m == n {
        TwiceIn(ms, i, j);
      }
    }
  }

  lemma TwiceIn(ms: seq<Member>, i: nat, j: nat)
    requires i < |ms| && j < |ms| && i != j && ms[i] == ms[j]
    ensures multiset(ms)[ms[i]] >= 2
  {
    var low, high := if i < j then i else j, if i < j then j else i;
    assert ms == ms[..low] + [ms[low]] + ms[low + 1..high] + [ms[high]] + ms[high + 1..];
  }

  lemma OnceIn(ms: seq<Member>, m: Member)
    requires m in ms && forall i, j :: 0 <= i < j < |ms| ==> !(ms[i] == m && ms[j] == m)
    ensures multiset(ms)[m] == 1
  {
    var i :| 0 <= i < |ms| && ms[i] == m;
    assert ms == ms[..i] + [m] + ms[i + 1..];
    assert m !in ms[..i] && m !in ms[i + 1..];
  }

  ghost predicate AllApart(ms: seq<Member>) {
    forall i, j :: 0 <= i < |ms| && 0 <= j < |ms| && i != j ==> Apart(ms[i], ms[j])
  }

  lemma PairApart(ms: seq<Member>, m: Member, n: Member)
    requires AllApart(ms) && m in ms && n in ms
    ensures m == n || Apart(m, n)
  {
    var i :| 0 <= i < |ms| && ms[i] == m;
    var j :| 0 <= j < |ms| && ms[j] == n;
  }

  lemma ApartFiles(ms: seq<Member>)
    requires (forall m :: m in ms ==> MemberOk(m)) && AllApart(ms)
    ensures FilesDistinct(ms)
  {
    forall m | m in ms && IsFile(m)
      ensures multiset(ms)[m] == 1
    {
      forall i, j | 0 <= i < j < |ms|
        ensures !(ms[i] == m && ms[j] == m)
      {
        assert Apart(ms[i], ms[j]);
      }
      OnceIn(ms, m);
    }
    forall m, n | m in ms && n in ms && IsFile(m) && IsFile(n) && PathOf(m) == PathOf(n)
      ensures m == n
    {
      PairApart(ms, m, n);
    }
  }

  lemma ApartSets(ms: seq<Member>)
    requires (forall m :: m in ms ==> MemberOk(m)) && AllApart(ms)
    ensures FileSet(ms) !! DirSet(ms)
  {
    forall m, n, q | m in ms && n in ms && IsFile(m) && q in DirsOf(n)
      ensures q != PathOf(m)
    {
      assert q <= PathOf(n);
      PairApart(ms, m, n);
    }
  }

  /** An archive is accepted exactly when every member is sound by itself, any two
      are apart, and all files together are within the limit. */
  lemma AcceptsExact(ms: seq<Member>, limit: int)
    ensures Accepts(ms, limit) <==>
              && (forall m :: m in ms ==> MemberSound(m))
              && AllApart(ms) && Total(ms) <= limit
  {
    forall m | m in ms
      ensures MemberOk(m) <==> MemberSound(m)
    {
      MemberExact(m);
    }
    if Accepts(ms, limit) {
      forall i, j | 0 <= i < |ms| && 0 <= j < |ms| && i != j
        ensures Apart(ms[i], ms[j])
      {
        ApartAt(ms, i, j);
      }
    } else if (forall m :: m in ms ==> MemberSound(m)) && AllApart(ms) {
      ApartFiles(ms);
      ApartSets(ms);
    }
  }

  // ---------- Order independence ----------

  lemma {:induction false} TotalAt(ms: seq<Member>, k: nat)
    requires k < |ms|
    ensures Total(ms) == Total(ms[..k] + ms[k + 1..]) + Size(ms[k])
  {
    var last := |ms| - 1;
    if k == last {
      assert ms[..k] + ms[k + 1..] == ms[..last];
    } else {
      TotalAt(ms[..last], k);
      var rest := ms[..k] + ms[k + 1..];
      assert ms[..last][..k] == ms[..k] && ms[..last][k + 1..] == ms[k + 1..last];
      assert rest[..|rest| - 1] == ms[..k] + ms[k + 1..last];
    }
  }

  lemma RemoveOne(b: seq<Member>, k: nat)
    requires k < |b|
    ensures multiset(b[..k] + b[k + 1..]) == multiset(b) - multiset{b[k]}
  {
    assert b == b[..k] + [b[k]] + b[k + 1..];
  }

  lemma {:induction false} TotalPermutes(a: seq<Member>, b: seq<Member>)
    requires multiset(a) == multiset(b)
    ensures Total(a) == Total(b)
    decreases |a|
  {
    if a == [] {
      assert |multiset(b)| == |b|;
    } else {
      var last := |a| - 1;
      assert a[last] in multiset(b);
      var k :| 0 <= k < |b| && b[k] == a[last];
      RemoveOne(a, last);
      RemoveOne(b, k);
      assert a[..last] + a[last + 1..] == a[..last];
      TotalPermutes(a[..last], b[..k] + b[k + 1..]);
      TotalAt(b, k);
    }
  }

  lemma SameSets(a: seq<Member>, b: seq<Member>)
    requires multiset(a) == multiset(b)
    ensures (forall m :: m in a <==> m in b) && DirSet(a) == DirSet(b) && FileSet(a) == FileSet(b)
    ensures FilesDistinct(a) <==> FilesDistinct(b)
  {
    forall m
      ensures m in a <==> m in b
    {
      assert m in a <==> m in multiset(a);
      assert m in b <==> m in multiset(b);
    }
  }

  lemma SameFile(a: seq<Member>, b: seq<Member>, q: Path)
    requires multiset(a) == multiset(b) && FilesDistinct(a) && q in FileSet(a)
    ensures q in FileSet(b) && FileAt(a, q) == FileAt(b, q)
  {
    SameSets(a, b);
    var m :| m in a && IsFile(m) && PathOf(m) == q;
    FileAtIs(a, m);
    FileAtIs(b, m);
  }

  /** Any permutation of the members is accepted exactly when the original is,
      and then rebuilds the same tree. */
  lemma OrderIndependent(a: seq<Member>, b: seq<Member>, limit: int)
    requires multiset(a) == multiset(b)
    ensures Accepts(a, limit) <==> Accepts(b, limit)
    ensures Accepts(a, limit) ==> Meaning(a) == Meaning(b)
  {
    TotalPermutes(a, b);
    SameSets(a, b);
    if Accepts(a, limit) {
      forall q | q in FileSet(a)
        ensures FileAt(a, q) == FileAt(b, q)
      {
        SameFile(a, b, q);
      }
    }
  }
}

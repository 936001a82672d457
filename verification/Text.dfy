/** Text as bytes: ASCII literals, UTF-8, and slash-separated names. */
module Text {
  import opened ByteOrder

  const SLASH: byte := 47
  const DOT: byte := 46
  const BACKSLASH: byte := 92
  const SPACE: byte := 32
  const NUL: byte := 0

  /** The bytes of an ASCII text. */
  function Ascii(text: string): (bytes: Bytes)
    ensures |bytes| == |text|
  {
    seq(|text|, i requires 0 <= i < |text| => text[i] as int % 128)
  }

  // ---------- UTF-8 ----------

  /** One character in UTF-8 (RFC 3629). */
  function Utf8(c: char): (bytes: Bytes)
    ensures 1 <= |bytes| <= 4
  {
    var point := c as int;
    var high := point / 0x40;
    var higher := high / 0x40;
    if point < 0x80 then [point]
    else if point < 0x800 then [0xC0 + high, 0x80 + point % 0x40]
    else if point < 0x10000 then [0xE0 + higher, 0x80 + high % 0x40, 0x80 + point % 0x40]
    else [0xF0 + higher / 0x40, 0x80 + higher % 0x40, 0x80 + high % 0x40, 0x80 + point % 0x40]
  }

  /** The bytes spell the character: six bits in each continuation byte, the rest in
      the leading one, which says how many follow. */
  lemma Utf8Spells(c: char)
    ensures var bytes := Utf8(c);
            && (|bytes| == 1 ==> c as int == bytes[0])
            && (|bytes| == 2 ==> Follow(Lead(bytes[0], 0xC0, 0x20), bytes[1]) == c as int)
            && (|bytes| == 3 ==> Follow(Follow(Lead(bytes[0], 0xE0, 0x10), bytes[1]), bytes[2]) == c as int)
            && (|bytes| == 4 ==> Follow(Follow(Follow(Lead(bytes[0], 0xF0, 8), bytes[1]), bytes[2]), bytes[3]) == c as int)
  {
  }

  function Lead(first: int, from: int, count: int): int {
    if from <= first < from + count then first - from else -1
  }

  function Follow(before: int, next: int): int {
    if before >= 0 && 0x80 <= next < 0xC0 then before * 0x40 + (next - 0x80) else -1
  }

  /** The length of a text in UTF-8. */
  function Utf8Length(text: string): nat {
    if text == "" then 0 else |Utf8(text[0])| + Utf8Length(text[1..])
  }

  // ---------- Slash-separated names ----------

  /** The components between slashes. */
  function Split(text: Bytes): (parts: seq<Bytes>)
    ensures parts != []
  {
    if text == [] then [[]]
    else
      var rest := Split(text[1..]);
      if text[0] == SLASH then [[]] + rest else [[text[0]] + rest[0]] + rest[1..]
  }

  /** The components with one slash between each two. */
  function Join(parts: seq<Bytes>): Bytes
    requires parts != []
  {
    if |parts| == 1 then parts[0] else parts[0] + [SLASH] + Join(parts[1..])
  }

  ghost predicate Unslashed(parts: seq<Bytes>) {
    forall part :: part in parts ==> SLASH !in part
  }

  lemma JoinPrepend(c: byte, first: Bytes, rest: seq<Bytes>)
    ensures Join([[c] + first] + rest) == [c] + Join([first] + rest)
  {
    if rest != [] {
      assert ([[c] + first] + rest)[1..] == rest && ([first] + rest)[1..] == rest;
    }
  }

  /** Splitting loses nothing, and leaves no slash. */
  lemma {:induction false} JoinSplit(text: Bytes)
    ensures Join(Split(text)) == text && Unslashed(Split(text))
  {
    if text != [] {
      JoinSplit(text[1..]);
      var rest := Split(text[1..]);
      assert text == [text[0]] + text[1..];
      if text[0] == SLASH {
        assert Split(text)[1..] == rest;
      } else {
        assert rest == [rest[0]] + rest[1..];
        JoinPrepend(text[0], rest[0], rest[1..]);
      }
    }
  }

  lemma {:induction false} SplitPrefix(part: Bytes, rest: Bytes)
    requires SLASH !in part
    ensures Split(part + rest) == [part + Split(rest)[0]] + Split(rest)[1..]
  {
    if part == [] {
      assert part + rest == rest && part + Split(rest)[0] == Split(rest)[0];
      assert Split(rest) == [Split(rest)[0]] + Split(rest)[1..];
    } else {
      SplitPrefix(part[1..], rest);
      assert (part + rest)[1..] == part[1..] + rest;
      var shorter := Split(part[1..] + rest);
      assert shorter[0] == part[1..] + Split(rest)[0] && shorter[1..] == Split(rest)[1..];
      assert [part[0]] + shorter[0] == part + Split(rest)[0];
    }
  }

  /** Splitting is the only way apart: any components without slashes come back. */
  lemma {:induction false} SplitJoin(parts: seq<Bytes>)
    requires parts != [] && Unslashed(parts)
    ensures Split(Join(parts)) == parts
  {
    assert parts[0] in parts;
    if |parts| == 1 {
      SplitPrefix(parts[0], []);
      assert parts[0] + [] == parts[0] && parts == [parts[0]];
    } else {
      SplitJoin(parts[1..]);
      SplitPrefix(parts[0], [SLASH] + Join(parts[1..]));
      assert ([SLASH] + Join(parts[1..]))[1..] == Join(parts[1..]);
      assert Join(parts) == parts[0] + ([SLASH] + Join(parts[1..]));
      assert Split([SLASH] + Join(parts[1..])) == [[]] + parts[1..];
      assert parts[0] + [] == parts[0] && parts == [parts[0]] + parts[1..];
    }
  }

  /** A trailing slash adds one empty component. */
  lemma {:induction false} SplitTrailing(text: Bytes)
    ensures Split(text + [SLASH]) == Split(text) + [[]]
  {
    if text == [] {
      assert ([] + [SLASH])[1..] == [];
    } else {
      SplitTrailing(text[1..]);
      assert (text + [SLASH])[1..] == text[1..] + [SLASH];
    }
  }

  /** Every byte but the slashes is in some component. */
  lemma {:induction false} SplitHolds(text: Bytes, c: byte)
    requires c != SLASH
    ensures c in text <==> exists part :: part in Split(text) && c in part
  {
    if text != [] {
      SplitHolds(text[1..], c);
      var rest, parts := Split(text[1..]), Split(text);
      assert text == [text[0]] + text[1..];
      if text[0] == SLASH {
        assert forall part :: part in parts <==> part == [] || part in rest;
      } else {
        assert rest == [rest[0]] + rest[1..];
        assert parts[0] == [text[0]] + rest[0] && parts[0] in parts;
        assert forall part :: part in parts <==> part == parts[0] || part in rest[1..];
        assert forall part :: part in rest <==> part == rest[0] || part in rest[1..];
        assert c in parts[0] <==> c == text[0] || c in rest[0];
      }
    }
  }
}

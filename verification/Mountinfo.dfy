/** The two decoders of escaped mount table fields: one that steps through the
    four escapes it knows, and one that substitutes any three octal digits. */
module Mountinfo {
  import opened ByteOrder
  import opened Outcomes
  import opened Text

  const TAB: byte := 9
  const NEWLINE: byte := 10

  predicate Special(c: byte) {
    c == TAB || c == NEWLINE || c == SPACE || c == BACKSLASH
  }

  /** The three digits that stand for a special byte: "011", "012", "040", "134". */
  function Token(c: byte): Bytes
    requires Special(c)
  {
    if c == TAB then [48, 49, 49] else if c == NEWLINE then [48, 49, 50] else if c == SPACE then [48, 52, 48] else [49, 51, 52]
  }

  function TokenMeaning(token: Bytes): (r: Option<byte>)
    ensures r.Some? ==> Special(r.value) && Token(r.value) == token
  {
    if token == [48, 49, 49] then Some(TAB)
    else if token == [48, 49, 50] then Some(NEWLINE)
    else if token == [48, 52, 48] then Some(SPACE)
    else if token == [49, 51, 52] then Some(BACKSLASH)
    else None
  }

  /** How the kernel writes a field. */
  function Escape(text: Bytes): Bytes {
    if text == [] then []
    else (if Special(text[0]) then [BACKSLASH] + Token(text[0]) else [text[0]]) + Escape(text[1..])
  }

  // ---------- The strict decoder ----------

  /** What a field means, or None when an escape is cut short or unknown. */
  function Strict(value: Bytes): Option<Bytes>
    decreases |value|
  {
    if value == [] then Some([])
    else if value[0] != BACKSLASH then Prepend(value[0], Strict(value[1..]))
    else if |value| < 4 || TokenMeaning(value[1..4]).None? then None
    else Prepend(TokenMeaning(value[1..4]).value, Strict(value[4..]))
  }

  function Prepend(c: byte, rest: Option<Bytes>): Option<Bytes> {
    if rest.None? then None else Some([c] + rest.value)
  }

  function Joined(done: Bytes, rest: Option<Bytes>): Option<Bytes> {
    if rest.None? then None else Some(done + rest.value)
  }

  lemma JoinedNext(done: Bytes, c: byte, rest: Option<Bytes>)
    ensures Joined(done, Prepend(c, rest)) == Joined(done + [c], rest)
    ensures Joined([], rest) == rest && Joined(done, Some([])) == Some(done)
  {
    if rest.Some? {
      assert done + ([c] + rest.value) == (done + [c]) + rest.value;
      assert [] + rest.value == rest.value;
    }
    assert done + [] == done;
  }

  /** `_unescape_mountinfo` */
  method UnescapeMountinfo(value: Bytes) returns (r: Option<Bytes>)
    ensures r == Strict(value)
  {
    var decoded: Bytes, index := [], 0;
    assert value[0..] == value;
    JoinedNext([], 0, Strict(value));
    while index < |value|
      invariant 0 <= index <= |value|
      invariant Strict(value) == Joined(decoded, Strict(value[index..]))
    {
      var rest := value[index..];
      if value[index] != BACKSLASH {
        assert rest[1..] == value[index + 1..];
        JoinedNext(decoded, value[index], Strict(rest[1..]));
        decoded := decoded + [value[index]];
        index := index + 1;
        continue;
      }
      if index + 3 >= |value| {
        return None;
      }
      var token := value[index + 1..index + 4];
      assert token == rest[1..4] && rest[4..] == value[index + 4..];
      var meaning := TokenMeaning(token);
      if meaning.None? {
        return None;
      }
      JoinedNext(decoded, meaning.value, Strict(rest[4..]));
      decoded := decoded + [meaning.value];
      index := index + 4;
    }
    assert value[index..] == [];
    JoinedNext(decoded, 0, Some([]));
    r := Some(decoded);
  }

  // ---------- The general decoder ----------

  predicate IsOctal(c: byte) {
    48 <= c <= 55
  }

  /** An escape starts here: a backslash and three octal digits. */
  predicate EscapeAt(value: Bytes) {
    |value| >= 4 && value[0] == BACKSLASH && IsOctal(value[1]) && IsOctal(value[2]) && IsOctal(value[3])
  }

  function OctalValue(a: byte, b: byte, c: byte): int {
    (a - 48) * 64 + (b - 48) * 8 + (c - 48)
  }

  /** Substitutes every escape, leftmost first; a value that is no byte is an error. */
  function General(value: Bytes): Option<Bytes>
    decreases |value|
  {
    if value == [] then Some([])
    else if EscapeAt(value) then
      var code := OctalValue(value[1], value[2], value[3]);
      if 0 <= code < 256 then Prepend(code, General(value[4..])) else None
    else Prepend(value[0], General(value[1..]))
  }

  /** A backslash and three octal digits stand for the byte they spell, if it is one. */
  lemma GeneralReads(i: nat, j: nat, k: nat, rest: Bytes)
    requires i < 8 && j < 8 && k < 8
    ensures General([BACKSLASH, 48 + i, 48 + j, 48 + k] + rest) ==
            if 64 * i + 8 * j + k < 256 then Prepend(64 * i + 8 * j + k, General(rest)) else None
  {
    var value := [BACKSLASH, 48 + i, 48 + j, 48 + k] + rest;
    assert value[4..] == rest && EscapeAt(value);
  }

  /** Any other byte stands for itself. */
  lemma GeneralKeeps(c: byte, rest: Bytes)
    requires c != BACKSLASH || |rest| < 3 || !(forall x :: x in rest[..3] ==> x in Ascii("01234567"))
    ensures General([c] + rest) == Prepend(c, General(rest))
  {
    var value := [c] + rest;
    assert value[1..] == rest;
    if EscapeAt(value) {
      assert rest[..3] == [value[1], value[2], value[3]];
      OctalDigits(value[1]);
      OctalDigits(value[2]);
      OctalDigits(value[3]);
      assert false;
    }
  }

  lemma OctalDigits(c: byte)
    requires IsOctal(c)
    ensures c in Ascii("01234567")
  {
    assert Ascii("01234567")[c - 48] == c;
  }

  // ---------- Agreement ----------

  lemma TokenOctal(c: byte)
    requires Special(c)
    ensures |Token(c)| == 3 && TokenMeaning(Token(c)) == Some(c)
    ensures IsOctal(Token(c)[0]) && IsOctal(Token(c)[1]) && IsOctal(Token(c)[2])
    ensures OctalValue(Token(c)[0], Token(c)[1], Token(c)[2]) == c
  {
  }

  /** What the strict decoder accepts, the general one reads the same way. */
  lemma {:induction false} DecodersAgree(value: Bytes)
    requires Strict(value).Some?
    ensures General(value) == Strict(value)
    decreases |value|
  {
    if value != [] {
      if value[0] != BACKSLASH {
        DecodersAgree(value[1..]);
      } else {
        var c := TokenMeaning(value[1..4]).value;
        TokenOctal(c);
        assert value[1] == Token(c)[0] && value[2] == Token(c)[1] && value[3] == Token(c)[2] by {
          assert value[1..4] == Token(c);
        }
        DecodersAgree(value[4..]);
      }
    }
  }

  /** Both decoders invert the escaping, for every text. */
  lemma {:induction false} DecodeEscape(text: Bytes)
    ensures Strict(Escape(text)) == Some(text) && General(Escape(text)) == Some(text)
  {
    if text != [] {
      DecodeEscape(text[1..]);
      var value, rest := Escape(text), Escape(text[1..]);
      assert text == [text[0]] + text[1..];
      if Special(text[0]) {
        TokenOctal(text[0]);
        assert value[1..4] == Token(text[0]) && value[4..] == rest;
      } else {
        assert value[1..] == rest;
      }
    }
    DecodersAgree(Escape(text));
  }

  /** The value spells the text: each byte as itself unless it is a backslash, or,
      if it is special, as its escape. */
  ghost predicate Renders(value: Bytes, text: Bytes)
    decreases |text|
  {
    if text == [] then value == [] else
      || (text[0] != BACKSLASH && value != [] && value[0] == text[0] && Renders(value[1..], text[1..]))
      || (&& Special(text[0]) && |value| >= 4 && value[0] == BACKSLASH && value[1..4] == Token(text[0])
          && Renders(value[4..], text[1..]))
  }

  /** The strict decoder accepts exactly what spells a text, and returns that text. */
  lemma {:induction false} StrictExact(value: Bytes, text: Bytes)
    ensures Strict(value) == Some(text) <==> Renders(value, text)
    decreases |value|
  {
    if value != [] && text != [] {
      assert text == [text[0]] + text[1..];
      if value[0] != BACKSLASH {
        StrictExact(value[1..], text[1..]);
      } else if |value| >= 4 {
        StrictExact(value[4..], text[1..]);
        if Special(text[0]) {
          TokenOctal(text[0]);
        }
      }
    }
  }

  /** A field never holds a bare space, tab or newline. Of such fields the strict
      decoder accepts exactly the escapings. */
  lemma {:induction false} StrictIffEscaping(value: Bytes, text: Bytes)
    requires forall c :: c in value ==> c == BACKSLASH || !Special(c)
    ensures Strict(value) == Some(text) <==> value == Escape(text)
    decreases |value|
  {
    DecodeEscape(text);
    if Strict(value) == Some(text) && value != [] {
      if value[0] != BACKSLASH {
        StrictIffEscaping(value[1..], text[1..]);
        assert value == [value[0]] + value[1..];
      } else {
        StrictIffEscaping(value[4..], text[1..]);
        assert value == [BACKSLASH] + value[1..4] + value[4..];
      }
    }
  }
}

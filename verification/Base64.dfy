/** Opaque bytes on the wire: canonical base64 as in section 4 of RFC 4648, where
    a string whose trailing bits are not zero (section 3.5) or whose padding is
    missing is refused. */
module Base64 {
  import opened ByteOrder
  import opened Outcomes

  type sextet = v: int | 0 <= v < 64

  function Letter(v: sextet): char {
    if v < 26 then 'A' + v as char
    else if v < 52 then 'a' + (v - 26) as char
    else if v < 62 then '0' + (v - 52) as char
    else if v == 62 then '+' else '/'
  }

  function Value(c: char): Option<sextet> {
    if 'A' <= c <= 'Z' then Some((c - 'A') as int)
    else if 'a' <= c <= 'z' then Some((c - 'a') as int + 26)
    else if '0' <= c <= '9' then Some((c - '0') as int + 52)
    else if c == '+' then Some(62)
    else if c == '/' then Some(63)
    else None
  }

  lemma LetterValue(v: sextet)
    ensures Value(Letter(v)) == Some(v) && Letter(v) != '='
  {
  }

  lemma ValueLetter(c: char)
    requires Value(c).Some?
    ensures Letter(Value(c).value) == c
  {
  }

  /** The alphabet of section 4 of RFC 4648. */
  lemma AlphabetExact()
    ensures seq(26, v requires 0 <= v < 26 => Letter(v)) == "ABCDEFGHIJKLMNOPQRSTUVWXYZ"
    ensures seq(26, v requires 0 <= v < 26 => Letter(26 + v)) == "abcdefghijklmnopqrstuvwxyz"
    ensures seq(10, v requires 0 <= v < 10 => Letter(52 + v)) == "0123456789"
    ensures [Letter(62), Letter(63)] == "+/"
  {
  }

  // ---------- Groups of three bytes ----------

  function Sextets(a: byte, b: byte, c: byte): (sextet, sextet, sextet, sextet) {
    (a / 4, a % 4 * 16 + b / 16, b % 16 * 4 + c / 64, c % 64)
  }

  function Octets(p: sextet, q: sextet, r: sextet, s: sextet): (byte, byte, byte) {
    (p * 4 + q / 16, q % 16 * 16 + r / 4, r % 4 * 64 + s)
  }

  lemma OctetsOfSextets(a: byte, b: byte, c: byte)
    ensures var (p, q, r, s) := Sextets(a, b, c); Octets(p, q, r, s) == (a, b, c)
  {
    var (p, q, r, s) := Sextets(a, b, c);
    assert q / 16 == a % 4 && q % 16 == b / 16;
    assert r / 4 == b % 16 && r % 4 == c / 64;
  }

  lemma SextetsOfOctets(p: sextet, q: sextet, r: sextet, s: sextet)
    ensures var (a, b, c) := Octets(p, q, r, s); Sextets(a, b, c) == (p, q, r, s)
  {
    var (a, b, c) := Octets(p, q, r, s);
    assert a / 4 == p && a % 4 == q / 16;
    assert b / 16 == q % 16 && b % 16 == r / 4;
    assert c / 64 == r % 4 && c % 64 == s;
  }

  function Group(a: byte, b: byte, c: byte): string {
    var (p, q, r, s) := Sextets(a, b, c);
    [Letter(p), Letter(q), Letter(r), Letter(s)]
  }

  /** The standard encoding, with padding. */
  function Encode(bytes: Bytes): (text: string)
    ensures |text| == (|bytes| + 2) / 3 * 4
  {
    match |bytes|
    case 0 => ""
    case 1 => Group(bytes[0], 0, 0)[..2] + "=="
    case 2 => Group(bytes[0], bytes[1], 0)[..3] + "="
    case _ => Group(bytes[0], bytes[1], bytes[2]) + Encode(bytes[3..])
  }

  // ---------- Bit by bit ----------

  /** The byte at this place, zero past the end. */
  function ByteAt(bytes: Bytes, i: nat): byte {
    if i < |bytes| then bytes[i] else 0
  }

  /** The six bits from bit `6 * i` on, most significant first. */
  function SixBits(bytes: Bytes, i: nat): sextet {
    var window := ByteAt(bytes, 6 * i / 8) * 256 + ByteAt(bytes, 6 * i / 8 + 1);
    match 6 * i % 8
    case 0 => window / 1024 % 64
    case 2 => window / 256 % 64
    case 4 => window / 64 % 64
    case _ => window / 16 % 64
  }

  // Six bits out of two adjacent bytes, from each of the four places they can start at.

  lemma FromBit0(a: int, b: int)
    requires 0 <= a < 256 && 0 <= b < 256
    ensures (a * 256 + b) / 1024 % 64 == a / 4
  {
    assert (a * 256 + b) / 1024 == a / 4;
  }

  lemma FromBit6(a: int, b: int)
    requires 0 <= a < 256 && 0 <= b < 256
    ensures (a * 256 + b) / 16 % 64 == a % 4 * 16 + b / 16
  {
    assert (a * 256 + b) / 16 == a * 16 + b / 16;
    assert a * 16 + b / 16 == a / 4 * 64 + (a % 4 * 16 + b / 16);
  }

  lemma FromBit4(a: int, b: int)
    requires 0 <= a < 256 && 0 <= b < 256
    ensures (a * 256 + b) / 64 % 64 == a % 16 * 4 + b / 64
  {
    assert (a * 256 + b) / 64 == a * 4 + b / 64;
    assert a * 4 + b / 64 == a / 16 * 64 + (a % 16 * 4 + b / 64);
  }

  lemma FromBit2(a: int, b: int)
    requires 0 <= a < 256 && 0 <= b < 256
    ensures (a * 256 + b) / 256 % 64 == a % 64
  {
    assert (a * 256 + b) / 256 == a;
  }

  lemma GroupBits(bytes: Bytes, i: nat)
    requires i < 4
    ensures var (p, q, r, s) := Sextets(ByteAt(bytes, 0), ByteAt(bytes, 1), ByteAt(bytes, 2));
            SixBits(bytes, i) == [p, q, r, s][i]
  {
    match i
    case 0 => FromBit0(ByteAt(bytes, 0), ByteAt(bytes, 1));
    case 1 => FromBit6(ByteAt(bytes, 0), ByteAt(bytes, 1));
    case 2 => FromBit4(ByteAt(bytes, 1), ByteAt(bytes, 2));
    case 3 => FromBit2(ByteAt(bytes, 2), ByteAt(bytes, 3));
  }

  lemma BitsPast(bytes: Bytes, i: nat)
    requires |bytes| >= 3 && i >= 4
    ensures SixBits(bytes, i) == SixBits(bytes[3..], i - 4)
  {
    assert 6 * i / 8 == 6 * (i - 4) / 8 + 3 && 6 * i % 8 == 6 * (i - 4) % 8;
  }

  /** Letter by letter: each stands for the next six bits, the last filled up with
      zeros, and a letter past the last bit is padding. */
  lemma {:induction false} EncodeExact(bytes: Bytes, i: nat)
    requires i < |Encode(bytes)|
    ensures Encode(bytes)[i] == if 6 * i >= 8 * |bytes| then '=' else Letter(SixBits(bytes, i))
    decreases |bytes|
  {
    if |bytes| >= 3 && i >= 4 {
      EncodeExact(bytes[3..], i - 4);
      BitsPast(bytes, i);
    } else {
      GroupBits(bytes, i);
    }
  }

  /** One group of four letters without padding. */
  function DecodeGroup(group: string): Option<Bytes>
    requires |group| == 4
  {
    if Value(group[0]).None? || Value(group[1]).None? || Value(group[2]).None? || Value(group[3]).None? then None
    else
      var (a, b, c) := Octets(Value(group[0]).value, Value(group[1]).value, Value(group[2]).value, Value(group[3]).value);
      Some([a, b, c])
  }

  /** The last group, which may be padded; a tolerant decoder drops nonzero trailing bits. */
  function DecodeLast(group: string, tolerant: bool): Option<Bytes>
    requires |group| == 4
  {
    if group[3] != '=' then DecodeGroup(group)
    else if group[2] != '=' then
      var full := DecodeGroup([group[0], group[1], group[2], 'A']);
      if full.None? || (full.value[2] != 0 && !tolerant) then None else Some(full.value[..2])
    else
      var full := DecodeGroup([group[0], group[1], 'A', 'A']);
      if full.None? || (full.value[1] != 0 && !tolerant) then None else Some(full.value[..1])
  }

  function Decode(text: string, tolerant: bool): Option<Bytes> {
    if text == "" then Some([])
    else if |text| < 4 then None
    else if |text| == 4 then DecodeLast(text, tolerant)
    else
      var group, rest := DecodeGroup(text[..4]), Decode(text[4..], tolerant);
      if group.None? || rest.None? then None else Some(group.value + rest.value)
  }

  /** The deserializer: decodes, and refuses unless encoding gives the text back. */
  function Deserialize(text: string, tolerant: bool): Option<Bytes> {
    var decoded := Decode(text, tolerant);
    if decoded.None? || Encode(decoded.value) != text then None else decoded
  }

  // ---------- Round trips ----------

  lemma GroupDecodes(a: byte, b: byte, c: byte)
    ensures |Group(a, b, c)| == 4 && DecodeGroup(Group(a, b, c)) == Some([a, b, c])
    ensures Group(a, b, c)[3] != '=' && Group(a, b, c)[2] != '='
  {
    var (p, q, r, s) := Sextets(a, b, c);
    LetterValue(p);
    LetterValue(q);
    LetterValue(r);
    LetterValue(s);
    OctetsOfSextets(a, b, c);
  }

  lemma GroupEncodes(group: string)
    requires |group| == 4 && DecodeGroup(group).Some?
    ensures var bytes := DecodeGroup(group).value; |bytes| == 3 && Group(bytes[0], bytes[1], bytes[2]) == group
  {
    ValueLetter(group[0]);
    ValueLetter(group[1]);
    ValueLetter(group[2]);
    ValueLetter(group[3]);
    SextetsOfOctets(Value(group[0]).value, Value(group[1]).value, Value(group[2]).value, Value(group[3]).value);
  }

  /** Padding stands for zero bits. */
  lemma ZeroGroup(a: byte, b: byte)
    ensures Group(a, b, 0)[3] == 'A' && Group(a, 0, 0)[2] == 'A'
  {
  }

  lemma LastDecodes(bytes: Bytes, tolerant: bool)
    requires 1 <= |bytes| <= 2
    ensures |Encode(bytes)| == 4 && DecodeLast(Encode(bytes), tolerant) == Some(bytes)
  {
    var a, b := bytes[0], if |bytes| == 2 then bytes[1] else 0;
    GroupDecodes(a, b, 0);
    ZeroGroup(a, b);
    if |bytes| == 2 {
      assert [Encode(bytes)[0], Encode(bytes)[1], Encode(bytes)[2], 'A'] == Group(a, b, 0);
      assert bytes == [a, b, 0][..2];
    } else {
      assert [Encode(bytes)[0], Encode(bytes)[1], 'A', 'A'] == Group(a, 0, 0);
      assert bytes == [a, 0, 0][..1];
    }
  }

  /** Decoding inverts encoding, for either decoder. */
  lemma {:induction false} DecodeEncode(bytes: Bytes, tolerant: bool)
    ensures Decode(Encode(bytes), tolerant) == Some(bytes)
  {
    if 1 <= |bytes| <= 2 {
      LastDecodes(bytes, tolerant);
    } else if |bytes| >= 3 {
      var text, rest := Encode(bytes), Encode(bytes[3..]);
      GroupDecodes(bytes[0], bytes[1], bytes[2]);
      DecodeEncode(bytes[3..], tolerant);
      assert bytes == [bytes[0], bytes[1], bytes[2]] + bytes[3..];
      assert text[..4] == Group(bytes[0], bytes[1], bytes[2]) && text[4..] == rest;
      if |text| == 4 {
        assert text == text[..4] && rest == "";
        assert bytes == [bytes[0], bytes[1], bytes[2]];
      }
    }
  }

  lemma LastEncodes(group: string)
    requires |group| == 4 && DecodeLast(group, false).Some?
    ensures Encode(DecodeLast(group, false).value) == group
  {
    if group[3] != '=' {
      GroupEncodes(group);
      var bytes := DecodeGroup(group).value;
      assert bytes[3..] == [];
    } else if group[2] != '=' {
      GroupEncodes([group[0], group[1], group[2], 'A']);
    } else {
      var full := [group[0], group[1], 'A', 'A'];
      GroupEncodes(full);
      assert DecodeGroup(full).value[2] == 0;
    }
  }

  /** A decoder that refuses trailing bits accepts only encodings, so that the
      comparison after it decides nothing. */
  lemma {:induction false} StrictDecodeCanonical(text: string)
    requires Decode(text, false).Some?
    ensures Encode(Decode(text, false).value) == text
  {
    if |text| == 4 {
      LastEncodes(text);
    } else if |text| > 4 {
      GroupEncodes(text[..4]);
      StrictDecodeCanonical(text[4..]);
      var bytes := Decode(text, false).value;
      var head, rest := DecodeGroup(text[..4]).value, Decode(text[4..], false).value;
      assert bytes[3..] == rest;
      assert text == text[..4] + text[4..];
    }
  }

  /** The deserializer accepts a text as some bytes exactly when it is their
      encoding, whether or not the decoder under it refuses trailing bits. */
  lemma DeserializeIffEncoding(text: string, tolerant: bool, bytes: Bytes)
    ensures Deserialize(text, tolerant) == Some(bytes) <==> Encode(bytes) == text
    ensures Deserialize(text, tolerant).Some? <==> Decode(text, false).Some?
  {
    DecodeEncode(bytes, tolerant);
    if Deserialize(text, tolerant).Some? {
      DecodeEncode(Decode(text, tolerant).value, false);
    }
    if Decode(text, false).Some? {
      StrictDecodeCanonical(text);
      DecodeEncode(Decode(text, false).value, tolerant);
    }
  }

  /** Distinct byte strings have distinct encodings. */
  lemma EncodeInjective(a: Bytes, b: Bytes)
    requires Encode(a) == Encode(b)
    ensures a == b
  {
    DecodeEncode(a, false);
    DecodeEncode(b, false);
  }
}

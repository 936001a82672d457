/** What the governor writes back to a worker: one result as canonical JSON (RFC
    8785), in one length-prefixed frame. Only its length decides anything. */
module Wire {
  import opened ByteOrder
  import opened Text
  import opened Custody
  import Base64

  /** What the worker is told about one of its attempts. */
  datatype WorkerView =
    | StillPending
    | Available(stream: Digest, bytes: Bytes, terminal: bool)
    | Uncertain

  datatype Answer =
    | View(view: WorkerView)
    | Error(code: nat, message: string, correlation: string)

  /** How far a flush of the response channel gets when a frame waits on it. */
  datatype Flush = Drained | Stalled | Broken

  /** `sha256:` and 64 hexadecimal digits. */
  const DIGEST_LENGTH: nat := 71

  const PENDING_LENGTH: nat := 58
  const AVAILABLE_LENGTH: nat := 123
  const UNCERTAIN_LENGTH: nat := 74
  const ERROR_LENGTH: nat := 58

  /** The name of an error code, in the order the codes are declared. */
  function CodeName(code: nat): string {
    match code
    case 0 => "unauthenticated"
    case 1 => "unauthorized"
    case 2 => "invalid_request"
    case 3 => "not_found"
    case 4 => "conflict"
    case 5 => "quiesced"
    case 6 => "indeterminate"
    case 7 => "unsupported_authority_family"
    case _ => "internal"
  }

  /** The bytes of one character inside a JSON string: escaped, or in UTF-8. */
  function CharLength(c: char): nat {
    var point := c as int;
    if c == '"' || c == '\\' || point == 8 || point == 9 || point == 10 || point == 12 || point == 13 then 2
    else if point < 0x20 then 6
    else if point < 0x80 then 1
    else if point < 0x800 then 2
    else if point < 0x10000 then 3
    else 4
  }

  function TextLength(text: string): nat {
    if text == "" then 0 else CharLength(text[0]) + TextLength(text[1..])
  }

  /** The length of standard base64 with padding. */
  function EncodedLength(count: nat): nat {
    (count + 2) / 3 * 4
  }

  /** The length of the frame's payload. */
  function AnswerLength(attempt: AttemptId, answer: Answer): nat {
    match answer
    case View(StillPending) => PENDING_LENGTH + |attempt|
    case View(Available(_, bytes, terminal)) =>
      AVAILABLE_LENGTH + |attempt| + EncodedLength(|bytes|) + DIGEST_LENGTH + if terminal then 4 else 5
    case View(Uncertain) => UNCERTAIN_LENGTH + |attempt| + DIGEST_LENGTH
    case Error(code, message, correlation) => ERROR_LENGTH + |CodeName(code)| + TextLength(message) + TextLength(correlation)
  }

  /** The longest proof kept is the base64 of a whole budget and 128 KiB. */
  lemma ProofLimitExact(content: Bytes)
    ensures ProofLimit(|content|) == |Base64.Encode(content)| + 131072
  {
  }

  // ---------- The payload itself ----------

  /** A hexadecimal digit. */
  function Hex(n: int): byte
    requires 0 <= n < 16
  {
    if n < 10 then 48 + n else 87 + n
  }

  lemma HexDigit(n: int)
    requires 0 <= n < 16
    ensures Hex(n) == Ascii("0123456789abcdef")[n]
  {
  }

  /** One character inside a JSON string: a short escape where there is one, `\u` for
      the other control characters, and UTF-8 for the rest. */
  function Quoted(c: char): Bytes {
    var point := c as int;
    if c == '"' then Ascii("\\\"")
    else if c == '\\' then Ascii("\\\\")
    else if point == 8 then Ascii("\\b")
    else if point == 9 then Ascii("\\t")
    else if point == 10 then Ascii("\\n")
    else if point == 12 then Ascii("\\f")
    else if point == 13 then Ascii("\\r")
    else if point < 0x20 then Ascii("\\u00") + [Hex(point / 16), Hex(point % 16)]
    else Utf8(c)
  }

  function QuotedText(text: string): Bytes {
    if text == "" then [] else Quoted(text[0]) + QuotedText(text[1..])
  }

  /** The payload: `name` gives the text of a digest, `evidence` that of the uncertainty. */
  function Rendered(attempt: AttemptId, name: Digest -> Bytes, evidence: Bytes, answer: Answer): Bytes {
    match answer
    case View(StillPending) =>
      Ascii(@"{""response"":{""attempt"":""") + attempt + Ascii(@""",""kind"":""pending""},""status"":""ok""}")
    case View(Available(stream, bytes, terminal)) =>
      Ascii(@"{""response"":{""attempt"":""") + attempt
      + Ascii(@""",""event_stream"":""") + Ascii(Base64.Encode(bytes))
      + Ascii(@""",""exact_event_stream"":""") + name(stream)
      + Ascii(@""",""kind"":""available"",""protocol_terminal"":") + Ascii(if terminal then "true" else "false")
      + Ascii(@"},""status"":""ok""}")
    case View(Uncertain) =>
      Ascii(@"{""response"":{""attempt"":""") + attempt
      + Ascii(@""",""evidence"":""") + evidence + Ascii(@""",""kind"":""uncertain""},""status"":""ok""}")
    case Error(code, message, correlation) =>
      Ascii(@"{""code"":""") + Ascii(CodeName(code))
      + Ascii(@""",""correlation"":""") + QuotedText(correlation)
      + Ascii(@""",""message"":""") + QuotedText(message) + Ascii(@""",""status"":""error""}")
  }

  lemma QuotedLength(c: char)
    ensures |Quoted(c)| == CharLength(c)
  {
  }

  lemma {:induction false} QuotedTextLength(text: string)
    ensures |QuotedText(text)| == TextLength(text)
  {
    if text != "" {
      QuotedLength(text[0]);
      QuotedTextLength(text[1..]);
    }
  }

  lemma PendingRendered(attempt: AttemptId, name: Digest -> Bytes, evidence: Bytes)
    ensures |Rendered(attempt, name, evidence, View(StillPending))| == PENDING_LENGTH + |attempt|
  {
  }

  lemma UncertainRendered(attempt: AttemptId, name: Digest -> Bytes, evidence: Bytes)
    ensures |Rendered(attempt, name, evidence, View(Uncertain))| == UNCERTAIN_LENGTH + |attempt| + |evidence|
  {
  }

  lemma AvailableRendered(attempt: AttemptId, name: Digest -> Bytes, evidence: Bytes, stream: Digest, bytes: Bytes, terminal: bool)
    ensures |Rendered(attempt, name, evidence, View(Available(stream, bytes, terminal)))| ==
            AVAILABLE_LENGTH + |attempt| + |Base64.Encode(bytes)| + |name(stream)| + if terminal then 4 else 5
  {
  }

  lemma ErrorRendered(attempt: AttemptId, name: Digest -> Bytes, evidence: Bytes, code: nat, message: string, correlation: string)
    ensures |Rendered(attempt, name, evidence, Error(code, message, correlation))| ==
            ERROR_LENGTH + |CodeName(code)| + |QuotedText(message)| + |QuotedText(correlation)|
  {
  }

  /** The length counted for an answer is that of its payload. */
  lemma RenderedLength(attempt: AttemptId, name: Digest -> Bytes, evidence: Bytes, answer: Answer)
    requires (forall d :: |name(d)| == 71) && |evidence| == 71
    ensures |Rendered(attempt, name, evidence, answer)| == AnswerLength(attempt, answer)
  {
    match answer
    case View(StillPending) => PendingRendered(attempt, name, evidence);
    case View(Available(stream, bytes, terminal)) => AvailableRendered(attempt, name, evidence, stream, bytes, terminal);
    case View(Uncertain) => UncertainRendered(attempt, name, evidence);
    case Error(code, message, correlation) =>
      ErrorRendered(attempt, name, evidence, code, message, correlation);
      QuotedTextLength(message);
      QuotedTextLength(correlation);
  }

  /** Bytes that just fit a frame never fit one once they are encoded, from three
      quarters of the limit on. */
  lemma ReadableNotEnough(attempt: AttemptId, stream: Digest, bytes: Bytes, terminal: bool, maxFrame: nat)
    requires 4 * |bytes| > 3 * maxFrame
    ensures |Base64.Encode(bytes)| > maxFrame
    ensures AnswerLength(attempt, View(Available(stream, bytes, terminal))) > maxFrame
  {
    assert |Base64.Encode(bytes)| == EncodedLength(|bytes|);
  }
}

/** The connection as the commands see it, and the reads they make on it.

    A connection is the list of frames written so far (each frame is the body
    handed to the length-prefix encoder), the reply characters not yet read,
    and whether it has been ended. Reads are pure: each returns its outcome
    together with the connection after it. */
module Protocol {
  import opened Types
  import opened Strings

  datatype Conn = Conn(written: seq<string>, input: string, ended: bool)

  /** A fresh, open connection whose server will answer `reply`. */
  function Open(reply: string): Conn {
    Conn([], reply, false)
  }

  /** The result of one step of a command: its outcome and the connection after it. */
  datatype Step<T> = Step(outcome: Outcome<T>, conn: Conn)

  /** `readAscii(n)`: takes exactly the next `n` characters, or rejects with a
      premature end of stream when fewer remain (what remained is then consumed). */
  function ReadAscii(c: Conn, n: nat): (r: Step<string>)
    ensures r.outcome.Ok? <==> n <= |c.input|
    ensures r.outcome.Ok? ==> |r.outcome.value| == n && r.outcome.value + r.conn.input == c.input
    ensures r.outcome.Err? ==> r.outcome.error == PrematureEof(n - |c.input|) && r.conn.input == []
    ensures r.conn.written == c.written && r.conn.ended == c.ended
  {
    if n <= |c.input| then Step(Ok(c.input[..n]), c.(input := c.input[n..]))
    else Step(Err(PrematureEof(n - |c.input|)), c.(input := []))
  }

  /** Upper-case hexadecimal digit of a value below 16. */
  function HexDigit(d: nat): char
    requires d < 16
  {
    "0123456789ABCDEF"[d]
  }

  /** Value of a hexadecimal digit in either case. */
  function HexValue(c: char): (v: Option<nat>)
    ensures v.Some? ==> v.value < 16
  {
    if '0' <= c <= '9' then Some(c as int - 48)
    else if 'A' <= c <= 'F' then Some(c as int - 55)
    else if 'a' <= c <= 'f' then Some(c as int - 87)
    else None
  }

  lemma HexValueDigit(d: nat)
    requires d < 16
    ensures HexValue(HexDigit(d)) == Some(d)
  {
  }

  /** The largest body a four-digit hexadecimal length can describe. */
  const MaxFrameBody: nat := 0xFFFF

  /** A length rendered as exactly four zero-padded hexadecimal digits. */
  function EncodeLength(n: nat): (s: string)
    requires n <= MaxFrameBody
    ensures |s| == 4
  {
    var q1 := n / 16;
    var q2 := q1 / 16;
    var q3 := q2 / 16;
    [HexDigit(q3 % 16), HexDigit(q2 % 16), HexDigit(q1 % 16), HexDigit(n % 16)]
  }

  /** Reads a four-character hexadecimal length prefix, in either case. */
  function DecodeLength(s: string): (n: Option<nat>)
    requires |s| == 4
    ensures n.Some? ==> n.value <= MaxFrameBody
  {
    match (HexValue(s[0]), HexValue(s[1]), HexValue(s[2]), HexValue(s[3]))
    case (Some(a), Some(b), Some(c), Some(d)) => Some(((a * 16 + b) * 16 + c) * 16 + d)
    case _ => None
  }

  /** The four base-16 digits of a length recombine into it. */
  lemma HornerDigits(n: nat)
    requires n <= MaxFrameBody
    ensures ((((n / 16) / 16) / 16 % 16 * 16 + (n / 16) / 16 % 16) * 16 + n / 16 % 16) * 16 + n % 16 == n
  {
    var q1 := n / 16;
    var q2 := q1 / 16;
    var q3 := q2 / 16;
    assert q3 < 16;
    assert q2 == q3 * 16 + q2 % 16;
    assert q1 == q2 * 16 + q1 % 16;
    assert n == q1 * 16 + n % 16;
  }

  /** Decoding an encoded length gives the length back. */
  lemma DecodeEncodeLength(n: nat)
    requires n <= MaxFrameBody
    ensures DecodeLength(EncodeLength(n)) == Some(n)
  {
    var q1 := n / 16;
    var q2 := q1 / 16;
    var q3 := q2 / 16;
    HexValueDigit(q3 % 16);
    HexValueDigit(q2 % 16);
    HexValueDigit(q1 % 16);
    HexValueDigit(n % 16);
    HornerDigits(n);
  }

  /** The framing of a command body or a `FAIL` message: its length as four
      hexadecimal digits, then the body; no frame for a body longer than the
      prefix can describe. */
  function EncodeData(body: string): (r: Option<string>)
    ensures r.Some? <==> |body| <= MaxFrameBody
    ensures r.Some? ==> |r.value| == 4 + |body| && r.value[4..] == body
  {
    if |body| <= MaxFrameBody then Some(EncodeLength(|body|) + body) else None
  }

  /** `readValue`: a four-digit hexadecimal length, then that many characters. */
  function ReadValue(c: Conn): (r: Step<string>)
    ensures r.conn.written == c.written && r.conn.ended == c.ended
    ensures r.outcome.Ok? ==> |r.outcome.value| + 4 + |r.conn.input| == |c.input|
  {
    var head := ReadAscii(c, 4);
    if head.outcome.Err? then Step(Err(head.outcome.error), head.conn)
    else
      match DecodeLength(head.outcome.value)
      case None => Step(Err(BadLength(head.outcome.value)), head.conn)
      case Some(n) => ReadAscii(head.conn, n)
  }

  /** Reading a value back from its own frame yields the body and leaves exactly
      the characters that followed the frame. */
  lemma ReadValueEncodeData(c: Conn, body: string, rest: string)
    requires EncodeData(body).Some?
    requires c.input == EncodeData(body).value + rest
    ensures ReadValue(c) == Step(Ok(body), c.(input := rest))
  {
    var frame := EncodeData(body).value;
    DecodeEncodeLength(|body|);
    assert c.input[..4] == EncodeLength(|body|);
    assert c.input[4..] == body + rest;
  }

  /** `readError`: reads the server's length-prefixed message after `FAIL` and
      always rejects, with that message or with the read's own error. */
  function ReadError<T>(c: Conn): (r: Step<T>)
    ensures r.outcome.Err?
    ensures r.conn.written == c.written && r.conn.ended == c.ended
  {
    var v := ReadValue(c);
    match v.outcome
    case Ok(m) => Step(Err(ServerFail(m)), v.conn)
    case Err(e) => Step(Err(e), v.conn)
  }

  /** The error read after `FAIL` carries the server's message verbatim. */
  lemma ReadErrorMessage<T>(c: Conn, message: string, rest: string)
    requires EncodeData(message).Some?
    requires c.input == EncodeData(message).value + rest
    ensures ReadError<T>(c) == Step(Err(ServerFail(message)), c.(input := rest))
    ensures Message(ReadError<T>(c).outcome.error) == message
  {
    ReadValueEncodeData(c, message, rest);
  }
}

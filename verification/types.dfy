/** The value types shared by the commands: the protocol's four-character reply
    tokens, the error kinds a command can reject with, and the outcome of a
    command (a resolved value or a rejection). */
module Types {

  datatype Option<T> = None | Some(value: T)

  /** The `Reply` enumeration of status and sync tokens. */
  datatype Reply = OKAY | FAIL | STAT | LIST | DENT | RECV | DATA | DONE | SEND | QUIT

  /** The wire spelling of a token: its own name, four upper-case letters. */
  function ReplyText(r: Reply): (s: string)
    ensures |s| == 4
    ensures forall i :: 0 <= i < 4 ==> 'A' <= s[i] <= 'Z'
  {
    match r
    case OKAY => "OKAY"
    case FAIL => "FAIL"
    case STAT => "STAT"
    case LIST => "LIST"
    case DENT => "DENT"
    case RECV => "RECV"
    case DATA => "DATA"
    case DONE => "DONE"
    case SEND => "SEND"
    case QUIT => "QUIT"
  }

  /** Recognises a token: the comparison is exact and case-sensitive. */
  function ParseReply(s: string): (r: Option<Reply>)
    ensures r.Some? ==> ReplyText(r.value) == s
    ensures r.None? ==> forall t :: ReplyText(t) != s
  {
    if s == "OKAY" then Some(OKAY)
    else if s == "FAIL" then Some(FAIL)
    else if s == "STAT" then Some(STAT)
    else if s == "LIST" then Some(LIST)
    else if s == "DENT" then Some(DENT)
    else if s == "RECV" then Some(RECV)
    else if s == "DATA" then Some(DATA)
    else if s == "DONE" then Some(DONE)
    else if s == "SEND" then Some(SEND)
    else if s == "QUIT" then Some(QUIT)
    else None
  }

  /** Every token is recognised from its own spelling, so no two tokens share one. */
  lemma ParseReplyText(r: Reply)
    ensures ParseReply(ReplyText(r)) == Some(r)
  {
  }

  /** Why a command rejected.
      - `ServerFail`: the server answered `FAIL`, followed by this message;
      - `Unexpected`: a token outside the expected set (the source's unexpected-data error);
      - `PrematureEof`: the reply ended while `missing` more characters were needed;
      - `BadLength`: a length prefix that is not four hexadecimal digits;
      - `EndOfStream`: the reply ended before a line the command looks for;
      - `NotConnected`: the monkey client was used before `connect`;
      - `Rejected`: a plain error carrying this message. */
  datatype AdbError =
    | ServerFail(message: string)
    | Unexpected(actual: string, expected: string)
    | PrematureEof(missing: nat)
    | BadLength(prefix: string)
    | EndOfStream
    | NotConnected
    | Rejected(message: string)
  {
    /** The kinds whose message text is fixed by the client's own code and tests. */
    predicate HasKnownMessage() {
      ServerFail? || Unexpected? || Rejected?
    }
  }

  /** The `message` of an error: the server's text for `FAIL`, the
      `Unexpected '<token>', was expecting <expected>` form for a stray token. */
  function Message(e: AdbError): string
    requires e.HasKnownMessage()
  {
    match e
    case ServerFail(m) => m
    case Unexpected(actual, expected) => "Unexpected '" + actual + "', was expecting " + expected
    case Rejected(m) => m
  }

  /** A settled command: resolved with a value or rejected with an error. */
  datatype Outcome<T> = Ok(value: T) | Err(error: AdbError)
}

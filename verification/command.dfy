/** The generic command cycle every host command is built from: write one
    frame, read a four-character status, then branch on `OKAY`, `FAIL` or
    anything else. */
module Command {
  import opened Types
  import opened Strings
  import opened Numbers
  import opened Protocol

  /** The argument values a command may be given: string, boolean, integral
      number, `null` or `undefined`. */
  datatype Primitive = Str(s: string) | Bool(b: bool) | Num(n: int) | Null | Undefined

  /** How `Array.prototype.join` renders one element: `null` and `undefined`
      become the empty string. */
  function Render(p: Primitive): string
  {
    match p
    case Str(s) => s
    case Bool(b) => if b then "true" else "false"
    case Num(n) => IntToString(n)
    case Null => ""
    case Undefined => ""
  }

  function RenderAll(args: seq<Primitive>): (r: seq<string>)
    ensures |r| == |args|
    ensures forall i :: 0 <= i < |args| ==> r[i] == Render(args[i])
  {
    if |args| == 0 then [] else [Render(args[0])] + RenderAll(args[1..])
  }

  /** The frame body `initExecute` sends: the arguments joined with single spaces. */
  function JoinArgs(args: seq<Primitive>): string
  {
    Join(RenderAll(args), ' ')
  }

  /** The body splits back, at its spaces, into exactly the rendered arguments
      whenever none of them holds a space itself. */
  lemma JoinArgsSplit(args: seq<Primitive>)
    requires |args| > 0
    requires forall i :: 0 <= i < |args| ==> ' ' !in Render(args[i])
    ensures Split(JoinArgs(args), ' ') == RenderAll(args)
  {
    SplitJoin(RenderAll(args), ' ');
  }

  /** What a command resolves with on `OKAY`: a plain value, or a function that
      is called (and may read further from the connection). */
  datatype Resolver<T> = Value(value: T) | Thunk(run: Conn -> Step<T>)

  /** The expected set named by the unexpected-token error: the two status
      tokens joined with ` or `. */
  function OkayOrFail(): (s: string)
    ensures s == "OKAY or FAIL"
  {
    ReplyText(OKAY) + " or " + ReplyText(FAIL)
  }

  /** `handleReply(resolver)(reply)`. */
  function HandleReply<T>(resolver: Resolver<T>, reply: string, c: Conn): (r: Step<T>)
    ensures reply == ReplyText(OKAY) && resolver.Value? ==> r == Step(Ok(resolver.value), c)
    ensures reply == ReplyText(OKAY) && resolver.Thunk? ==> r == resolver.run(c)
    ensures reply == ReplyText(FAIL) ==> r.outcome.Err? && r.conn.written == c.written
    ensures reply != ReplyText(OKAY) && reply != ReplyText(FAIL) ==>
              r == Step(Err(Unexpected(reply, "OKAY or FAIL")), c)
  {
    if reply == ReplyText(OKAY) then
      match resolver
      case Value(v) => Step(Ok(v), c)
      case Thunk(run) => run(c)
    else if reply == ReplyText(FAIL) then ReadError(c)
    else Step(Err(Unexpected(reply, OkayOrFail())), c)
  }

  /** On `FAIL` the resolver is never consulted: any two resolvers give the same step. */
  lemma HandleReplyFailIgnoresResolver<T>(r1: Resolver<T>, r2: Resolver<T>, c: Conn)
    ensures HandleReply(r1, "FAIL", c) == HandleReply(r2, "FAIL", c)
  {
  }

  /** On `FAIL` followed by a framed message, the command rejects with exactly
      that message and the frame is consumed. */
  lemma HandleReplyFailMessage<T>(resolver: Resolver<T>, c: Conn, message: string, rest: string)
    requires EncodeData(message).Some?
    requires c.input == EncodeData(message).value + rest
    ensures HandleReply(resolver, "FAIL", c) == Step(Err(ServerFail(message)), c.(input := rest))
  {
    ReadErrorMessage<T>(c, message, rest);
  }

  /** Any other token rejects with a message naming that exact token. */
  lemma HandleReplyUnexpectedMessage<T>(resolver: Resolver<T>, reply: string, c: Conn)
    requires reply != "OKAY" && reply != "FAIL"
    ensures HandleReply(resolver, reply, c).outcome.Err?
    ensures Message(HandleReply(resolver, reply, c).outcome.error)
            == "Unexpected '" + reply + "', was expecting OKAY or FAIL"
  {
  }

  /** For a plain-value resolver the three branches are exclusive and each is
      taken for exactly its own tokens: the command resolves if and only if
      the token is `OKAY`, rejects with the unexpected-token error if and only
      if the token is neither `OKAY` nor `FAIL`, and otherwise (`FAIL`) rejects
      with what the error read produced. */
  lemma HandleReplyBranches<T>(v: T, reply: string, c: Conn)
    ensures var r := HandleReply(Value(v), reply, c);
            && (r.outcome.Ok? <==> reply == "OKAY")
            && (r.outcome.Err? && r.outcome.error.Unexpected? <==> reply != "OKAY" && reply != "FAIL")
            && (reply == "FAIL" <==> r.outcome.Err? && !r.outcome.error.Unexpected?)
  {
    if reply == "FAIL" {
      var v := ReadValue(c);
      assert v.outcome.Err? ==> !v.outcome.error.Unexpected?;
    }
  }

  /** `endConnection`. Ending is idempotent. */
  function EndConnection(c: Conn): (r: Conn)
    ensures r.ended
    ensures r.written == c.written && r.input == c.input
  {
    c.(ended := true)
  }

  /** Ending an ended connection changes nothing. */
  lemma EndConnectionIdempotent(c: Conn)
    ensures EndConnection(EndConnection(c)) == EndConnection(c)
  {
  }

  /** `initExecute(...args)`: writes one frame whose body is the arguments
      joined by spaces, reads the four-character status, and ends the
      connection afterwards exactly when `autoEnd` holds, whether or not the
      read succeeded. */
  function InitExecute(c: Conn, args: seq<Primitive>, autoEnd: bool): (r: Step<string>)
    ensures r.conn.written == c.written + [JoinArgs(args)]
    ensures r.outcome.Ok? <==> 4 <= |c.input|
    ensures r.outcome.Ok? ==> |r.outcome.value| == 4 && r.outcome.value + r.conn.input == c.input
    ensures r.outcome.Err? ==> r.outcome.error.PrematureEof?
    ensures r.conn.ended <==> c.ended || autoEnd
  {
    var sent := c.(written := c.written + [JoinArgs(args)]);
    var status := ReadAscii(sent, 4);
    if autoEnd then Step(status.outcome, EndConnection(status.conn)) else status
  }
}

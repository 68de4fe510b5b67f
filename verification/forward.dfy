/** `ForwardCommand`: asks the server to forward a local socket to a device
    socket, and succeeds only after two `OKAY` tokens in a row. */
module Forward {
  import opened Types
  import opened Strings
  import opened Protocol
  import opened Command

  /** The request text `host-serial:<serial>:forward:<local>;<remote>`. */
  function ForwardRequest(serial: string, local: string, remote: string): string
  {
    "host-serial:" + serial + ":forward:" + local + ";" + remote
  }

  /** Reads a request back into its serial, local and remote parts. */
  function ParseForwardRequest(req: string): Option<(string, string, string)>
  {
    match AfterPrefix(req, "host-serial:")
    case None => None
    case Some(afterHost) =>
      match SplitFirst(afterHost, ':')
      case None => None
      case Some((serial, tail)) =>
        match AfterPrefix(tail, "forward:")
        case None => None
        case Some(sockets) =>
          match SplitFirst(sockets, ';')
          case None => None
          case Some((local, remote)) => Some((serial, local, remote))
  }

  /** The request text determines its parts: whenever the serial holds no `:`
      and the local socket no `;`, they (and the remote socket) read back. */
  lemma ForwardRequestParses(serial: string, local: string, remote: string)
    requires ':' !in serial && ';' !in local
    ensures ParseForwardRequest(ForwardRequest(serial, local, remote)) == Some((serial, local, remote))
  {
    var sockets := local + [';'] + remote;
    var tail := "forward:" + sockets;
    var afterHost := serial + [':'] + tail;
    assert ForwardRequest(serial, local, remote) == "host-serial:" + afterHost;
    AfterPrefixAppend("host-serial:", afterHost);
    SplitFirstAfter(serial, ':', tail);
    AfterPrefixAppend("forward:", sockets);
    SplitFirstAfter(local, ';', remote);
  }

  /** The second stage: read another status and resolve with no value on `OKAY`. */
  function SecondStatus(c: Conn): Step<()>
  {
    var t := ReadAscii(c, 4);
    if t.outcome.Err? then Step(Err(t.outcome.error), t.conn)
    else HandleReply(Value(()), t.outcome.value, t.conn)
  }

  /** `execute(serial, local, remote)`. The command's `autoEnd` flag comes
      from a base class outside this model, so it is a parameter. */
  function Forward(c: Conn, autoEnd: bool, serial: string, local: string, remote: string): (r: Step<()>)
    ensures r.conn.written == c.written + [ForwardRequest(serial, local, remote)]
    ensures r.conn.ended <==> c.ended || autoEnd
  {
    var s := InitExecute(c, [Str(ForwardRequest(serial, local, remote))], autoEnd);
    if s.outcome.Err? then Step(Err(s.outcome.error), s.conn)
    else HandleReply(Thunk(SecondStatus), s.outcome.value, s.conn)
  }

  /** The second stage resolves if and only if the next token is `OKAY`. */
  lemma SecondStatusResolvesIff(c: Conn)
    ensures SecondStatus(c).outcome.Ok? <==> StartsWith(c.input, "OKAY")
  {
    if 4 <= |c.input| {
      assert ReadAscii(c, 4).outcome.value == c.input[..4];
    }
  }

  /** Forwarding resolves if and only if the reply begins with two `OKAY` tokens. */
  lemma ForwardResolvesIff(c: Conn, autoEnd: bool, serial: string, local: string, remote: string)
    ensures Forward(c, autoEnd, serial, local, remote).outcome.Ok? <==> StartsWith(c.input, "OKAYOKAY")
  {
    var s := InitExecute(c, [Str(ForwardRequest(serial, local, remote))], autoEnd);
    assert "OKAYOKAY" == "OKAY" + "OKAY";
    StartsWithConcat(c.input, "OKAY", "OKAY");
    if s.outcome.Ok? {
      assert c.input[..4] == s.outcome.value;
      assert c.input[4..] == s.conn.input;
      if s.outcome.value == "OKAY" {
        SecondStatusResolvesIff(s.conn);
      }
    }
  }

  /** `FAIL` as the first token rejects with the server's message; the second
      token is never read, so whatever follows the message is left unread. */
  lemma ForwardFailFirst(c: Conn, autoEnd: bool, serial: string, local: string, remote: string, message: string, rest: string)
    requires EncodeData(message).Some?
    requires c.input == "FAIL" + EncodeData(message).value + rest
    ensures Forward(c, autoEnd, serial, local, remote).outcome == Err(ServerFail(message))
    ensures Forward(c, autoEnd, serial, local, remote).conn.input == rest
  {
    var s := InitExecute(c, [Str(ForwardRequest(serial, local, remote))], autoEnd);
    assert c.input[..4] == "FAIL";
    assert s.conn.input == EncodeData(message).value + rest;
    HandleReplyFailMessage(Thunk(SecondStatus), s.conn, message, rest);
  }

  /** `OKAY` then `FAIL` rejects with the server's message. */
  lemma ForwardOkayThenFail(c: Conn, autoEnd: bool, serial: string, local: string, remote: string, message: string, rest: string)
    requires EncodeData(message).Some?
    requires c.input == "OKAY" + "FAIL" + EncodeData(message).value + rest
    ensures Forward(c, autoEnd, serial, local, remote).outcome == Err(ServerFail(message))
  {
    var s := InitExecute(c, [Str(ForwardRequest(serial, local, remote))], autoEnd);
    assert c.input[..4] == "OKAY";
    assert s.conn.input == "FAIL" + EncodeData(message).value + rest;
    var t := ReadAscii(s.conn, 4);
    assert t.outcome.value == "FAIL";
    assert t.conn.input == EncodeData(message).value + rest;
    HandleReplyFailMessage(Value(()), t.conn, message, rest);
  }

  /** A stray token at either stage rejects with the unexpected-token error naming it. */
  lemma ForwardUnexpected(c: Conn, autoEnd: bool, serial: string, local: string, remote: string, token: string, rest: string)
    requires |token| == 4 && token != "OKAY" && token != "FAIL"
    ensures var first := c.(input := token + rest);
            Forward(first, autoEnd, serial, local, remote).outcome == Err(Unexpected(token, "OKAY or FAIL"))
    ensures var second := c.(input := "OKAY" + token + rest);
            Forward(second, autoEnd, serial, local, remote).outcome == Err(Unexpected(token, "OKAY or FAIL"))
  {
    var first := c.(input := token + rest);
    assert first.input[..4] == token;
    var second := c.(input := "OKAY" + token + rest);
    assert second.input[..4] == "OKAY";
    assert second.input[4..] == token + rest;
    assert (token + rest)[..4] == token;
  }
}

/** `IsInstalledCommand`: asks the device's package manager for a package's
    path and answers whether the reply starts with `package:`.

    The transport exchange of its base class (selecting the device and sending
    the shell request) is not part of this model: it enters as the step it
    produced, holding the status token it read. */
module IsInstalled {
  import opened Types
  import opened Strings
  import opened Protocol
  import opened Command

  /** The device command `shell:pm path <pkg> 2>/dev/null`. */
  function IsInstalledRequest(pkg: string): string
  {
    "shell:pm path " + pkg + " 2>/dev/null"
  }

  /** The request splits back at its spaces into the shell command, its
      sub-command, the package and the redirection, whenever the package
      holds no space. */
  lemma IsInstalledRequestSplits(pkg: string)
    requires ' ' !in pkg
    ensures Split(IsInstalledRequest(pkg), ' ') == ["shell:pm", "path", pkg, "2>/dev/null"]
  {
    var parts := ["shell:pm", "path", pkg, "2>/dev/null"];
    assert Join(parts[3..], ' ') == "2>/dev/null";
    assert Join(parts[2..], ' ') == pkg + " 2>/dev/null";
    assert Join(parts[1..], ' ') == "path " + pkg + " 2>/dev/null";
    assert Join(parts, ' ') == IsInstalledRequest(pkg);
    SplitJoin(parts, ' ');
  }

  /** The marker the package manager prints before a package's path. */
  const PackageMarker := "package:"

  /** The reply handling after the base class's `execute`: a rejected base
      step rejects unchanged; otherwise its value is the status token. */
  function IsInstalled(base: Step<string>): (r: Step<bool>)
    ensures base.outcome.Err? ==> r == Step(Err(base.outcome.error), base.conn)
    ensures r.conn.written == base.conn.written && r.conn.ended == base.conn.ended
  {
    if base.outcome.Err? then Step(Err(base.outcome.error), base.conn)
    else
      var reply := base.outcome.value;
      var c := base.conn;
      if reply == ReplyText(OKAY) then
        var marker := ReadAscii(c, 8);
        // A short read and any text other than the marker are both caught into `false`.
        if marker.outcome.Ok? && marker.outcome.value == PackageMarker then Step(Ok(true), marker.conn)
        else Step(Ok(false), marker.conn)
      else if reply == ReplyText(FAIL) then ReadError(c)
      else Step(Err(Unexpected(reply, "OKAY or FAIL")), c)
  }

  /** After `OKAY` the answer is always a boolean, never a rejection, and it is
      `true` exactly when the next eight characters are `package:`. */
  lemma IsInstalledAfterOkay(c: Conn)
    ensures var r := IsInstalled(Step(Ok("OKAY"), c));
            && r.outcome.Ok?
            && (r.outcome.value <==> StartsWith(c.input, "package:"))
  {
  }

  /** `OKAY` then `package:` answers `true`; `OKAY` then other eight
      characters, or fewer than eight, answers `false`. */
  lemma IsInstalledExamples(c: Conn, path: string, other: string)
    requires |other| == 8 && other != "package:"
    ensures IsInstalled(Step(Ok("OKAY"), c.(input := "package:" + path))).outcome == Ok(true)
    ensures IsInstalled(Step(Ok("OKAY"), c.(input := other + path))).outcome == Ok(false)
    ensures IsInstalled(Step(Ok("OKAY"), c.(input := "pack"))).outcome == Ok(false)
  {
    assert ("package:" + path)[..8] == "package:";
    assert (other + path)[..8] == other;
  }

  /** `FAIL` rejects with the server's message. */
  lemma IsInstalledFail(c: Conn, message: string, rest: string)
    requires EncodeData(message).Some?
    requires c.input == EncodeData(message).value + rest
    ensures IsInstalled(Step(Ok("FAIL"), c)).outcome == Err(ServerFail(message))
  {
    ReadErrorMessage<bool>(c, message, rest);
  }

  /** Any other token rejects with the unexpected-token error naming it. */
  lemma IsInstalledUnexpected(c: Conn, token: string)
    requires token != "OKAY" && token != "FAIL"
    ensures IsInstalled(Step(Ok(token), c)).outcome == Err(Unexpected(token, "OKAY or FAIL"))
    ensures Message(IsInstalled(Step(Ok(token), c)).outcome.error)
            == "Unexpected '" + token + "', was expecting OKAY or FAIL"
  {
  }

  /** The command resolves `true` only on `OKAY` followed by the marker; it
      rejects only when the base rejected or the token was not `OKAY`. */
  lemma IsInstalledResolvesIff(base: Step<string>)
    ensures IsInstalled(base).outcome == Ok(true)
            <==> base.outcome == Ok("OKAY") && StartsWith(base.conn.input, "package:")
    ensures IsInstalled(base).outcome.Err? <==> base.outcome.Err? || base.outcome.value != "OKAY"
  {
    if base.outcome.Ok? && base.outcome.value == "FAIL" {
      assert ReadError<bool>(base.conn).outcome.Err?;
    }
  }
}

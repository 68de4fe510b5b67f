/** `UninstallCommand`: builds the `pm uninstall` device command and reads
    the package manager's result line.

    The transport exchange of its base class is not part of this model; the
    command is its command text and its `postExecute` reply handling. */
module Uninstall {
  import opened Types
  import opened Strings
  import opened Protocol

  /** The options bag: `keepCache` may be absent. */
  datatype UninstallOptions = UninstallOptions(keepCache: Option<bool>)

  /** An instance's state: the command text in its `Cmd` field. */
  datatype UninstallCommand = UninstallCommand(cmd: string)

  /** A new instance, holding the base text `shell:pm uninstall`. */
  function NewUninstall(): UninstallCommand {
    UninstallCommand("shell:pm uninstall")
  }

  /** `options?.keepCache` is truthy. */
  predicate KeepCache(options: Option<UninstallOptions>) {
    options.Some? && options.value.keepCache == Some(true)
  }

  /** `execute(serial, pkg, options)`: rebuilds `Cmd` from its current value,
      the `-k` flag when `keepCache` is truthy, and the package, joined by spaces. */
  function Execute(u: UninstallCommand, pkg: string, options: Option<UninstallOptions>): UninstallCommand
  {
    UninstallCommand(Join([u.cmd] + (if KeepCache(options) then ["-k"] else []) + [pkg], ' '))
  }

  /** On a new instance the command is `shell:pm uninstall <pkg>`, or
      `shell:pm uninstall -k <pkg>` exactly when `keepCache` is truthy. */
  lemma ExecuteText(pkg: string, options: Option<UninstallOptions>)
    ensures KeepCache(options) ==> Execute(NewUninstall(), pkg, options).cmd == "shell:pm uninstall -k " + pkg
    ensures !KeepCache(options) ==> Execute(NewUninstall(), pkg, options).cmd == "shell:pm uninstall " + pkg
  {
    var flag := if KeepCache(options) then ["-k"] else [];
    assert Join(flag + [pkg], ' ') == if KeepCache(options) then "-k " + pkg else pkg;
    assert (["shell:pm uninstall"] + flag + [pkg])[1..] == flag + [pkg];
  }

  /** Absent options, `keepCache: false` and `keepCache: undefined` all build
      the same command. */
  lemma ExecuteFalsyKeepCache(u: UninstallCommand, pkg: string)
    ensures Execute(u, pkg, None) == Execute(u, pkg, Some(UninstallOptions(Some(false))))
    ensures Execute(u, pkg, None) == Execute(u, pkg, Some(UninstallOptions(None)))
  {
  }

  /** The command text is rebuilt from the previous one, so executing an
      instance twice keeps the first command as a prefix of a longer second
      one: `execute` is not idempotent. */
  lemma ExecuteTwiceAccumulates(pkg: string, options: Option<UninstallOptions>)
    ensures var once := Execute(NewUninstall(), pkg, options);
            var twice := Execute(once, pkg, options);
            StartsWith(twice.cmd, once.cmd + " ") && |twice.cmd| > |once.cmd| && twice != once
  {
    var once := Execute(NewUninstall(), pkg, options);
    var twice := Execute(once, pkg, options);
    var flag := if KeepCache(options) then ["-k"] else [];
    assert ([once.cmd] + flag + [pkg])[1..] == flag + [pkg];
    assert twice.cmd == once.cmd + " " + Join(flag + [pkg], ' ');
    StartsWithAppend(once.cmd + " ", Join(flag + [pkg], ' '));
  }

  /** The characters that end a line for a regular expression's `.` and `$`. */
  predicate IsLineTerminator(c: char) {
    c == '\n' || c == '\r' || c == '\U{2028}' || c == '\U{2029}'
  }

  predicate NoTerminator(line: string) {
    forall i :: 0 <= i < |line| ==> !IsLineTerminator(line[i])
  }

  /** A line matching `^(Success|Failure.*|.*Unknown package:.*)$`. */
  predicate IsResultLine(line: string) {
    || line == "Success"
    || (StartsWith(line, "Failure") && NoTerminator(line))
    || (Contains(line, "Unknown package:") && NoTerminator(line))
  }

  /** `searchLine`: reads newline-terminated lines until one satisfies the
      pattern and yields it; a reply that ends first rejects. */
  function SearchLine(c: Conn): (r: Step<string>)
    ensures r.outcome.Ok? ==> IsResultLine(r.outcome.value)
    ensures r.outcome.Err? ==> r.outcome.error == EndOfStream
    ensures r.conn.written == c.written && r.conn.ended == c.ended
    decreases |c.input|
  {
    var i := IndexOf(c.input, '\n');
    if i == |c.input| then Step(Err(EndOfStream), c.(input := []))
    else if IsResultLine(c.input[..i]) then Step(Ok(c.input[..i]), c.(input := c.input[i + 1..]))
    else SearchLine(c.(input := c.input[i + 1..]))
  }

  /** Some complete line (every piece but the last, unterminated one) is a result line. */
  predicate HasResultLine(lines: seq<string>) {
    exists k :: 0 <= k < |lines| - 1 && IsResultLine(lines[k])
  }

  lemma HasResultLineCons(head: string, tail: seq<string>)
    requires |tail| > 0
    ensures HasResultLine([head] + tail) <==> IsResultLine(head) || HasResultLine(tail)
  {
    var lines := [head] + tail;
    if HasResultLine(lines) && !IsResultLine(head) {
      var k :| 0 <= k < |lines| - 1 && IsResultLine(lines[k]);
      assert k > 0 && lines[k] == tail[k - 1];
    }
    if HasResultLine(tail) {
      var k :| 0 <= k < |tail| - 1 && IsResultLine(tail[k]);
      assert lines[k + 1] == tail[k];
    }
    if IsResultLine(head) {
      assert lines[0] == head;
    }
  }

  /** The search succeeds exactly when some complete line of the reply is a
      result line. */
  lemma {:induction false} SearchLineFindsIff(c: Conn)
    ensures SearchLine(c).outcome.Ok? <==> HasResultLine(Split(c.input, '\n'))
    decreases |c.input|
  {
    var i := IndexOf(c.input, '\n');
    if i < |c.input| {
      SearchLineFindsIff(c.(input := c.input[i + 1..]));
      SearchLineFindsNext(c);
    } else {
      SearchLineFindsNone(c);
    }
  }

  /** A reply without a complete line holds no result line, and the search fails. */
  lemma SearchLineFindsNone(c: Conn)
    requires IndexOf(c.input, '\n') == |c.input|
    ensures !SearchLine(c).outcome.Ok? && !HasResultLine(Split(c.input, '\n'))
  {
    assert Split(c.input, '\n') == [c.input];
  }

  /** One line of the search: the first complete line is the result, or the
      search goes on after it, and the result lines are found the same way. */
  lemma SearchLineFindsNext(c: Conn)
    requires IndexOf(c.input, '\n') < |c.input|
    requires var rest := c.(input := c.input[IndexOf(c.input, '\n') + 1..]);
             SearchLine(rest).outcome.Ok? <==> HasResultLine(Split(rest.input, '\n'))
    ensures SearchLine(c).outcome.Ok? <==> HasResultLine(Split(c.input, '\n'))
  {
    var i := IndexOf(c.input, '\n');
    var tail := Split(c.input[i + 1..], '\n');
    assert Split(c.input, '\n') == [c.input[..i]] + tail;
    HasResultLineCons(c.input[..i], tail);
  }

  /** `postExecute`: resolves with no value once a result line is found,
      whether that line reports success or failure, and rejects with the end
      of the stream when no complete line is one; whatever the search did,
      the rest of the reply is then drained. */
  function PostExecute(c: Conn): (r: Step<()>)
    ensures r.outcome.Ok? <==> HasResultLine(Split(c.input, '\n'))
    ensures r.outcome.Err? ==> r.outcome.error == EndOfStream
    ensures r.conn.input == []
    ensures r.conn.written == c.written && r.conn.ended == c.ended
  {
    SearchLineFindsIff(c);
    var found := SearchLine(c);
    var drained := found.conn.(input := []);
    match found.outcome
    case Ok(_) => Step(Ok(()), drained)
    case Err(e) => Step(Err(e), drained)
  }

  /** A `Failure` result line resolves the command; it is not turned into an error. */
  lemma PostExecuteFailureLine(c: Conn, reason: string, rest: string)
    requires NoTerminator(reason)
    requires c.input == "Failure" + reason + "\n" + rest
    ensures PostExecute(c).outcome == Ok(())
  {
    var line := "Failure" + reason;
    assert c.input == line + ['\n'] + rest;
    IndexOfAfter(line, '\n', rest);
    assert c.input[..|line|] == line;
    StartsWithAppend("Failure", reason);
    assert forall i :: 0 <= i < |line| ==> !IsLineTerminator(line[i]) by {
      forall i | 0 <= i < |line| ensures !IsLineTerminator(line[i]) {
        if i >= 7 {
          assert line[i] == reason[i - 7];
        }
      }
    }
  }
}

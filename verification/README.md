# adb-ts reply handling, in Dafny

A model of the reply handling and bookkeeping at the core of `adb-ts`, a
TypeScript client for the Android Debug Bridge (ADB) server. It covers:

- the generic command cycle (`Command.initExecute`, `handleReply`,
  `endConnection`): write one length-prefixed request, read a four-character
  status, then branch on `OKAY`, `FAIL` or anything else;
- `ForwardCommand`, which needs two `OKAY` tokens in a row;
- `IsInstalledCommand`, which answers whether `pm path` prints `package:`;
- `UninstallCommand`, which builds the `pm uninstall` command text and
  searches the reply for its result line;
- `ListForwardsCommand`, which turns the `list-forward` reply into
  `{serial, local, remote}` records by a global regular-expression search;
- `PushTransfer`, the byte-count stack and progress statistics of a push;
- the monkey client's FIFO queue of commands and callbacks, and its reply timer;
- the pure policies of `AdbClient`:
  - argument normalisation for the overloaded entry points;
  - the merge of the options over the defaults, and the `start-server` arguments;
  - the connection auto-start policy;
  - the host and port rules of `connect`, `disconnect` and `tcpip`;
  - the monkey connection retries;
  - the classification of an `adb` process's output.

The model is pure. A connection is a value holding three things: the frames
written, the reply characters not yet read, and whether it was ended. Each
read returns its outcome together with the connection after it. A command
settles as `Ok(value)` or `Err(error)`.

Sockets, child processes and timers enter as parameters. These are:
- the socket events;
- whether the server start failed;
- the result of each `openTcp` attempt;
- the process's error, stdout and stderr;
- a timer firing.

The modules follow the source:

| module | models |
|---|---|
| `Types` | the `Reply` tokens, error kinds, outcomes |
| `Strings`, `Numbers` | the JavaScript built-ins the code relies on (`\s`, `trim`, `includes`, `split`, `join`, `toString`, `Number`) |
| `Protocol` | the parser reads the commands use: `readAscii`, `readValue`, `readError` |
| `Command` | `src/commands/command.ts` |
| `Forward`, `IsInstalled`, `Uninstall`, `ListForwards` | the four commands |
| `PushTransfer` | `src/sync/pushtransfer.ts` |
| `Monkey` | `src/monkey/client.ts` |
| `Client` | the policies of `src/client.ts` |

Some behaviours of the code that the model keeps:
- `execInternal` rejects on any non-empty stderr, and the message is the
  trimmed stderr. That message may be empty when stderr is only whitespace.
- `disconnect` derives an embedded port with `Number(...)`, and any falsy
  port (0, `NaN`, the empty text, absent) becomes 5555. A truthy port
  passed separately, number or text, is passed on unchanged. `connect`
  keeps the embedded port text as given.
- `tcpip` substitutes 5555 only for a function in the port position. An
  absent port is passed on as `undefined`.
- `send` on an unconnected monkey client queues the first command before
  the stream getter throws.
- The constructor's option merge spreads each `[key, value]` entry array
  into the defaults, which adds the index keys `"0"` and `"1"` and changes
  no named option (see Findings).

## Model

| member | source | states |
|---|---|---|
| Types.ParseReply | src/util/types.ts:11-22 | a token is recognised exactly when it is the spelling of one of the ten `Reply` members, compared exactly and case-sensitively |
| Types.ParseReplyText | src/util/types.ts:11-22 | every `Reply` member is recognised from its own spelling, so no two share one |
| Protocol.ReadAscii | src/commands/command.ts:50-52 | `readAscii(n)` succeeds exactly when n characters remain; it returns them and leaves the rest; otherwise it fails with a premature end, reporting how many characters were missing |
| Protocol.DecodeEncodeLength | src/commands/command.ts:49 | the four-digit hexadecimal length prefix of a frame reads back as the length written |
| Protocol.ReadValueEncodeData | src/commands/command.ts:32 | reading a length-prefixed value from its own frame yields the body and leaves exactly what followed |
| Protocol.ReadErrorMessage | src/commands/command.ts:31-34 | the error read after `FAIL` carries the server's message verbatim and consumes its frame |
| Protocol.ReadError | src/commands/command.ts:31-34 | the `FAIL` branch always rejects: with the server's message, or with the read's own error |
| Command.InitExecute | src/commands/command.ts:48-53 | exactly one frame is written, and its body is the arguments joined by spaces; the status read succeeds exactly when four characters remain and returns them; the connection is ended afterwards exactly when `autoEnd` holds, whether or not the read succeeded |
| Command.JoinArgsSplit | src/commands/command.ts:49 | the request body splits back at its spaces into the rendered arguments when none holds a space |
| Command.HandleReply | src/commands/command.ts:15-42 | `OKAY` resolves with the value or with what the resolver function does; `FAIL` rejects via the error read; any other token rejects with the unexpected-token error naming it and the expected `OKAY or FAIL` |
| Command.HandleReplyBranches | src/commands/command.ts:28-40 | for a plain value the command resolves if and only if the token is `OKAY`; it rejects as unexpected if and only if the token is neither `OKAY` nor `FAIL`; it rejects with the read error if and only if the token is `FAIL` |
| Command.HandleReplyFailIgnoresResolver | src/commands/command.ts:31-34 | on `FAIL` the resolver is never consulted |
| Command.HandleReplyFailMessage | src/commands/command.ts:31-34 | `FAIL` followed by a framed message rejects with exactly that message and consumes the frame |
| Command.HandleReplyUnexpectedMessage | __tests__/adbClient/root.ts:94-96 | a stray token rejects with the message `Unexpected '<token>', was expecting OKAY or FAIL` |
| Command.EndConnectionIdempotent | src/commands/command.ts:44-46 | ending a connection twice is the same as ending it once |
| Command.OkayOrFail | src/commands/command.ts:38 | the two status tokens joined with ` or ` spell `OKAY or FAIL` |
| Forward.ForwardRequestParses | src/commands/host-serial/forward.ts:7 | the request `host-serial:<serial>:forward:<local>;<remote>` reads back into its three parts when the serial holds no `:` and the local socket no `;` |
| Forward.Forward | src/commands/host-serial/forward.ts:5-15 | exactly one request frame is written, and the connection ends up ended exactly when it already was or the command's `autoEnd` holds |
| Forward.SecondStatusResolvesIff | src/commands/host-serial/forward.ts:10-12 | the second status read resolves if and only if the next four characters are `OKAY` |
| Forward.ForwardResolvesIff | src/commands/host-serial/forward.ts:6-14 | forwarding resolves if and only if the reply begins with `OKAYOKAY` |
| Forward.ForwardFailFirst | src/commands/host-serial/forward.ts:8-14 | `FAIL` first rejects with the server's message, and the second status is never read |
| Forward.ForwardOkayThenFail | src/commands/host-serial/forward.ts:9-13 | `OKAY` then `FAIL` rejects with the server's message |
| Forward.ForwardUnexpected | src/commands/host-serial/forward.ts:8-14 | a stray token at either stage rejects with the unexpected-token error naming it |
| IsInstalled.IsInstalledRequestSplits | src/commands/host-trasport/isinstalled.ts:9 | the request `shell:pm path <pkg> 2>/dev/null` splits at its spaces into its four words when the package holds no space |
| IsInstalled.IsInstalled | src/commands/host-trasport/isinstalled.ts:7-37 | a rejected transport step rejects unchanged; nothing is written and the connection is not ended by the reply handling |
| IsInstalled.IsInstalledAfterOkay | src/commands/host-trasport/isinstalled.ts:12-28 | after `OKAY` the answer is never a rejection, and it is `true` exactly when the next eight characters are `package:` |
| IsInstalled.IsInstalledExamples | src/commands/host-trasport/isinstalled.ts:13-28 | `package:` answers true; any other eight characters, or a short read, answer false |
| IsInstalled.IsInstalledFail | src/commands/host-trasport/isinstalled.ts:29-32 | `FAIL` rejects with the server's message |
| IsInstalled.IsInstalledUnexpected | src/commands/host-trasport/isinstalled.ts:33-34 | any other token rejects with `Unexpected '<token>', was expecting OKAY or FAIL` |
| IsInstalled.IsInstalledResolvesIff | src/commands/host-trasport/isinstalled.ts:10-36 | the answer is `true` if and only if the token is `OKAY` and `package:` follows; the command rejects if and only if the base step rejected or the token was not `OKAY` |
| Uninstall.ExecuteText | src/commands/host-transport/uninstall.ts:13-24 | a new command becomes `shell:pm uninstall -k <pkg>` exactly when `keepCache` is truthy, and `shell:pm uninstall <pkg>` otherwise |
| Uninstall.ExecuteFalsyKeepCache | src/commands/host-transport/uninstall.ts:18-21 | absent options, `keepCache: false` and `keepCache: undefined` build the same command |
| Uninstall.ExecuteTwiceAccumulates | src/commands/host-transport/uninstall.ts:18-21 | `Cmd` is rebuilt from its previous value, so a second `execute` on the same instance extends the first command: it is not idempotent |
| Uninstall.SearchLine | src/commands/host-transport/uninstall.ts:8-9 | a line found is always `Success`, or a single line starting with `Failure`, or one containing `Unknown package:`; nothing is written and the connection is not ended |
| Uninstall.SearchLineFindsIff | src/commands/host-transport/uninstall.ts:8-9 | the search succeeds exactly when some complete line of the reply matches the result pattern |
| Uninstall.PostExecute | src/commands/host-transport/uninstall.ts:7-12 | the command resolves exactly when some complete line is `Success`, starts with `Failure` or contains `Unknown package:`, and otherwise rejects with the end of the stream; whatever the search did, the rest of the reply is drained |
| Uninstall.PostExecuteFailureLine | src/commands/host-transport/uninstall.ts:8-10 | a `Failure…` result line resolves the command; it is not an error |
| ListForwards.ListForwardsRequestSplits | src/commands/host-serial/listforwards.ts:18-20 | the request `host-serial:<serial>:list-forward` splits at `:` into its three parts when the serial holds none |
| ListForwards.MatchAtSound | src/commands/host-serial/listforwards.ts:9 | what the matcher finds at a position is three non-empty whitespace-free groups, separated by single whitespace characters, the last not followed by more of its run |
| ListForwards.MatchAtComplete | src/commands/host-serial/listforwards.ts:9 | every such declarative match at a position is the one the matcher returns there |
| ListForwards.FindMatches | src/commands/host-serial/listforwards.ts:9 | every match found is a match of the pattern inside the text, and the matches come in order without overlapping |
| ListForwards.FindMatchesComplete | src/commands/host-serial/listforwards.ts:9 | the global search misses nothing: every position where the pattern matches starts, or lies inside, a found match |
| ListForwards.Parse | src/commands/host-serial/listforwards.ts:8-16 | one record per match in order, with groups 1, 2 and 3 as serial, local and remote |
| ListForwards.ParseRecords | src/commands/host-serial/listforwards.ts:8-16 | every record's fields are non-empty and free of whitespace, and they come from non-overlapping matches in order |
| ListForwards.ParseEmptyIff | src/commands/host-serial/listforwards.ts:8-16 | the reply parses to no records if and only if the pattern matches at no position |
| PushTransfer.NewTransfer | src/sync/pushtransfer.ts:5-8 | a new transfer has an empty stack and zero bytes transferred |
| PushTransfer.Push | src/sync/pushtransfer.ts:14-16 | `push` puts the count on top of the stack and leaves the statistics alone |
| PushTransfer.Pop | src/sync/pushtransfer.ts:18-22 | `pop` removes the most recent count and adds it to `bytesTransferred` (an empty stack adds 0), then emits one `progress` event carrying the new statistics |
| PushTransfer.PushThenPopTotals | src/sync/pushtransfer.ts:14-22 | pushing n counts and popping n times leaves the stack empty with `bytesTransferred` equal to their sum, and the last progress event reports that sum |
| PushTransfer.PopNUnwinds | src/sync/pushtransfer.ts:18-22 | popping as many times as counts were pushed on top of a stack restores the stack and adds exactly their sum |
| PushTransfer.PopNMonotone | src/sync/pushtransfer.ts:18-22 | with non-negative counts `bytesTransferred` never decreases, and successive progress events never report less |
| PushTransfer.ApplyAccounted | src/sync/pushtransfer.ts:10-26 | the bytes accounted for, transferred plus pending, grow by n on `push(n)` and are kept by `pop`, `cancel` and `end` |
| PushTransfer.RunAccounted | src/sync/pushtransfer.ts:10-26 | over any sequence of calls the bytes accounted for grow by exactly the counts pushed |
| PushTransfer.SignalsInert | src/sync/pushtransfer.ts:10-26 | dropping every `cancel` and `end` call from any sequence of calls leaves the final stack and statistics unchanged, and the progress events are the same |
| Monkey.Send | src/monkey/client.ts:22-33 | `send` throws exactly when there is no stream and a command to write; when it does not throw it arms a new timer, which becomes the one `clearTimeout` can reach, and which is fresh: every live handle stays below the next one issued, so the new handle was not live; it emits nothing |
| Monkey.EnqueueConnected | src/monkey/client.ts:23-26 | on a connected client every command is queued with its callback behind those waiting, and written as its own line, in order |
| Monkey.SendUnconnected | src/monkey/client.ts:15-26 | without a stream, `send` queues the first command, writes nothing, arms no timer and throws `NotConnectedError` |
| Monkey.SendEmptyUnconnected | src/monkey/client.ts:22-33 | sending an empty list touches no stream, so even an unconnected client arms the timer, and its firing makes `end` throw |
| Monkey.Consume | src/monkey/client.ts:67-83 | a reply goes to the oldest queued command, with an error reply as the callback's first argument and a value as its second; with nothing queued the client ends itself and emits the depleted-queue error |
| Monkey.ConsumeAllFifo | src/monkey/client.ts:67-83 | the queue is first-in first-out: n replies remove the n oldest commands, and their callbacks see the replies in order; nothing else changes |
| Monkey.NotificationsPair | src/monkey/client.ts:78-82 | when every command has a callback, the i-th reply reaches the i-th command's callback |
| Monkey.SendReceive | src/monkey/client.ts:22-58 | sending n commands and receiving n replies answers each command's callback with its own reply, empties the queue and disarms the timer |
| Monkey.ConsumeDepleted | src/monkey/client.ts:68-76 | a reply with nothing queued ends the client and emits `Command queue depleted, but replies still coming in` |
| Monkey.StaleTimerFailsNextCommand | src/monkey/client.ts:28-37 | only the latest timer's handle is kept: after three sends, a data event answers the first command and disarms only the third timer; the first timer, when it fires, fails the second command with `Command failed` |
| Monkey.End | src/monkey/client.ts:91-95 | `end` clears the latest timer and ends the stream; it throws exactly when there is no stream |
| Monkey.StreamEvent | src/monkey/client.ts:40-51 | a stream `error`, `end` or `finish` event is re-emitted, leaves the queue alone, and disarms the latest timer and no other |
| Monkey.SendThenStreamEvent | src/monkey/client.ts:22-51 | a stream event after a send disarms that send's timer, keeps every earlier timer armed and the commands queued |
| Monkey.Connect | src/monkey/client.ts:85-89 | after `connect` the client has a stream; its queue, written lines, timers, ended flag and events are unchanged |
| Client.BuildInputParams | src/client.ts:99-116 | a named source, directly or in an options object, wins over the default; otherwise the default stands; a function in the source position becomes the callback, and only then is `cb` replaced |
| Client.BuildInputParamsOverloadsAgree | src/client.ts:99-116 | the overloads agree: a name and an options object naming it give the same parameters, as do a callback in the source position and no source with that callback |
| Client.ResolveOptions | src/client.ts:118-134 | with the corrected merge (each entry overriding the option it names), every key the caller defines overrides its default; every key left out or set to `undefined` keeps port 5037, host `localhost`, binary `adb` and auto-start |
| Client.ResolveOptionsAsWritten | src/client.ts:128-133 | as written, the named options are the defaults whatever the caller passes |
| Client.ResolveOptionsAsWrittenDefaults | src/client.ts:128-133 | as written, port, host, binary and auto-start are the defaults whatever the caller passes; only the index keys `"0"` and `"1"` change, and only when some key is defined |
| Client.ResolveOptionsAsWrittenIgnoresPort | src/client.ts:128-133 | `{ port: 5036 }` ends with port 5037 as written, and 5036 with the corrected merge |
| Client.ResolveOptionsExample | __tests__/adbClient/constructorAndStartServer.ts:5-23 | with the corrected merge, no options give the defaults, and `{ bin: undefined, port: 5036 }` gives port 5036 with the other defaults, as the repository's test expects |
| Client.StartServerArgs | src/client.ts:138-142 | a non-zero port gives `-P <port> start-server`; port 0 is falsy and gives `start-server` alone |
| Client.StartServerArgsPort | src/client.ts:139-142 | with the corrected merge, the `-P` argument reads back through `Number` as the configured port |
| Client.AsWrittenOptionsUnused | src/client.ts:139-170 | as written, `startServer` always passes `-P 5037`, and a refused first connection always starts the server, even when the caller set `noAutoStart` |
| Client.ConnectionAsWritten | src/client.ts:153-178 | the server is started at most once, and exactly when the first attempt is refused with auto-start on; at most two connect attempts are made |
| Client.ConnectionAsWrittenHangs | src/client.ts:161-170 | a refused connection whose automatic server start fails never settles |
| Client.ConnectionSettles | src/client.ts:153-178 | with the failed start rejecting, every run settles. It resolves exactly when the first attempt connects, or when a refused first attempt is followed by a successful start and a successful second attempt. Every rejection ends the connection. Whenever the start does not fail, the behaviour is the code's own |
| Client.ConnectTarget | src/client.ts:208-220 | the port is never falsy; a colon-free host with a truthy, non-function port passes unchanged, and any other port becomes 5555; a `host:port` string gives its first `:`-piece as the host and its second as the port text, 5555 when that piece is empty; the host never keeps a `:` |
| Client.ConnectFormsAgree | src/client.ts:213-220 | `connect('h:p')` and `connect('h', p)` address the same host and render the same port |
| Client.DisconnectTarget | src/client.ts:237-251 | the port is never falsy and never a function; the host never keeps a `:`; a `host:port` string gives its first piece as the host and `Number(second piece)` as the port, 5555 when that is 0 or `NaN`; without one, a truthy port, number or text, passes unchanged and any other becomes 5555 |
| Client.DisconnectFormsAgree | src/client.ts:242-251 | `disconnect('h:p')` and `disconnect('h', p)` agree, a port in the host overrides one passed separately, and a port given as its decimal text renders as the number does |
| Client.DisconnectExamples | src/client.ts:242-251 | `127.0.0.1` alone, with `''` or with a function disconnects port 5555; with 4444 or `'4444'` it keeps that port |
| Client.DisconnectHostPortExample | __tests__/adbClient/disconnect.ts:40-55 | `127.0.0.1:4444` disconnects host `127.0.0.1` on port 4444 |
| Client.ConnectExtraPiecesExample | src/client.ts:217-219 | `connect('h:1:2')` connects to host `h` on port text `1`, dropping the third piece |
| Client.ConnectEmptyPortExample | src/client.ts:217-220 | `connect('h:', 4444)` uses port 5555: the empty embedded port overrides the one given and is falsy |
| Client.DisconnectZeroPortExample | src/client.ts:242-251 | `disconnect('h:0', 4444)` uses port 5555: the embedded port reads as 0 |
| Client.DisconnectNaNPortExample | src/client.ts:242-251 | `disconnect('h:abc')` uses port 5555: the embedded port reads as `NaN` |
| Client.TcpipArgs | src/client.ts:1194-1198 | a function in the port position becomes the callback and the port becomes 5555; any other port, absent included, passes on unchanged with the callback given |
| Client.TcpipFormsAgree | src/client.ts:1185-1198 | `tcpip(serial, cb)` is `tcpip(serial, 5555, cb)`; an absent port stays absent, where `connect` would default it |
| Client.UninstallArgsAsWritten | src/client.ts:1008-1017 | given options are kept along with the callback; otherwise no options reach the command |
| Client.UninstallArgsAsWrittenDropsCallback | src/client.ts:1014-1016 | absent options discard the callback passed after them |
| Client.UninstallArgsKeepsCallback | src/client.ts:1008-1023 | with the correction every callback given is kept, and the command built is the one for the options given; where no callback would be lost, it agrees with the code |
| Client.TryConnect | src/client.ts:1438-1452 | at most `times` attempts are made; the result is the last attempt's; every earlier attempt failed; a failure means all `times` attempts were made |
| Client.OpenMonkey | src/client.ts:1437-1465 | a failed transport and `MonkeyCommand` step on port 1080 fails `openMonkey` with its error before any socket is opened; at most twenty attempts are made |
| Client.OpenMonkeyAttempts | src/client.ts:1437-1465 | `openMonkey` connects exactly when the monkey step on port 1080 succeeds and one of the twenty attempts to open port 1080 does, with the first that did; after a successful step it otherwise fails with the twentieth attempt's error |
| Client.ExecCommandLineSplits | src/client.ts:1474 | the command line `bin args…` splits at its spaces back into the binary and the arguments |
| Client.ExecInternal | src/client.ts:1471-1484 | it resolves exactly when there is no process error, no stderr and no `Error` in stdout, and then with stdout untrimmed; a process error rejects with itself; without one, any stderr output rejects with its trimmed text, ahead of an `Error` in stdout; other rejections carry trimmed stdout |
| Client.ExecInternalErrorText | src/client.ts:1478-1479 | a resolved value never contains `Error`; a clean run whose stdout contains it rejects with the trimmed stdout |
| Strings.ContainsIff | src/client.ts:1478 | the sliding `includes` search holds exactly when the needle occurs at some index |
| Strings.SplitJoin | src/client.ts:1474 | splitting a joined list restores it when no part holds the separator |
| Strings.JoinSplit | src/client.ts:247 | joining the pieces of a split restores the string |
| Strings.Trim | src/client.ts:1477 | `trim` returns a contiguous piece of its input with only whitespace cut away, and the result neither begins nor ends with whitespace |
| Numbers.ParseNatToString | src/client.ts:141 | decimal text reads back as the number it renders |
| Numbers.ToNumberIntToString | src/client.ts:249 | `Number(String(i))` is `i` for every integer |

## Left out

- Sockets, child processes, timers and the 100 ms retry delay: their results are parameters of the model. Event-emitter plumbing beyond the events named above is not modelled.
- The `Parser` class is not part of this model. `readAscii`, `readValue` and `readError` are modelled after the ADB host protocol's framing: four hexadecimal length digits, then the body. `searchLine` is modelled on `\n`-terminated lines, and `readAll` as draining the input.
- `encodeData` is not part of this model. It is modelled with the same framing, and a body longer than 0xFFFF characters has no frame.
- `findMatches` is not part of this model. It is modelled as the standard global search: try each position in turn, and resume after each match's end.
- The monkey reply parser is not part of this model. Its output enters as a list of replies.
- The base classes that run the transport exchange are not part of this model; their results enter as the step they produce. This covers the transport, parse and IP-connect commands, including the reply check of `connect` and `disconnect`.
- `ADB_DEFAULT_PORT` is defined outside the files modelled. It is taken as 5555, the port of `adb tcpip`.
- Numbers.ToNumber: only blank text and optionally signed decimal integers are modelled; all other text, including decimals, exponents, hexadecimal and `Infinity`, reads as NaN.
- JavaScript numbers are unbounded integers here. Fractional ports and byte counts are not modelled.
- `pkg` given as a `Readable` stream in `IsInstalledCommand` is not modelled; the package is text.
- The `nodeify` callback plumbing and `Promise` scheduling order are not modelled.
- Repeated `connect` calls on one monkey client, which would install the stream hooks twice, are not modelled.
- A `null` options object passed to the input commands is not modelled. It would make `source.source` throw, and the declared types exclude it.
- Client.ConnectionAsWritten: a later `error` event after the promise has settled is not modelled.
- Forward.Forward: `ForwardCommand` imports its base class from `src/command.ts`, which is not part of this model, and the abstract `autoEnd` it must supply is not visible; the flag is a parameter, so the model does not say whether forwarding ends its connection.
- PushTransfer.Pop: every `progress` event hands listeners the same mutable statistics object, so a listener that keeps it sees later totals; the model's events carry the total at the time of the event, which is what a listener reading it at once sees.
- Command.InitExecute: a request body longer than 0xFFFF characters has no frame; the model records the body written and does not say what reaches the socket for one that long.
- The `keepAlive` flag of `UninstallCommand` is read only by the transport base class, which is not part of this model.
- After `openMonkey` connects, the `end` listener that ends the monkey command's output is not modelled.

## Findings

| source | as written | input that shows it | evidently intended | confidence | as-written member | corrected member |
|---|---|---|---|---|---|---|
| src/client.ts:161-170 | when auto-start runs and `startServer()` rejects, the rejection lands on a promise returned to the event emitter, which drops it; the promise `connection()` returns never settles | `noAutoStart: false`, a first connect refused with `ECONNREFUSED`, then the `adb` binary fails to start | the connection ends and the promise rejects with the start error | high; not executed | Client.ConnectionAsWritten | Client.Connection |
| src/client.ts:131 | the reducer `(def, opt) => ({ ...def, ...opt })` spreads each `[key, value]` entry array, which adds the keys `"0"` and `"1"` and never sets the named option | `new AdbClient({ port: 5036 })`: the client keeps port 5037, and `noAutoStart: true` or a custom `bin` are ignored as well | each defined entry overrides the option of its name | high; not executed | Client.ResolveOptionsAsWritten | Client.ResolveOptions |
| src/client.ts:1014-1016 | `cb = options` also runs when `options` is falsy, so an absent options argument overwrites a callback given after it | `uninstall(serial, pkg, undefined, cb)`: `cb` is never called | only a function in the options position becomes the callback | medium; not executed | Client.UninstallArgsAsWritten | Client.UninstallArgs |

/** The pure policies of `AdbClient`: argument normalisation for the
    overloaded entry points, the merge of user options over the defaults, the
    `start-server` arguments, the connection retry policy, the monkey
    connection retries and the classification of an `adb` process's output.

    Sockets, child processes and timers are not modelled: what they report
    enters as parameters (the socket's first and second event, whether the
    server start succeeded, the result of each `openTcp` attempt, the
    process's error, stdout and stderr). */
module Client {
  import opened Types
  import opened Strings
  import opened Numbers
  import opened Uninstall

  // ---------------------------------------------------------------- input

  datatype InputSource =
    | Dpad | Keyboard | Mouse | Touchpad | Gamepad
    | Touchnavigation | Joystick | Touchscreen | Stylus | Trackball

  /** The overloaded `source` argument of the input commands: absent, a
      callback, a source name, or an options object whose `source` may be absent. */
  datatype SourceArg =
    | NoSource
    | SourceCallback(callback: nat)
    | SourceName(name: InputSource)
    | SourceOptions(source: Option<InputSource>)

  /** `buildInputParams(defaultSource, source, cb)`: a named source wins over
      the default, and a callback in the source position replaces `cb`. */
  function BuildInputParams(defaultSource: InputSource, source: SourceArg, cb: Option<nat>): (r: (InputSource, Option<nat>))
    ensures source.SourceName? ==> r.0 == source.name
    ensures source.SourceOptions? && source.source.Some? ==> r.0 == source.source.value
    ensures source.NoSource? || source.SourceCallback? || source == SourceOptions(None) ==> r.0 == defaultSource
    ensures source.SourceCallback? ==> r.1 == Some(source.callback)
    ensures !source.SourceCallback? ==> r.1 == cb
  {
    match source
    case SourceCallback(f) => (defaultSource, Some(f))
    case NoSource => (defaultSource, cb)
    case SourceOptions(s) => (if s.Some? then s.value else defaultSource, cb)
    case SourceName(s) => (s, cb)
  }

  /** The overloads agree: naming a source directly or through an options
      object gives the same parameters, and a callback passed in the source
      position is the same call as no source with that callback. */
  lemma BuildInputParamsOverloadsAgree(d: InputSource, s: InputSource, f: nat, cb: Option<nat>)
    ensures BuildInputParams(d, SourceName(s), cb) == BuildInputParams(d, SourceOptions(Some(s)), cb)
    ensures BuildInputParams(d, SourceCallback(f), None) == BuildInputParams(d, NoSource, Some(f))
    ensures BuildInputParams(d, SourceOptions(None), cb) == BuildInputParams(d, NoSource, cb)
  {
  }

  // -------------------------------------------------------------- options

  /** The resolved options. */
  datatype OptionsValues = OptionsValues(port: int, host: string, bin: string, noAutoStart: bool)

  /** The options a caller passes: every key may be missing or `undefined`. */
  datatype ClientOptions = ClientOptions(port: Option<int>, host: Option<string>, bin: Option<string>, noAutoStart: Option<bool>)

  /** One `[key, value]` entry of the caller's object. */
  datatype Setting = PortSetting(port: int) | HostSetting(host: string) | BinSetting(bin: string) | NoAutoStartSetting(noAutoStart: bool)

  /** `defaultOptions`: port 5037 on `localhost`, binary `adb`, auto-start on. */
  const DefaultOptions := OptionsValues(5037, "localhost", "adb", false)

  /** `Object.entries(options || {})`: one entry per key, `None` for a value
      that is `undefined`. */
  function Entries(options: Option<ClientOptions>): seq<Option<Setting>>
  {
    if options.None? then []
    else
      var o := options.value;
      [ if o.port.Some? then Some(PortSetting(o.port.value)) else None,
        if o.host.Some? then Some(HostSetting(o.host.value)) else None,
        if o.bin.Some? then Some(BinSetting(o.bin.value)) else None,
        if o.noAutoStart.Some? then Some(NoAutoStartSetting(o.noAutoStart.value)) else None ]
  }

  /** `.filter(([_key, value]) => typeof value !== 'undefined')`: exactly the
      defined entries are kept. */
  function Defined(entries: seq<Option<Setting>>): (r: seq<Setting>)
    ensures |r| <= |entries|
    ensures forall x :: x in r <==> Some(x) in entries
  {
    if |entries| == 0 then []
    else (if entries[0].Some? then [entries[0].value] else []) + Defined(entries[1..])
  }

  /** The intended effect of `{ ...def, ...opt }` for one entry: that key
      takes the entry's value. (What the code as written does is
      `SpreadAsWritten` below.) */
  function Spread(v: OptionsValues, s: Setting): OptionsValues
  {
    match s
    case PortSetting(p) => v.(port := p)
    case HostSetting(h) => v.(host := h)
    case BinSetting(b) => v.(bin := b)
    case NoAutoStartSetting(n) => v.(noAutoStart := n)
  }

  /** The intended `.reduce(spread, defaultOptions)`, left to right. */
  function Reduce(v: OptionsValues, settings: seq<Setting>): OptionsValues
    decreases |settings|
  {
    if |settings| == 0 then v else Reduce(Spread(v, settings[0]), settings[1..])
  }

  /** The value a key ends with: the caller's when defined, else the default. */
  function OrDefault<T>(given: Option<T>, default: T): T {
    if given.Some? then given.value else default
  }

  /** The caller's object, with `options || {}` for an absent one. */
  function Given(options: Option<ClientOptions>): ClientOptions {
    if options.Some? then options.value else ClientOptions(None, None, None, None)
  }

  /** The constructor's options with the intended merge: every key the caller
      defines overrides its default, and every key left out or set to
      `undefined` keeps it. */
  function ResolveOptions(options: Option<ClientOptions>): (r: OptionsValues)
    ensures r.port == OrDefault(Given(options).port, 5037)
    ensures r.host == OrDefault(Given(options).host, "localhost")
    ensures r.bin == OrDefault(Given(options).bin, "adb")
    ensures r.noAutoStart == OrDefault(Given(options).noAutoStart, false)
  {
    ReduceEntriesFields(options);
    Reduce(DefaultOptions, Defined(Entries(options)))
  }

  lemma ReduceDefinedStep(v: OptionsValues, e: Option<Setting>, rest: seq<Option<Setting>>)
    ensures Reduce(v, Defined([e] + rest)) == Reduce(if e.Some? then Spread(v, e.value) else v, Defined(rest))
  {
    assert ([e] + rest)[1..] == rest;
    if e.Some? {
      assert ([e.value] + Defined(rest))[1..] == Defined(rest);
    } else {
      assert [] + Defined(rest) == Defined(rest);
    }
  }

  /** Folding the defined entries over the defaults sets each key the caller
      defines and keeps every other default. */
  lemma ReduceEntriesFields(options: Option<ClientOptions>)
    ensures var r := Reduce(DefaultOptions, Defined(Entries(options)));
            var o := Given(options);
            && r.port == OrDefault(o.port, 5037)
            && r.host == OrDefault(o.host, "localhost")
            && r.bin == OrDefault(o.bin, "adb")
            && r.noAutoStart == OrDefault(o.noAutoStart, false)
  {
    if options.Some? {
      var o := options.value;
      var es := Entries(options);
      var v1 := DefaultOptions.(port := OrDefault(o.port, 5037));
      var v2 := v1.(host := OrDefault(o.host, "localhost"));
      var v3 := v2.(bin := OrDefault(o.bin, "adb"));
      var v4 := v3.(noAutoStart := OrDefault(o.noAutoStart, false));
      ReduceEntryStep(DefaultOptions, es[0], es[1..], v1);
      ReduceEntryStep(v1, es[1], es[2..], v2);
      ReduceEntryStep(v2, es[2], es[3..], v3);
      ReduceEntryStep(v3, es[3], [], v4);
    }
  }

  /** One entry of the fold, with the options it leads to given as `w`. */
  lemma ReduceEntryStep(v: OptionsValues, e: Option<Setting>, rest: seq<Option<Setting>>, w: OptionsValues)
    requires (if e.Some? then Spread(v, e.value) else v) == w
    ensures Reduce(v, Defined([e] + rest)) == Reduce(w, Defined(rest))
  {
    ReduceDefinedStep(v, e, rest);
  }

  /** With the intended merge, `new Client({ bin: undefined, port: 5036 })`
      keeps the default binary, host and auto-start and takes port 5036. */
  lemma ResolveOptionsExample()
    ensures ResolveOptions(Some(ClientOptions(Some(5036), None, None, None))) == OptionsValues(5036, "localhost", "adb", false)
    ensures ResolveOptions(None) == DefaultOptions
  {
  }

  /** The object the reducer as written builds. Each `opt` is a
      `[key, value]` array, and spreading an array copies its indices: the
      keys `"0"` and `"1"` receive the entry's key and value, and no named
      field is touched. The index keys hold the last entry spread. */
  datatype SpreadObject = SpreadObject(named: OptionsValues, indexKeys: Option<Setting>)

  /** `{ ...def, ...opt }` as written, for one `[key, value]` entry. */
  function SpreadAsWritten(o: SpreadObject, s: Setting): SpreadObject
  {
    o.(indexKeys := Some(s))
  }

  /** `.reduce((def, opt) => ({ ...def, ...opt }), defaultOptions)` as written. */
  function ReduceAsWritten(o: SpreadObject, settings: seq<Setting>): SpreadObject
    decreases |settings|
  {
    if |settings| == 0 then o else ReduceAsWritten(SpreadAsWritten(o, settings[0]), settings[1..])
  }

  /** The constructor's options as written: the named options stay the
      defaults whatever the caller passes. */
  function ResolveOptionsAsWritten(options: Option<ClientOptions>): (r: SpreadObject)
    ensures r.named == DefaultOptions
  {
    ReduceAsWrittenNamed(SpreadObject(DefaultOptions, None), Defined(Entries(options)));
    ReduceAsWritten(SpreadObject(DefaultOptions, None), Defined(Entries(options)))
  }

  lemma {:induction false} ReduceAsWrittenNamed(o: SpreadObject, settings: seq<Setting>)
    ensures ReduceAsWritten(o, settings).named == o.named
    ensures ReduceAsWritten(o, settings).indexKeys
            == if |settings| == 0 then o.indexKeys else Some(settings[|settings| - 1])
    decreases |settings|
  {
    if |settings| > 0 {
      ReduceAsWrittenNamed(SpreadAsWritten(o, settings[0]), settings[1..]);
      if |settings| > 1 {
        assert settings[1..][|settings[1..]| - 1] == settings[|settings| - 1];
      }
    }
  }

  /** As written, the caller's options never reach a named field: port,
      host, binary and auto-start are always the defaults, whatever is passed.
      Only the index keys change, and only when some key is defined, when
      they hold the last defined entry. */
  lemma ResolveOptionsAsWrittenDefaults(options: Option<ClientOptions>)
    ensures ResolveOptionsAsWritten(options).named == DefaultOptions
    ensures ResolveOptionsAsWritten(options).indexKeys.Some? <==> exists x :: Some(x) in Entries(options)
  {
    var settings := Defined(Entries(options));
    ReduceAsWrittenNamed(SpreadObject(DefaultOptions, None), settings);
    if |settings| > 0 {
      assert settings[0] in settings;
    }
  }

  /** `new Client({ port: 5036 })` keeps port 5037 as written; the intended
      merge gives 5036. */
  lemma ResolveOptionsAsWrittenIgnoresPort()
    ensures ResolveOptionsAsWritten(Some(ClientOptions(Some(5036), None, None, None))).named.port == 5037
    ensures ResolveOptions(Some(ClientOptions(Some(5036), None, None, None))).port == 5036
  {
    ResolveOptionsAsWrittenDefaults(Some(ClientOptions(Some(5036), None, None, None)));
    ResolveOptionsExample();
  }

  /** `startServer()`: the arguments for the `adb` binary. A port of 0 is falsy
      and leaves the `-P` flag out. */
  function StartServerArgs(port: int): (args: seq<string>)
    ensures port != 0 ==> |args| == 3 && args[0] == "-P" && args[2] == "start-server"
    ensures port == 0 ==> args == ["start-server"]
  {
    if port != 0 then ["-P", IntToString(port), "start-server"] else ["start-server"]
  }

  /** The `-P` argument reads back as the configured port. */
  lemma StartServerArgsPort(options: Option<ClientOptions>)
    requires ResolveOptions(options).port != 0
    ensures ToNumber(StartServerArgs(ResolveOptions(options).port)[1]) == Num(ResolveOptions(options).port)
  {
    ToNumberIntToString(ResolveOptions(options).port);
  }

  // ----------------------------------------------------------- connection

  /** What the socket reports for one connect attempt. */
  datatype SocketEvent = Connected | SocketError(code: string)

  const ConnRefused := "ECONNREFUSED"

  /** How the promise returned by `connection()` ends up. */
  datatype Settlement = Resolved | RejectedWith(reason: string) | Unsettled

  /** A run of `connection()`: its settlement, how many times the socket
      connected and the server was started, and whether the connection was ended. */
  datatype ConnectionRun = ConnectionRun(settlement: Settlement, connects: nat, serverStarts: nat, ended: bool)

  /** Whether the first error triggers an automatic server start. */
  predicate StartsServer(noAutoStart: bool, first: SocketEvent) {
    first.SocketError? && first.code == ConnRefused && !noAutoStart
  }

  /** `connection()` as written: when the automatic `startServer()` fails its
      rejection goes nowhere (the promise it returns is dropped by the event
      emitter), so the promise returned to the caller never settles. */
  function ConnectionAsWritten(noAutoStart: bool, first: SocketEvent, startError: Option<string>, second: SocketEvent): (r: ConnectionRun)
    ensures r.serverStarts <= 1 && 1 <= r.connects <= 2
    ensures r.serverStarts == 1 <==> StartsServer(noAutoStart, first)
  {
    if first.Connected? then ConnectionRun(Resolved, 1, 0, false)
    else if StartsServer(noAutoStart, first) then
      if startError.Some? then ConnectionRun(Unsettled, 1, 1, false)
      else if second.Connected? then ConnectionRun(Resolved, 2, 1, false)
      else ConnectionRun(RejectedWith(second.code), 2, 1, true)
    else ConnectionRun(RejectedWith(first.code), 1, 0, true)
  }

  /** A refused connection whose automatic server start fails leaves the
      caller waiting forever. */
  lemma ConnectionAsWrittenHangs(failure: string, second: SocketEvent)
    ensures ConnectionAsWritten(false, SocketError(ConnRefused), Some(failure), second).settlement == Unsettled
  {
  }

  /** `connection()` with the failed server start ending the connection and
      rejecting with the start's error. */
  function Connection(noAutoStart: bool, first: SocketEvent, startError: Option<string>, second: SocketEvent): (r: ConnectionRun)
    ensures r.serverStarts <= 1 && 1 <= r.connects <= 2
    ensures r.serverStarts == 1 <==> StartsServer(noAutoStart, first)
  {
    if first.Connected? then ConnectionRun(Resolved, 1, 0, false)
    else if StartsServer(noAutoStart, first) then
      if startError.Some? then ConnectionRun(RejectedWith(startError.value), 1, 1, true)
      else if second.Connected? then ConnectionRun(Resolved, 2, 1, false)
      else ConnectionRun(RejectedWith(second.code), 2, 1, true)
    else ConnectionRun(RejectedWith(first.code), 1, 0, true)
  }

  /** The corrected policy always settles; it resolves exactly when the first
      attempt connects or a refused first attempt is followed by a successful
      server start and a successful second attempt; every rejection ends the
      connection; and the server is started at most once, only after a refusal
      with auto-start enabled. Where the server start does not fail it
      behaves exactly as the code does. */
  lemma ConnectionSettles(noAutoStart: bool, first: SocketEvent, startError: Option<string>, second: SocketEvent)
    ensures var r := Connection(noAutoStart, first, startError, second);
            && r.settlement != Unsettled
            && (r.settlement == Resolved
                <==> first.Connected? || (StartsServer(noAutoStart, first) && startError.None? && second.Connected?))
            && (r.settlement.RejectedWith? <==> r.ended)
            && (startError.None? || !StartsServer(noAutoStart, first)
                ==> r == ConnectionAsWritten(noAutoStart, first, startError, second))
  {
  }

  lemma PortText5037()
    ensures IntToString(5037) == "5037"
  {
    assert NatToString(5) == "5";
    assert NatToString(50) == "50";
    assert NatToString(503) == "503";
  }

  /** As written, the caller's options never reach the server start or the
      connection policy: `startServer` always passes `-P 5037`, and a refused
      first connection always starts the server, even for `noAutoStart: true`. */
  lemma AsWrittenOptionsUnused(options: Option<ClientOptions>, startError: Option<string>, second: SocketEvent)
    ensures StartServerArgs(ResolveOptionsAsWritten(options).named.port) == ["-P", "5037", "start-server"]
    ensures ConnectionAsWritten(ResolveOptionsAsWritten(options).named.noAutoStart, SocketError(ConnRefused), startError, second)
              .serverStarts == 1
  {
    ResolveOptionsAsWrittenDefaults(options);
    PortText5037();
  }

  // ------------------------------------------------------ connect targets

  /** A JavaScript value given as a port: absent, a function, a number or a string. */
  datatype PortArg = NoPort | PortCallback(callback: nat) | PortNumber(n: int) | PortText(t: string)

  /** JavaScript truthiness of a port value. */
  predicate PortTruthy(p: PortArg) {
    match p
    case NoPort => false
    case PortCallback(_) => true
    case PortNumber(n) => n != 0
    case PortText(t) => |t| > 0
  }

  /** `ADB_DEFAULT_PORT`, the port of `adb tcpip`. */
  const AdbDefaultPort := 5555

  /** How the port renders into the request text. */
  function RenderPort(p: PortArg): string
  {
    match p
    case NoPort => "undefined"
    case PortCallback(_) => ""
    case PortNumber(n) => IntToString(n)
    case PortText(t) => t
  }

  /** A string with `:` splits into at least two parts. */
  lemma SplitHasSeparator(s: string, c: char)
    requires c in s
    ensures |Split(s, c)| >= 2
  {
    JoinSplit(s, c);
  }

  /** `connect(host, port)`: a function port is the callback; a `host:port`
      string supplies both parts (only the first two `:`-separated parts are
      kept); a falsy port becomes the default. */
  function ConnectTarget(host: string, port: PortArg): (r: (string, PortArg))
    ensures PortTruthy(r.1)
    ensures ':' !in host && PortTruthy(port) && !port.PortCallback? ==> r == (host, port)
    ensures ':' !in host && (!PortTruthy(port) || port.PortCallback?) ==> r == (host, PortNumber(AdbDefaultPort))
    ensures ':' !in r.0
    ensures ':' in host ==>
              && |Split(host, ':')| >= 2
              && r.0 == Split(host, ':')[0]
              && r.1 == (if PortTruthy(PortText(Split(host, ':')[1])) then PortText(Split(host, ':')[1])
                         else PortNumber(AdbDefaultPort))
  {
    var port1 := if port.PortCallback? then NoPort else port;
    var (host2, port2) :=
      if ':' in host then
        SplitHasSeparator(host, ':');
        var parts := Split(host, ':');
        (parts[0], PortText(parts[1]))
      else (host, port1);
    (host2, if PortTruthy(port2) then port2 else PortNumber(AdbDefaultPort))
  }

  /** The port `disconnect` falls back to. */
  const DisconnectDefaultPort := 5555

  /** `disconnect(host, port)`: a function port is the callback; a `host:port`
      string supplies both parts, the port going through `Number(...)`; any
      falsy port (0, `NaN`, `''`, absent) becomes 5555, and every truthy port,
      number or text, is passed on as given. */
  function DisconnectTarget(host: string, port: PortArg): (r: (string, PortArg))
    ensures PortTruthy(r.1) && !r.1.PortCallback?
    ensures ':' !in r.0
    ensures ':' in host ==>
              && |Split(host, ':')| >= 2
              && r.0 == Split(host, ':')[0]
              && r.1 == PortNumber(if ToNumber(Split(host, ':')[1]).Truthy() then ToNumber(Split(host, ':')[1]).value
                                   else DisconnectDefaultPort)
    ensures ':' !in host && PortTruthy(port) && !port.PortCallback? ==> r == (host, port)
    ensures ':' !in host && (!PortTruthy(port) || port.PortCallback?) ==> r == (host, PortNumber(DisconnectDefaultPort))
  {
    var port1 := if port.PortCallback? then NoPort else port;
    if ':' in host then
      SplitHasSeparator(host, ':');
      var parts := Split(host, ':');
      var n := ToNumber(parts[1]);
      (parts[0], PortNumber(if n.Truthy() then n.value else DisconnectDefaultPort))
    else
      (host, if PortTruthy(port1) then port1 else PortNumber(DisconnectDefaultPort))
  }

  /** Splitting `host:port` with a colon-free host and port. */
  lemma SplitHostPort(host: string, port: string)
    requires ':' !in host && ':' !in port
    ensures ':' in host + ":" + port
    ensures Split(host + ":" + port, ':') == [host, port]
  {
    assert (host + ":" + port)[|host|] == ':';
    assert Join([host, port], ':') == host + ":" + port;
    SplitJoin([host, port], ':');
  }

  /** The two call forms agree: `connect('h:p')` and `connect('h', p)` address
      the same host and render the same port. */
  lemma ConnectFormsAgree(host: string, p: int)
    requires ':' !in host && p != 0
    ensures ConnectTarget(host + ":" + IntToString(p), NoPort).0 == ConnectTarget(host, PortNumber(p)).0 == host
    ensures RenderPort(ConnectTarget(host + ":" + IntToString(p), NoPort).1) == RenderPort(ConnectTarget(host, PortNumber(p)).1) == IntToString(p)
  {
    SplitHostPort(host, IntToString(p));
  }

  /** The two call forms agree for `disconnect`, and a port embedded in the
      host overrides one passed separately; a port given as its decimal text
      renders into the request as the number would. */
  lemma DisconnectFormsAgree(host: string, p: int, other: PortArg)
    requires ':' !in host && p != 0
    ensures DisconnectTarget(host + ":" + IntToString(p), other) == DisconnectTarget(host, PortNumber(p)) == (host, PortNumber(p))
    ensures DisconnectTarget(host, PortText(IntToString(p))) == (host, PortText(IntToString(p)))
    ensures RenderPort(DisconnectTarget(host, PortText(IntToString(p))).1) == RenderPort(DisconnectTarget(host, PortNumber(p)).1)
  {
    SplitHostPort(host, IntToString(p));
    ToNumberIntToString(p);
  }

  /** The calls of the disconnect scenarios without a port in the host: the
      default port 5555, an explicit port as a number or as text, and a
      function in the port position. */
  lemma DisconnectExamples()
    ensures DisconnectTarget("127.0.0.1", NoPort) == ("127.0.0.1", PortNumber(5555))
    ensures DisconnectTarget("127.0.0.1", PortNumber(4444)) == ("127.0.0.1", PortNumber(4444))
    ensures DisconnectTarget("127.0.0.1", PortText("4444")) == ("127.0.0.1", PortText("4444"))
    ensures DisconnectTarget("127.0.0.1", PortText("")) == ("127.0.0.1", PortNumber(5555))
    ensures DisconnectTarget("127.0.0.1", PortCallback(0)) == ("127.0.0.1", PortNumber(5555))
  {
    assert ':' !in "127.0.0.1";
  }

  lemma PortText4444()
    ensures IntToString(4444) == "4444"
  {
    assert NatToString(4) == "4";
    assert NatToString(44) == "44";
    assert NatToString(444) == "444";
  }

  /** The disconnect scenario with the port in the host: `127.0.0.1:4444`. */
  lemma DisconnectHostPortExample()
    ensures DisconnectTarget("127.0.0.1:4444", NoPort) == ("127.0.0.1", PortNumber(4444))
  {
    assert ':' !in "127.0.0.1";
    PortText4444();
    assert "127.0.0.1" + ":" + "4444" == "127.0.0.1:4444";
    DisconnectFormsAgree("127.0.0.1", 4444, NoPort);
  }

  /** `connect('h:1:2')` keeps the second piece as the port and drops the rest. */
  lemma ConnectExtraPiecesExample()
    ensures ConnectTarget("h:1:2", NoPort) == ("h", PortText("1"))
  {
    var parts := ["h", "1", "2"];
    assert Join(parts[2..], ':') == "2";
    assert Join(parts[1..], ':') == "1:2";
    assert Join(parts, ':') == "h:1:2";
    SplitJoin(parts, ':');
  }

  /** An empty embedded port (`connect('h:', 4444)`) falls back to 5555, and
      overrides the port passed separately. */
  lemma ConnectEmptyPortExample()
    ensures ConnectTarget("h:", PortNumber(4444)) == ("h", PortNumber(AdbDefaultPort))
  {
    assert "h" + ":" + "" == "h:";
    SplitHostPort("h", "");
  }

  /** An embedded port reading as 0 (`disconnect('h:0', 4444)`) falls back to 5555. */
  lemma DisconnectZeroPortExample()
    ensures DisconnectTarget("h:0", PortNumber(4444)) == ("h", PortNumber(DisconnectDefaultPort))
  {
    assert "h" + ":" + "0" == "h:0";
    SplitHostPort("h", "0");
    assert ToNumber("0") == Num(0);
  }

  /** An embedded port that is not a number (`disconnect('h:abc')`) falls back to 5555. */
  lemma DisconnectNaNPortExample()
    ensures DisconnectTarget("h:abc", NoPort) == ("h", PortNumber(DisconnectDefaultPort))
  {
    assert "h" + ":" + "abc" == "h:abc";
    SplitHostPort("h", "abc");
    var t := "abc";
    assert !IsDigit(t[0]) && !IsSpace(t[0]) && !IsSpace(t[2]);
    TrimNoEdgeSpace(t);
    assert !AllDigits(t);
    assert TrimmedNumber(t) == NaN;
  }

  /** `tcpip(serial, port, cb)`: a function in the port position becomes the
      callback and the port becomes 5555; every other port value, absent
      included, is passed on as given with `cb`. */
  function TcpipArgs(port: PortArg, cb: Option<nat>): (r: (PortArg, Option<nat>))
    ensures !r.0.PortCallback?
    ensures port.PortCallback? ==> r.1 == Some(port.callback)
    ensures port.PortCallback? ==> r.0 == PortNumber(AdbDefaultPort)
    ensures !port.PortCallback? ==> r == (port, cb)
  {
    if port.PortCallback? then (PortNumber(AdbDefaultPort), Some(port.callback)) else (port, cb)
  }

  /** The overloads agree: `tcpip(serial, cb)` is `tcpip(serial, 5555, cb)`.
      Unlike `connect` and `disconnect`, an absent port gets no default. */
  lemma TcpipFormsAgree(f: nat, cb: Option<nat>, host: string)
    requires ':' !in host
    ensures TcpipArgs(PortCallback(f), cb) == TcpipArgs(PortNumber(AdbDefaultPort), Some(f))
    ensures TcpipArgs(NoPort, cb) == (NoPort, cb)
    ensures ConnectTarget(host, NoPort).1 == PortNumber(AdbDefaultPort)
  {
  }

  // ------------------------------------------------------------ uninstall

  /** The overloaded `options` argument of `uninstall`: absent (or another
      falsy value), a callback, or an options object. */
  datatype OptionsArg = NoOptions | OptionsCallback(callback: nat) | OptionsGiven(options: UninstallOptions)

  /** `uninstall`'s normalisation as written: a function or a falsy value in
      the options position is copied into `cb`, so an absent options argument
      discards the callback passed after it. */
  function UninstallArgsAsWritten(options: OptionsArg, cb: Option<nat>): (r: (Option<UninstallOptions>, Option<nat>))
    ensures options.OptionsGiven? ==> r == (Some(options.options), cb)
    ensures !options.OptionsGiven? ==> r.0.None?
  {
    match options
    case OptionsCallback(f) => (None, Some(f))
    case NoOptions => (None, None)
    case OptionsGiven(o) => (Some(o), cb)
  }

  /** The callback is lost when the options are absent. */
  lemma UninstallArgsAsWrittenDropsCallback(cb: nat)
    ensures UninstallArgsAsWritten(NoOptions, Some(cb)).1 == None
  {
  }

  /** `uninstall`'s normalisation with a falsy options argument leaving `cb` alone. */
  function UninstallArgs(options: OptionsArg, cb: Option<nat>): (r: (Option<UninstallOptions>, Option<nat>))
    ensures options.OptionsGiven? ==> r == (Some(options.options), cb)
    ensures !options.OptionsGiven? ==> r.0.None?
  {
    match options
    case OptionsCallback(f) => (None, Some(f))
    case NoOptions => (None, cb)
    case OptionsGiven(o) => (Some(o), cb)
  }

  /** With the correction every callback given reaches the command: the one
      in the options position if there is one, else the trailing one; and the
      command built is the one for the options given. */
  lemma UninstallArgsKeepsCallback(options: OptionsArg, cb: Option<nat>, pkg: string)
    ensures UninstallArgs(options, cb).1 == if options.OptionsCallback? then Some(options.callback) else cb
    ensures options.OptionsGiven? || options.OptionsCallback? || cb.None?
            ==> UninstallArgs(options, cb) == UninstallArgsAsWritten(options, cb)
    ensures Execute(NewUninstall(), pkg, UninstallArgs(options, cb).0)
            == Execute(NewUninstall(), pkg, if options.OptionsGiven? then Some(options.options) else None)
  {
  }

  // --------------------------------------------------------------- monkey

  /** The monkey port on the device, and how many times `openMonkey` tries to
      open it. */
  const MonkeyPort := 1080
  const MonkeyAttempts := 20

  /** `tryConnect(times)`: attempt `next` opens the socket on `port` (the
      result comes from `openTcp`); on failure it retries while the
      decremented count is non-zero and otherwise rethrows the last error.
      The result is the outcome and the number of attempts made. */
  function TryConnect(times: nat, next: nat, port: int, openTcp: (int, nat) -> Outcome<nat>): (r: (Outcome<nat>, nat))
    requires times >= 1
    ensures 1 <= r.1 <= times
    ensures r.0 == openTcp(port, next + r.1 - 1)
    ensures forall i :: next <= i < next + r.1 - 1 ==> openTcp(port, i).Err?
    ensures r.0.Err? ==> r.1 == times
    decreases times
  {
    var attempt := openTcp(port, next);
    if attempt.Ok? then (attempt, 1)
    else if times - 1 != 0 then
      var rest := TryConnect(times - 1, next + 1, port, openTcp);
      (rest.0, rest.1 + 1)
    else (attempt, 1)
  }

  /** `openMonkey(serial)`: first the transport and `MonkeyCommand` step that
      starts monkey on the device's port (its result comes from `start`);
      when that fails `openMonkey` fails with its error and opens nothing;
      otherwise `tryConnect(20)` opens the same port (each attempt's result
      comes from `openTcp`). The result is the outcome and the number of
      `openTcp` attempts made. */
  function OpenMonkey(start: int -> Outcome<()>, openTcp: (int, nat) -> Outcome<nat>): (r: (Outcome<nat>, nat))
    ensures start(MonkeyPort).Err? ==> r == (Err(start(MonkeyPort).error), 0)
    ensures r.1 <= MonkeyAttempts
  {
    var started := start(MonkeyPort);
    if started.Err? then (Err(started.error), 0)
    else TryConnect(MonkeyAttempts, 0, MonkeyPort, openTcp)
  }

  /** `openMonkey` connects exactly when the monkey step succeeds and one of
      the twenty attempts on port 1080 opens, and then with the first socket
      that opened; after a successful monkey step it otherwise fails with the
      twentieth attempt's error. */
  lemma OpenMonkeyAttempts(start: int -> Outcome<()>, openTcp: (int, nat) -> Outcome<nat>)
    ensures var (outcome, used) := OpenMonkey(start, openTcp);
            && (outcome.Ok? <==> start(MonkeyPort).Ok? && exists i :: 0 <= i < MonkeyAttempts && openTcp(MonkeyPort, i).Ok?)
            && (outcome.Ok? ==>
                  outcome == openTcp(MonkeyPort, used - 1) && forall i :: 0 <= i < used - 1 ==> openTcp(MonkeyPort, i).Err?)
            && (outcome.Err? && start(MonkeyPort).Ok? ==> outcome == openTcp(MonkeyPort, MonkeyAttempts - 1))
  {
    if start(MonkeyPort).Ok? {
      var (outcome, used) := TryConnect(MonkeyAttempts, 0, MonkeyPort, openTcp);
      if outcome.Ok? {
        assert openTcp(MonkeyPort, used - 1).Ok?;
      }
    }
  }

  // ----------------------------------------------------------------- exec

  /** `${bin} ${args.join(' ')}`. */
  function ExecCommandLine(bin: string, args: seq<string>): string
  {
    bin + " " + Join(args, ' ')
  }

  /** The command line splits back at its spaces into the binary and the
      arguments when none of them holds a space. */
  lemma ExecCommandLineSplits(bin: string, args: seq<string>)
    requires |args| > 0 && ' ' !in bin
    requires forall i :: 0 <= i < |args| ==> ' ' !in args[i]
    ensures Split(ExecCommandLine(bin, args), ' ') == [bin] + args
  {
    var parts := [bin] + args;
    assert parts[1..] == args;
    assert Join(parts, ' ') == ExecCommandLine(bin, args);
    SplitJoin(parts, ' ');
  }

  /** What the child process reports: its error, stdout and stderr. */
  datatype ProcessResult = ProcessResult(error: Option<string>, stdout: string, stderr: string)

  /** `execInternal`'s verdict: a process error rejects with it; any stderr
      output rejects with its trimmed text; stdout mentioning `Error` rejects
      with its trimmed text; otherwise stdout is the value, untrimmed. */
  function ExecInternal(p: ProcessResult): (r: Outcome<string>)
    ensures r.Ok? <==> p.error.None? && p.stderr == [] && !Contains(p.stdout, "Error")
    ensures r.Ok? ==> r.value == p.stdout
    ensures p.error.Some? ==> r == Err(Rejected(p.error.value))
    ensures r.Err? && p.error.None? ==> r.error.Rejected? && (r.error.message == Trim(p.stderr) || r.error.message == Trim(p.stdout))
    ensures p.error.None? && p.stderr != [] ==> r == Err(Rejected(Trim(p.stderr)))
  {
    if p.error.Some? then Err(Rejected(p.error.value))
    else if p.stderr != [] then Err(Rejected(Trim(p.stderr)))
    else if Contains(p.stdout, "Error") then Err(Rejected(Trim(p.stdout)))
    else Ok(p.stdout)
  }

  /** A resolved value never contains `Error` anywhere, and any stdout that
      does contain it, on a clean run, rejects with a message free of the
      surrounding whitespace. */
  lemma ExecInternalErrorText(p: ProcessResult)
    ensures ExecInternal(p).Ok? ==> forall i :: !OccursAt(ExecInternal(p).value, "Error", i)
    ensures p.error.None? && p.stderr == [] && (exists i :: OccursAt(p.stdout, "Error", i))
            ==> ExecInternal(p) == Err(Rejected(Trim(p.stdout)))
  {
    ContainsIff(p.stdout, "Error");
  }
}

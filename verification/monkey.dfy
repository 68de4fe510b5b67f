/** The monkey client: commands are written to the monkey socket one per line
    and queued with their callbacks; each reply the parser reports is handed
    to the oldest queued command. A 500 ms timer armed by `send` answers the
    oldest command with a `Command failed` error if no data arrives first.

    The socket, the parser and the clock are not modelled: the socket is a
    connected flag plus the lines written to it, the parser's output enters
    as a list of replies, and a timer firing is an operation of its own. A
    callback is identified by a number; invoking it appends a `Called` event. */
module Monkey {
  import opened Types

  /** A parsed monkey reply: a value (possibly absent) or an error message. */
  datatype MonkeyReply = Answer(value: Option<string>) | Failure(message: string)

  /** A queued command: its text and its callback, if one was given. */
  datatype Pending = Pending(command: string, callback: Option<nat>)

  /** What the client makes observable: a callback invocation
      `callback(error, value, command)`, or an emitted event. */
  datatype Event =
    | Called(callback: nat, error: Option<string>, value: Option<string>, command: string)
    | Emitted(name: string, message: Option<string>)

  /** The client's state. `live` holds the timers that will still fire;
      `timer` is the handle of the most recent one, the only one that
      `clearTimeout` can reach. */
  datatype Session = Session(
    queue: seq<Pending>,
    connected: bool,
    written: seq<string>,
    ended: bool,
    live: set<nat>,
    timer: Option<nat>,
    nextTimer: nat,
    events: seq<Event>)

  const CommandFailed := "Command failed"
  const QueueDepleted := "Command queue depleted, but replies still coming in"

  /** A client that has not been connected yet. */
  function NewSession(): (m: Session)
    ensures m.queue == [] && !m.connected && m.live == {} && m.events == []
    ensures TimersIssued(m)
  {
    Session([], false, [], false, {}, None, 0, [])
  }

  /** `connect(socket)`: the client now has a stream. */
  function Connect(m: Session): (r: Session)
    ensures r.connected && r.queue == m.queue && r.events == m.events
    ensures r.written == m.written && r.ended == m.ended
    ensures r.live == m.live && r.timer == m.timer && r.nextTimer == m.nextTimer
  {
    m.(connected := true)
  }

  /** Enqueues the commands one by one, writing each as a line after queueing
      it; the stream getter throws on the first write when there is no stream. */
  function Enqueue(m: Session, commands: seq<string>, cb: Option<nat>): (r: (Session, Outcome<()>))
    ensures r.0.connected == m.connected && r.0.live == m.live && r.0.timer == m.timer
    ensures r.0.events == m.events && r.0.ended == m.ended && r.0.nextTimer == m.nextTimer
    ensures r.1.Err? <==> !m.connected && |commands| > 0
    ensures r.1.Err? ==> r.1.error == NotConnected
    decreases |commands|
  {
    if |commands| == 0 then (m, Ok(()))
    else
      var queued := m.(queue := m.queue + [Pending(commands[0], cb)]);
      if !m.connected then (queued, Err(NotConnected))
      else Enqueue(queued.(written := m.written + [commands[0] + "\n"]), commands[1..], cb)
  }

  /** Every timer still armed has a handle below the next one to be issued,
      so a newly armed timer is never one that is already live. */
  predicate TimersIssued(m: Session) {
    forall id :: id in m.live ==> id < m.nextTimer
  }

  /** `send(commands, cb)`: queues and writes every command, then arms a new
      timer whose handle replaces the previous one. A throw from the stream
      getter leaves the timer unarmed. */
  function Send(m: Session, commands: seq<string>, cb: Option<nat>): (r: (Session, Outcome<()>))
    ensures r.0.connected == m.connected && r.0.events == m.events
    ensures r.1.Err? <==> !m.connected && |commands| > 0
    ensures r.1.Err? ==> r.1.error == NotConnected && r.0.timer == m.timer && r.0.live == m.live
    ensures r.1.Ok? ==> r.0.timer == Some(m.nextTimer) && r.0.live == m.live + {m.nextTimer}
    ensures r.0.nextTimer == if r.1.Ok? then m.nextTimer + 1 else m.nextTimer
    ensures TimersIssued(m) ==> TimersIssued(r.0)
    ensures TimersIssued(m) && r.1.Ok? ==> r.0.timer.value !in m.live
  {
    var (q, outcome) := Enqueue(m, commands, cb);
    if outcome.Err? then (q, outcome)
    else (q.(live := q.live + {q.nextTimer}, timer := Some(q.nextTimer), nextTimer := q.nextTimer + 1), outcome)
  }

  /** `clearTimeout(this.timeout)`: disarms the most recent timer only. */
  function ClearTimer(m: Session): (r: Session)
    ensures r.live == if m.timer.Some? then m.live - {m.timer.value} else m.live
    ensures r == m.(live := r.live)
  {
    if m.timer.Some? then m.(live := m.live - {m.timer.value}) else m
  }

  /** `end()`: clears the timer and ends the stream; the stream getter throws
      when there is none. */
  function End(m: Session): (r: (Session, Outcome<()>))
    ensures r.1.Ok? <==> m.connected
    ensures r.1.Ok? ==> r.0 == ClearTimer(m).(ended := true)
    ensures r.1.Err? ==> r.0 == ClearTimer(m) && r.1.error == NotConnected
  {
    var cleared := ClearTimer(m);
    if m.connected then (cleared.(ended := true), Ok(())) else (cleared, Err(NotConnected))
  }

  /** The callback invocations one reply causes for one queued command. */
  function Notification(p: Pending, reply: MonkeyReply): seq<Event>
  {
    match p.callback
    case None => []
    case Some(cb) =>
      match reply
      case Failure(message) => [Called(cb, Some(message), None, p.command)]
      case Answer(value) => [Called(cb, None, value, p.command)]
  }

  /** `consume(reply)`: the oldest command receives the reply. With nothing
      queued the client ends itself and emits the depleted-queue error. */
  function Consume(m: Session, reply: MonkeyReply): (r: (Session, Outcome<()>))
    ensures |m.queue| > 0 ==>
              r.1.Ok? && r.0 == m.(queue := m.queue[1..], events := m.events + Notification(m.queue[0], reply))
    ensures |m.queue| == 0 && m.connected ==>
              r.1.Ok? && r.0.ended && r.0.queue == []
              && r.0.events == m.events + [Emitted("error", Some(QueueDepleted))]
  {
    if |m.queue| == 0 then
      var (ended, outcome) := End(m);
      if outcome.Err? then (ended, outcome)
      else (ended.(events := ended.events + [Emitted("error", Some(QueueDepleted))]), outcome)
    else
      var p := m.queue[0];
      (m.(queue := m.queue[1..], events := m.events + Notification(p, reply)), Ok(()))
  }

  /** Consumes the replies in order, stopping at the first throw. */
  function ConsumeAll(m: Session, replies: seq<MonkeyReply>): (r: (Session, Outcome<()>))
    decreases |replies|
  {
    if |replies| == 0 then (m, Ok(()))
    else
      var (next, outcome) := Consume(m, replies[0]);
      if outcome.Err? then (next, outcome) else ConsumeAll(next, replies[1..])
  }

  /** A `data` event: the most recent timer is cleared, then the parser's
      replies are consumed. */
  function Receive(m: Session, replies: seq<MonkeyReply>): (r: (Session, Outcome<()>))
  {
    ConsumeAll(ClearTimer(m), replies)
  }

  /** A live timer fires: the oldest command fails with `Command failed`. */
  function FireTimer(m: Session, id: nat): (r: (Session, Outcome<()>))
    requires id in m.live
  {
    Consume(m.(live := m.live - {id}), Failure(CommandFailed))
  }

  /** A stream `error`, `end` or `finish` event: clears the timer and re-emits it. */
  function StreamEvent(m: Session, name: string, message: Option<string>): (r: Session)
    ensures r.queue == m.queue && r.events == m.events + [Emitted(name, message)]
    ensures m.timer.Some? ==> m.timer.value !in r.live
    ensures forall id :: id in r.live <==> id in m.live && Some(id) != m.timer
  {
    var cleared := ClearTimer(m);
    cleared.(events := cleared.events + [Emitted(name, message)])
  }

  /** The callback invocations for queued commands paired with replies in order. */
  function Notifications(ps: seq<Pending>, replies: seq<MonkeyReply>): seq<Event>
    requires |ps| == |replies|
  {
    if |ps| == 0 then [] else Notification(ps[0], replies[0]) + Notifications(ps[1..], replies[1..])
  }

  /** The queue is first-in first-out: consuming n replies with at least n
      commands queued removes the n oldest, and their callbacks see the
      replies in order; nothing else changes. */
  lemma {:induction false} ConsumeAllFifo(m: Session, replies: seq<MonkeyReply>)
    requires |replies| <= |m.queue|
    ensures var (r, outcome) := ConsumeAll(m, replies);
            && outcome.Ok?
            && r == m.(queue := m.queue[|replies|..],
                       events := m.events + Notifications(m.queue[..|replies|], replies))
    decreases |replies|
  {
    if |replies| > 0 {
      var next := m.(queue := m.queue[1..], events := m.events + Notification(m.queue[0], replies[0]));
      assert Consume(m, replies[0]) == (next, Ok(()));
      ConsumeAllFifo(next, replies[1..]);
      assert m.queue[1..][|replies| - 1..] == m.queue[|replies|..];
      assert m.queue[..|replies|][1..] == m.queue[1..][..|replies| - 1];
      assert m.events + Notification(m.queue[0], replies[0]) + Notifications(m.queue[1..][..|replies| - 1], replies[1..])
          == m.events + Notifications(m.queue[..|replies|], replies);
    }
  }

  /** When every queued command has a callback, the i-th reply reaches the
      i-th command's callback. */
  lemma NotificationsPair(ps: seq<Pending>, replies: seq<MonkeyReply>)
    requires |ps| == |replies|
    requires forall i :: 0 <= i < |ps| ==> ps[i].callback.Some?
    ensures |Notifications(ps, replies)| == |ps|
    ensures forall i :: 0 <= i < |ps| ==> Notifications(ps, replies)[i] == Notification(ps[i], replies[i])[0]
  {
    if |ps| > 0 {
      NotificationsPair(ps[1..], replies[1..]);
    }
  }

  /** On a connected client, sending writes every command as its own line
      and queues every command behind those already waiting, with the callback. */
  lemma {:induction false} EnqueueConnected(m: Session, commands: seq<string>, cb: Option<nat>)
    requires m.connected
    ensures var (r, outcome) := Enqueue(m, commands, cb);
            && outcome.Ok?
            && |r.queue| == |m.queue| + |commands|
            && r.queue[..|m.queue|] == m.queue
            && (forall i :: 0 <= i < |commands| ==> r.queue[|m.queue| + i] == Pending(commands[i], cb))
            && |r.written| == |m.written| + |commands|
            && r.written[..|m.written|] == m.written
            && (forall i :: 0 <= i < |commands| ==> r.written[|m.written| + i] == commands[i] + "\n")
            && r.nextTimer == m.nextTimer
    decreases |commands|
  {
    if |commands| > 0 {
      var next := m.(queue := m.queue + [Pending(commands[0], cb)], written := m.written + [commands[0] + "\n"]);
      EnqueueConnected(next, commands[1..], cb);
      var r := Enqueue(next, commands[1..], cb).0;
      assert r.queue[..|next.queue|] == next.queue;
      assert r.written[..|next.written|] == next.written;
      assert r.queue[..|m.queue|] == next.queue[..|m.queue|];
      assert r.written[..|m.written|] == next.written[..|m.written|];
      forall i | 0 < i < |commands|
        ensures r.queue[|m.queue| + i] == Pending(commands[i], cb)
        ensures r.written[|m.written| + i] == commands[i] + "\n"
      {
        assert commands[1..][i - 1] == commands[i];
      }
    }
  }

  /** On a client with no stream, `send` of a non-empty list queues the first
      command, writes nothing, arms no timer, and throws `NotConnectedError`. */
  lemma SendUnconnected(m: Session, commands: seq<string>, cb: Option<nat>)
    requires !m.connected && |commands| > 0
    ensures var (r, outcome) := Send(m, commands, cb);
            && outcome == Err(NotConnected)
            && r == m.(queue := m.queue + [Pending(commands[0], cb)])
  {
  }

  /** An empty list touches no stream, so even an unconnected client arms the
      timer; when it fires with nothing queued, ending the client throws. */
  lemma SendEmptyUnconnected(m: Session, cb: Option<nat>)
    requires !m.connected && m.queue == []
    ensures var (r, outcome) := Send(m, [], cb);
            && outcome.Ok? && m.nextTimer in r.live
            && FireTimer(r, m.nextTimer).1 == Err(NotConnected)
  {
  }

  /** Round trip: on a connected client with nothing queued, sending n commands
      and receiving n replies in one data event answers each command's callback
      with its own reply, empties the queue and disarms the timer. */
  lemma SendReceive(m: Session, commands: seq<string>, cb: nat, replies: seq<MonkeyReply>)
    requires m.connected && m.queue == [] && |replies| == |commands|
    ensures var sent := Send(m, commands, Some(cb));
            var (r, outcome) := Receive(sent.0, replies);
            && sent.1.Ok? && outcome.Ok?
            && r.queue == []
            && m.nextTimer !in r.live
            && |r.events| == |m.events| + |commands|
            && r.events[..|m.events|] == m.events
            && forall i :: 0 <= i < |commands| ==>
                 r.events[|m.events| + i]
                 == (match replies[i]
                     case Failure(message) => Called(cb, Some(message), None, commands[i])
                     case Answer(value) => Called(cb, None, value, commands[i]))
  {
    EnqueueConnected(m, commands, Some(cb));
    var sent := Send(m, commands, Some(cb));
    assert sent.0.queue[..|m.queue|] == [];
    var cleared := ClearTimer(sent.0);
    assert forall i :: 0 <= i < |commands| ==> cleared.queue[i] == Pending(commands[i], Some(cb));
    ConsumeAllFifo(cleared, replies);
    assert cleared.queue[..|replies|] == cleared.queue;
    NotificationsPair(cleared.queue, replies);
  }

  /** A reply with nothing queued ends the connected client and emits the
      depleted-queue error. */
  lemma ConsumeDepleted(m: Session, reply: MonkeyReply)
    requires m.connected && m.queue == []
    ensures var (r, outcome) := Consume(m, reply);
            && outcome.Ok? && r.ended && r.queue == []
            && r.events[|r.events| - 1] == Emitted("error", Some("Command queue depleted, but replies still coming in"))
  {
  }

  /** Only the latest timer's handle is kept: after three sends and one data
      event, which answers the first command and disarms only the third timer,
      the first timer is still armed, and when it fires it fails the oldest
      command still queued (the second) instead of the one it was armed for. */
  lemma StaleTimerFailsNextCommand(m: Session, first: string, second: string, third: string, cb: nat, reply: MonkeyReply)
    requires m.connected && m.queue == [] && m.nextTimer !in m.live
    ensures var s1 := Send(m, [first], Some(cb)).0;
            var s2 := Send(s1, [second], Some(cb)).0;
            var s3 := Send(s2, [third], Some(cb)).0;
            var got := Receive(s3, [reply]).0;
            && m.nextTimer in got.live
            && var (fired, _) := FireTimer(got, m.nextTimer);
               fired.queue == [Pending(third, Some(cb))]
               && |fired.events| > 0
               && fired.events[|fired.events| - 1] == Called(cb, Some("Command failed"), None, second)
  {
    var s1 := Send(m, [first], Some(cb)).0;
    SendOneConnected(m, first, Some(cb));
    var s2 := Send(s1, [second], Some(cb)).0;
    SendOneConnected(s1, second, Some(cb));
    var s3 := Send(s2, [third], Some(cb)).0;
    SendOneConnected(s2, third, Some(cb));
    assert s3.queue == [Pending(first, Some(cb)), Pending(second, Some(cb)), Pending(third, Some(cb))];
    assert s3.timer == Some(m.nextTimer + 2);
    var cleared := ClearTimer(s3);
    ConsumeAllFifo(cleared, [reply]);
    var got := Receive(s3, [reply]).0;
    assert got.queue == [Pending(second, Some(cb)), Pending(third, Some(cb))];
    assert m.nextTimer in got.live;
  }

  /** Sending one command on a connected client queues and writes it and arms
      a fresh timer. */
  lemma SendOneConnected(m: Session, command: string, cb: Option<nat>)
    requires m.connected
    ensures Send(m, [command], cb)
            == (m.(queue := m.queue + [Pending(command, cb)], written := m.written + [command + "\n"],
                   live := m.live + {m.nextTimer}, timer := Some(m.nextTimer), nextTimer := m.nextTimer + 1),
                Ok(()))
  {
    var next := m.(queue := m.queue + [Pending(command, cb)], written := m.written + [command + "\n"]);
    assert Enqueue(m, [command], cb) == Enqueue(next, [], cb);
  }

  /** A stream `error`, `end` or `finish` event after a send disarms that
      send's timer, so it can no longer fail a command; the commands stay
      queued and every earlier timer stays armed. */
  lemma SendThenStreamEvent(m: Session, commands: seq<string>, cb: Option<nat>, name: string, message: Option<string>)
    requires m.connected
    ensures var sent := Send(m, commands, cb).0;
            var r := StreamEvent(sent, name, message);
            && m.nextTimer !in r.live
            && r.live == m.live - {m.nextTimer}
            && r.queue == sent.queue
            && r.events == m.events + [Emitted(name, message)]
  {
  }
}

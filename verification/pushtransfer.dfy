/** `PushTransfer`: progress accounting for one file push. Each chunk written
    pushes its byte count on a stack; each acknowledgement pops the most
    recent count into the cumulative `bytesTransferred` and reports progress. */
module PushTransfer {

  /** The events a transfer emits: `progress` carries the stats as they stand. */
  datatype Event = Progress(bytesTransferred: int) | Cancel | End

  /** The pending-count stack (top at the end) and the stats counter. */
  datatype Transfer = Transfer(stack: seq<int>, bytesTransferred: int)

  /** A new transfer: nothing pending, nothing transferred. */
  function NewTransfer(): (t: Transfer)
    ensures t.stack == [] && t.bytesTransferred == 0
  {
    Transfer([], 0)
  }

  /** `push(byteCount)`: the count goes on top of the stack; the stats do not move. */
  function Push(t: Transfer, byteCount: int): (r: Transfer)
    ensures r.stack == t.stack + [byteCount]
    ensures r.bytesTransferred == t.bytesTransferred
  {
    t.(stack := t.stack + [byteCount])
  }

  /** `pop()`: removes the most recent count and adds it to the stats (an
      empty stack adds 0), then emits one `progress` event with the new stats. */
  function Pop(t: Transfer): (r: (Transfer, Event))
    ensures |t.stack| > 0 ==>
              r.0.stack == t.stack[..|t.stack| - 1] && r.0.bytesTransferred == t.bytesTransferred + t.stack[|t.stack| - 1]
    ensures |t.stack| == 0 ==> r.0 == t
    ensures r.1 == Progress(r.0.bytesTransferred)
  {
    var byteCount := if |t.stack| > 0 then t.stack[|t.stack| - 1] else 0;
    var next := Transfer(if |t.stack| > 0 then t.stack[..|t.stack| - 1] else [], t.bytesTransferred + byteCount);
    (next, Progress(next.bytesTransferred))
  }

  /** `cancel()`: emits `cancel`; stack and stats stay as they are. */
  function CancelTransfer(t: Transfer): (r: (Transfer, Event))
    ensures r.0 == t && r.1 == Cancel
  {
    (t, Cancel)
  }

  /** `end()`: emits `end`; stack and stats stay as they are. */
  function EndTransfer(t: Transfer): (r: (Transfer, Event))
    ensures r.0 == t && r.1 == End
  {
    (t, End)
  }

  /** Pushes several counts in order. */
  function PushAll(t: Transfer, counts: seq<int>): (r: Transfer)
    decreases |counts|
  {
    if |counts| == 0 then t else PushAll(Push(t, counts[0]), counts[1..])
  }

  /** Pops `n` times, collecting the events. */
  function PopN(t: Transfer, n: nat): (r: (Transfer, seq<Event>))
    ensures |r.1| == n
    decreases n
  {
    if n == 0 then (t, [])
    else
      var step := Pop(t);
      var rest := PopN(step.0, n - 1);
      (rest.0, [step.1] + rest.1)
  }

  /** The sum of the counts. */
  function Sum(counts: seq<int>): int
  {
    if |counts| == 0 then 0 else Sum(counts[..|counts| - 1]) + counts[|counts| - 1]
  }

  lemma {:induction false} PushAllStack(t: Transfer, counts: seq<int>)
    ensures PushAll(t, counts) == Transfer(t.stack + counts, t.bytesTransferred)
    decreases |counts|
  {
    if |counts| > 0 {
      PushAllStack(Push(t, counts[0]), counts[1..]);
      assert t.stack + [counts[0]] + counts[1..] == t.stack + counts;
    }
  }

  /** Popping as many times as counts were pushed on top of a stack unwinds
      exactly those counts and adds their sum to the stats. */
  lemma {:induction false} PopNUnwinds(base: seq<int>, counts: seq<int>, bytes: int)
    ensures PopN(Transfer(base + counts, bytes), |counts|).0 == Transfer(base, bytes + Sum(counts))
    decreases |counts|
  {
    if |counts| > 0 {
      var init := counts[..|counts| - 1];
      var top := counts[|counts| - 1];
      assert base + counts == (base + init) + [top];
      assert (base + counts)[..|base + counts| - 1] == base + init;
      var (next, _) := Pop(Transfer(base + counts, bytes));
      assert next == Transfer(base + init, bytes + top);
      PopNUnwinds(base, init, bytes + top);
    }
  }

  /** After pushing counts c1..cn on a new transfer and popping n times, the
      stack is empty again and `bytesTransferred` is c1 + ... + cn; the last
      progress event reports that total. */
  lemma PushThenPopTotals(counts: seq<int>)
    requires |counts| > 0
    ensures var (t, events) := PopN(PushAll(NewTransfer(), counts), |counts|);
            && t == Transfer([], Sum(counts))
            && events[|events| - 1] == Progress(Sum(counts))
  {
    PushAllStack(NewTransfer(), counts);
    assert [] + counts == counts;
    PopNUnwinds([], counts, 0);
    PopNLastEvent(PushAll(NewTransfer(), counts), |counts|);
  }

  /** The last of the events collected by popping reports the final stats. */
  lemma {:induction false} PopNLastEvent(t: Transfer, n: nat)
    requires n > 0
    ensures PopN(t, n).1[n - 1] == Progress(PopN(t, n).0.bytesTransferred)
    decreases n
  {
    if n > 1 {
      PopNLastEvent(Pop(t).0, n - 1);
    }
  }

  predicate AllNonNegative(counts: seq<int>) {
    forall i :: 0 <= i < |counts| ==> counts[i] >= 0
  }

  /** With non-negative counts `bytesTransferred` never decreases: each
      progress event reports at least what the one before it did. */
  lemma {:induction false} PopNMonotone(t: Transfer, n: nat)
    requires AllNonNegative(t.stack)
    ensures var (last, events) := PopN(t, n);
            && last.bytesTransferred >= t.bytesTransferred
            && AllNonNegative(last.stack)
            && (forall i :: 0 <= i < n ==> events[i].Progress? && events[i].bytesTransferred >= t.bytesTransferred)
            && (forall i :: 0 <= i < n - 1 ==> events[i].bytesTransferred <= events[i + 1].bytesTransferred)
    decreases n
  {
    if n > 0 {
      var (next, e) := Pop(t);
      assert next.bytesTransferred >= t.bytesTransferred;
      assert AllNonNegative(next.stack);
      PopNMonotone(next, n - 1);
      var (last, es) := PopN(next, n - 1);
      assert PopN(t, n).1 == [e] + es;
      if n > 1 {
        PopNFirstEvent(next, n - 1);
      }
    }
  }

  /** The first event collected by popping reports the stats after one pop. */
  lemma PopNFirstEvent(t: Transfer, n: nat)
    requires n > 0
    ensures PopN(t, n).1[0] == Pop(t).1
  {
  }
  /** One call on a transfer. */
  datatype Call = PushCall(byteCount: int) | PopCall | CancelCall | EndCall

  /** One call and the events it emits. */
  function Apply(t: Transfer, call: Call): (Transfer, seq<Event>)
  {
    match call
    case PushCall(n) => (Push(t, n), [])
    case PopCall => var step := Pop(t); (step.0, [step.1])
    case CancelCall => var step := CancelTransfer(t); (step.0, [step.1])
    case EndCall => var step := EndTransfer(t); (step.0, [step.1])
  }

  /** A sequence of calls, collecting the events in order. */
  function Run(t: Transfer, calls: seq<Call>): (Transfer, seq<Event>)
    decreases |calls|
  {
    if |calls| == 0 then (t, [])
    else
      var step := Apply(t, calls[0]);
      var rest := Run(step.0, calls[1..]);
      (rest.0, step.1 + rest.1)
  }

  /** The bytes a transfer accounts for: those transferred plus those pending. */
  function Accounted(t: Transfer): int
  {
    t.bytesTransferred + Sum(t.stack)
  }

  /** The total of the counts pushed by a sequence of calls. */
  function Pushed(calls: seq<Call>): int
    decreases |calls|
  {
    if |calls| == 0 then 0
    else (if calls[0].PushCall? then calls[0].byteCount else 0) + Pushed(calls[1..])
  }

  /** `push(n)` grows the accounted bytes by n; `pop`, `cancel` and `end`
      leave them as they are: a pop only moves a count from pending to
      transferred. */
  lemma ApplyAccounted(t: Transfer, call: Call)
    ensures Accounted(Apply(t, call).0) == Accounted(t) + (if call.PushCall? then call.byteCount else 0)
  {
    match call
    case PushCall(n) =>
      assert (t.stack + [n])[..|t.stack|] == t.stack;
    case PopCall =>
    case CancelCall =>
    case EndCall =>
  }

  /** Over any sequence of calls the accounted bytes grow by exactly the
      counts pushed. */
  lemma {:induction false} RunAccounted(t: Transfer, calls: seq<Call>)
    ensures Accounted(Run(t, calls).0) == Accounted(t) + Pushed(calls)
    decreases |calls|
  {
    if |calls| > 0 {
      ApplyAccounted(t, calls[0]);
      RunAccounted(Apply(t, calls[0]).0, calls[1..]);
    }
  }

  /** The calls without the `cancel` and `end` calls. */
  function WithoutSignals(calls: seq<Call>): (r: seq<Call>)
    ensures forall i :: 0 <= i < |r| ==> r[i].PushCall? || r[i].PopCall?
    decreases |calls|
  {
    if |calls| == 0 then []
    else (if calls[0].PushCall? || calls[0].PopCall? then [calls[0]] else []) + WithoutSignals(calls[1..])
  }

  /** The `progress` events among some events, in order. */
  function ProgressEvents(events: seq<Event>): (r: seq<Event>)
    ensures forall i :: 0 <= i < |r| ==> r[i].Progress?
    decreases |events|
  {
    if |events| == 0 then []
    else (if events[0].Progress? then [events[0]] else []) + ProgressEvents(events[1..])
  }

  lemma {:induction false} ProgressEventsConcat(a: seq<Event>, b: seq<Event>)
    ensures ProgressEvents(a + b) == ProgressEvents(a) + ProgressEvents(b)
    decreases |a|
  {
    if |a| > 0 {
      assert (a + b)[1..] == a[1..] + b;
      ProgressEventsConcat(a[1..], b);
    } else {
      assert a + b == b;
    }
  }

  /** `cancel` and `end` are inert: dropping them from any sequence of calls
      leaves the final stack and statistics unchanged, and the progress
      events are exactly those the calls without them emit. */
  lemma {:induction false} SignalsInert(t: Transfer, calls: seq<Call>)
    ensures Run(t, WithoutSignals(calls)).0 == Run(t, calls).0
    ensures Run(t, WithoutSignals(calls)).1 == ProgressEvents(Run(t, calls).1)
    decreases |calls|
  {
    if |calls| > 0 {
      var c := calls[0];
      var step := Apply(t, c);
      SignalsInert(step.0, calls[1..]);
      ProgressEventsConcat(step.1, Run(step.0, calls[1..]).1);
      var rest := WithoutSignals(calls[1..]);
      if c.PushCall? || c.PopCall? {
        assert WithoutSignals(calls) == [c] + rest;
        assert ([c] + rest)[1..] == rest;
        assert ProgressEvents(step.1) == step.1;
      } else {
        assert WithoutSignals(calls) == rest;
        assert step.0 == t;
        assert ProgressEvents(step.1) == [];
      }
    } else {
      assert ProgressEvents([]) == [];
    }
  }
}

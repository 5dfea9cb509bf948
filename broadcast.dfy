/**
  The broadcast stream behind the subjects and relays of the playgrounds, as a pure
  state machine. A stream has an ordered list of active subscribers, a replay buffer
  whose shape depends on the replay policy, and a terminal status. Each subscriber's
  callback output is its trace: the events it has received, in order. All callback
  invocations together form the stream's output log, in the order they ran; each
  operation adds its own invocations to the log, and the part of the log addressed
  to one subscriber is exactly that subscriber's trace.
*/
module Broadcast {
  import opened Results

  /** What a stream delivers: an element, or one of the two terminal events. */
  datatype Event<T, E> = Next(value: T) | Error(error: E) | Completed

  /** What a new subscriber is given at once: nothing (publish), the current value
      (behavior), or up to `size` of the newest elements (replay). */
  datatype Policy = NoReplay | Latest | Buffer(size: nat)

  /** The terminal flag: still running, ended by an error, or completed. */
  datatype Status<E> = Live | Failed(error: E) | Done

  /** One callback invocation: `event` handed to subscriber `subscriber`. */
  datatype Delivery<T, E> = Delivery(subscriber: nat, event: Event<T, E>)

  /** The whole stream. Subscriber identities are handed out in order from 0, so the
      identity of a subscriber is its index in `traces`, and `|traces|` is the next
      identity to hand out. */
  datatype State<T, E> = State(
    policy: Policy,
    active: seq<nat>,
    buffer: seq<T>,
    status: Status<E>,
    traces: seq<seq<Event<T, E>>>)

  /** A call made on a stream by the code that owns it. */
  datatype Op<T, E> = Subscribe | Emit(event: Event<T, E>) | Dispose(id: nat)

  /** No two positions of `s` hold the same value. */
  predicate Distinct<T(==)>(s: seq<T>) {
    forall i, j :: 0 <= i < j < |s| ==> s[i] != s[j]
  }

  predicate Increasing(s: seq<nat>) {
    forall i, j :: 0 <= i < j < |s| ==> s[i] < s[j]
  }

  /** `Increasing`, stated one neighbour pair at a time from the end. */
  predicate Ascending(s: seq<nat>)
    decreases |s|
  {
    |s| <= 1 || (Ascending(s[..|s| - 1]) && s[|s| - 2] < s[|s| - 1])
  }

  lemma {:induction false} AscendingIncreasing(s: seq<nat>)
    requires Ascending(s)
    ensures Increasing(s) && Distinct(s)
    decreases |s|
  {
    if |s| > 1 {
      var init := s[..|s| - 1];
      AscendingIncreasing(init);
      forall i, j | 0 <= i < j < |s| ensures s[i] < s[j] {
        if j < |s| - 1 {
          assert s[i] == init[i] && s[j] == init[j];
        } else if i < |s| - 2 {
          assert s[i] == init[i] && s[|s| - 2] == init[|s| - 2];
        }
      }
    }
  }

  lemma {:induction false} IncreasingAscending(s: seq<nat>)
    requires Increasing(s)
    ensures Ascending(s)
    decreases |s|
  {
    if |s| > 1 {
      var init := s[..|s| - 1];
      assert Increasing(init) by {
        forall i, j | 0 <= i < j < |init| ensures init[i] < init[j] {
          assert init[i] == s[i] && init[j] == s[j];
        }
      }
      IncreasingAscending(init);
    }
  }

  /** The replay buffer has the shape its policy prescribes. */
  predicate BufferFits<T>(policy: Policy, buffer: seq<T>) {
    match policy
    case NoReplay => buffer == []
    case Latest => |buffer| == 1
    case Buffer(n) => |buffer| <= n
  }

  // ---------------------------------------------------------------------------
  // Output log

  /** The events the log hands to subscriber `id`, in delivery order. */
  function Trace<T, E>(log: seq<Delivery<T, E>>, id: nat): seq<Event<T, E>> {
    if log == [] then []
    else
      var last := log[|log| - 1];
      Trace(log[..|log| - 1], id) + (if last.subscriber == id then [last.event] else [])
  }

  /** What subscriber `id` has received according to `traces`: nothing, for an identity
      not handed out yet. */
  function TraceOf<T, E>(traces: seq<seq<Event<T, E>>>, id: nat): seq<Event<T, E>> {
    if id < |traces| then traces[id] else []
  }

  /** The log is the interleaving of the traces: what it hands to each subscriber is
      that subscriber's trace, and it hands nothing to an identity not handed out. */
  ghost predicate LogMatches<T, E>(log: seq<Delivery<T, E>>, traces: seq<seq<Event<T, E>>>) {
    forall id: nat {:trigger Trace(log, id)} :: Trace(log, id) == TraceOf(traces, id)
  }

  /** The invariant every reachable stream keeps: the active subscribers are in
      subscription order and were handed out already, a terminated stream has nobody
      left to notify, and the buffer fits its policy. */
  predicate WellFormed<T, E>(s: State<T, E>) {
    && Ascending(s.active)
    && (s.active != [] ==> s.active[|s.active| - 1] < |s.traces|)
    && (!s.status.Live? ==> s.active == [])
    && BufferFits(s.policy, s.buffer)
  }

  /** A new stream: no subscribers and nothing delivered; a behavior stream starts
      with its initial value in the buffer. */
  function Initial<T, E>(policy: Policy, buffer: seq<T>): (s: State<T, E>)
    requires BufferFits(policy, buffer)
    ensures WellFormed(s) && s.status.Live? && s.active == [] && s.traces == []
    ensures s.policy == policy && s.buffer == buffer
  {
    State(policy, [], buffer, Live, [])
  }

  lemma {:induction false} TraceConcat<T, E>(a: seq<Delivery<T, E>>, b: seq<Delivery<T, E>>, id: nat)
    ensures Trace(a + b, id) == Trace(a, id) + Trace(b, id)
  {
    if b == [] {
      assert a + b == a;
    } else {
      assert (a + b)[..|a + b| - 1] == a + b[..|b| - 1];
      TraceConcat(a, b[..|b| - 1], id);
    }
  }

  /** One emission handed to every subscriber of `active`, in that order. */
  function Fanout<T, E>(active: seq<nat>, e: Event<T, E>): (r: seq<Delivery<T, E>>)
    ensures |r| == |active|
  {
    if active == [] then []
    else Fanout(active[..|active| - 1], e) + [Delivery(active[|active| - 1], e)]
  }

  /** The order of a fan-out: position `i` goes to the `i`-th active subscriber. */
  lemma {:induction false} FanoutOrder<T, E>(active: seq<nat>, e: Event<T, E>, i: nat)
    requires i < |active|
    ensures Fanout(active, e)[i] == Delivery(active[i], e)
  {
    if i < |active| - 1 {
      FanoutOrder(active[..|active| - 1], e, i);
    }
  }

  /** A fan-out to two subscribers, written out. */
  lemma FanoutPair<T, E>(a: nat, b: nat, e: Event<T, E>)
    ensures Fanout([a, b], e) == [Delivery(a, e), Delivery(b, e)]
  {
    FanoutOrder([a, b], e, 0);
    FanoutOrder([a, b], e, 1);
  }

  /** Dropping the newest element keeps a list distinct, and the dropped element does
      not occur in what is left. */
  lemma DistinctInit(s: seq<nat>)
    requires Distinct(s) && s != []
    ensures Distinct(s[..|s| - 1]) && s[|s| - 1] !in s[..|s| - 1]
  {
  }

  /** Appending one delivery extends the addressed subscriber's trace by its event. */
  lemma TraceSnoc<T, E>(log: seq<Delivery<T, E>>, d: Delivery<T, E>, id: nat)
    ensures Trace(log + [d], id) == Trace(log, id) + if d.subscriber == id then [d.event] else []
  {
    assert (log + [d])[..|log + [d]| - 1] == log;
  }

  /** Membership in a non-empty list: in its prefix, or its last element. */
  lemma InSnoc(s: seq<nat>, x: nat)
    requires s != []
    ensures x in s <==> x in s[..|s| - 1] || x == s[|s| - 1]
  {
    assert s == s[..|s| - 1] + [s[|s| - 1]];
  }

  /** Fan-out hands the event exactly once to each active subscriber, and to nobody else. */
  lemma {:induction false} FanoutTrace<T, E>(active: seq<nat>, e: Event<T, E>, id: nat)
    requires Distinct(active)
    ensures Trace(Fanout(active, e), id) == if id in active then [e] else []
  {
    if active != [] {
      var init, last := active[..|active| - 1], active[|active| - 1];
      DistinctInit(active);
      FanoutTrace(init, e, id);
      TraceSnoc(Fanout(init, e), Delivery(last, e), id);
      InSnoc(active, id);
    }
  }

  /** A run of events all handed to one subscriber. */
  function Deliveries<T, E>(id: nat, events: seq<Event<T, E>>): (r: seq<Delivery<T, E>>)
    ensures |r| == |events| && forall k :: 0 <= k < |r| ==> r[k] == Delivery(id, events[k])
  {
    seq(|events|, k requires 0 <= k < |events| => Delivery(id, events[k]))
  }

  lemma {:induction false} DeliveriesTrace<T, E>(id: nat, events: seq<Event<T, E>>, j: nat)
    ensures Trace(Deliveries(id, events), j) == if j == id then events else []
  {
    if events != [] {
      var init := events[..|events| - 1];
      DeliveriesTrace(id, init, j);
      assert Deliveries(id, events)[..|events| - 1] == Deliveries(id, init);
    }
  }

  // ---------------------------------------------------------------------------
  // Sequence helpers

  /** The newest `n` elements of `s` (all of them when there are at most `n`). */
  function Newest<T>(n: nat, s: seq<T>): (r: seq<T>)
    ensures |r| == if |s| <= n then |s| else n
    ensures r == s[|s| - |r|..]
  {
    if |s| <= n then s else s[|s| - n..]
  }

  lemma NewestOfNewest<T>(n: nat, x: seq<T>, y: seq<T>)
    ensures Newest(n, Newest(n, x) + y) == Newest(n, x + y)
  {
    var a, b := Newest(n, Newest(n, x) + y), Newest(n, x + y);
    assert |a| == |b|;
    forall i | 0 <= i < |a| ensures a[i] == b[i] {
      var nx := Newest(n, x);
      if |nx + y| - |a| + i < |nx| {
        assert a[i] == nx[|nx + y| - |a| + i];
      }
    }
  }

  /** `s` without any occurrence of `id`, order kept. */
  function Remove(s: seq<nat>, id: nat): (r: seq<nat>)
    ensures forall x :: x in r <==> x in s && x != id
    ensures |r| <= |s|
  {
    if s == [] then []
    else if s[0] == id then Remove(s[1..], id)
    else [s[0]] + Remove(s[1..], id)
  }

  /** Removing an identity keeps the others in order. */
  lemma {:induction false} RemoveKeepsIncreasing(s: seq<nat>, id: nat)
    requires Increasing(s)
    ensures Increasing(Remove(s, id))
  {
    if s != [] {
      assert Increasing(s[1..]) by {
        forall i, j | 0 <= i < j < |s[1..]| ensures s[1..][i] < s[1..][j] {
          assert s[1..][i] == s[i + 1] && s[1..][j] == s[j + 1];
        }
      }
      RemoveKeepsIncreasing(s[1..], id);
      if s[0] != id {
        var r := Remove(s[1..], id);
        assert forall x :: x in r ==> s[0] < x by {
          forall x | x in r ensures s[0] < x {
            assert x in s[1..];
            var k :| 0 <= k < |s[1..]| && s[1..][k] == x;
            assert s[k + 1] == x;
          }
        }
        assert Increasing([s[0]] + r) by {
          forall i, j | 0 <= i < j < |[s[0]] + r| ensures ([s[0]] + r)[i] < ([s[0]] + r)[j] {
            if i == 0 {
              assert ([s[0]] + r)[j] == r[j - 1];
              assert r[j - 1] in r;
            } else {
              assert ([s[0]] + r)[i] == r[i - 1] && ([s[0]] + r)[j] == r[j - 1];
            }
          }
        }
      }
    }
  }

  /** Removing an identity that is not there changes nothing. */
  lemma {:induction false} RemoveAbsent(s: seq<nat>, id: nat)
    requires id !in s
    ensures Remove(s, id) == s
  {
    if s != [] {
      assert id !in s[1..];
      RemoveAbsent(s[1..], id);
      assert [s[0]] + s[1..] == s;
    }
  }

  // ---------------------------------------------------------------------------
  // The replay policy

  /** The buffer after element `v`: publish keeps nothing, behavior keeps `v`,
      replay appends `v` and evicts the oldest beyond its size. */
  function Retain<T>(policy: Policy, buffer: seq<T>, v: T): (r: seq<T>)
    ensures BufferFits(policy, r)
  {
    match policy
    case NoReplay => []
    case Latest => [v]
    case Buffer(n) => Newest(n, buffer + [v])
  }

  function TerminalEvents<T, E>(status: Status<E>): seq<Event<T, E>> {
    match status
    case Live => []
    case Failed(e) => [Error(e)]
    case Done => [Completed]
  }

  function Nexts<T, E>(vs: seq<T>): (r: seq<Event<T, E>>)
    ensures |r| == |vs| && forall i :: 0 <= i < |vs| ==> r[i] == Next(vs[i])
  {
    seq(|vs|, i requires 0 <= i < |vs| => Next(vs[i]))
  }

  /** What a new subscriber receives at once. A publish stream gives only a stored
      terminal event; a behavior stream gives its current value while live and
      otherwise only the terminal event; a replay stream gives its buffer, oldest
      first, followed by the terminal event if there is one. */
  function Replayed<T, E>(policy: Policy, buffer: seq<T>, status: Status<E>): seq<Event<T, E>> {
    match policy
    case NoReplay => TerminalEvents(status)
    case Latest => if status.Live? then Nexts(buffer) else TerminalEvents(status)
    case Buffer(_) => Nexts(buffer) + TerminalEvents(status)
  }

  // ---------------------------------------------------------------------------
  // The operations

  /** Appends `e` to the trace of every subscriber in `active`. */
  function Deliver<T, E>(traces: seq<seq<Event<T, E>>>, active: seq<nat>, e: Event<T, E>): (r: seq<seq<Event<T, E>>>)
    ensures |r| == |traces|
    ensures forall k :: 0 <= k < |r| ==> r[k] == if k in active then traces[k] + [e] else traces[k]
  {
    seq(|traces|, k requires 0 <= k < |traces| => if k in active then traces[k] + [e] else traces[k])
  }

  /** Delivering to one more subscriber of a distinct list extends exactly its trace. */
  lemma DeliverOneMore<T, E>(traces: seq<seq<Event<T, E>>>, active: seq<nat>, i: nat, e: Event<T, E>)
    requires Distinct(active) && i < |active| && active[i] < |traces|
    ensures var d := Deliver(traces, active[..i], e);
            Deliver(traces, active[..i + 1], e) == d[active[i] := d[active[i]] + [e]]
  {
    var d := Deliver(traces, active[..i], e);
    var d' := Deliver(traces, active[..i + 1], e);
    assert active[..i + 1] == active[..i] + [active[i]];
    assert active[i] !in active[..i];
    forall k | 0 <= k < |d'| ensures d'[k] == d[active[i] := d[active[i]] + [e]][k] {
      assert (k in active[..i + 1]) <==> (k in active[..i] || k == active[i]);
    }
  }

  /** Fanning out to one more subscriber appends one delivery to what was logged. */
  lemma FanoutOneMore<T, E>(log: seq<Delivery<T, E>>, active: seq<nat>, i: nat, e: Event<T, E>)
    requires i < |active|
    ensures log + Fanout(active[..i + 1], e) == (log + Fanout(active[..i], e)) + [Delivery(active[i], e)]
  {
    assert active[..i + 1][..i] == active[..i];
  }

  /** Registers a new subscriber under the next free identity, delivers to it what
      the policy replays, and makes it active unless the stream has terminated. */
  function SubscribeStep<T, E>(s: State<T, E>): (State<T, E>, nat) {
    var id := |s.traces|;
    (s.(active := if s.status.Live? then s.active + [id] else s.active,
        traces := s.traces + [Replayed(s.policy, s.buffer, s.status)]),
     id)
  }

  /** Ignores the event once terminated; otherwise updates the buffer (for an element)
      or the terminal flag (for an error or completion), delivers the event to every
      active subscriber, and after a terminal event forgets all subscribers. */
  function EmitStep<T, E>(s: State<T, E>, e: Event<T, E>): State<T, E> {
    if !s.status.Live? then s
    else
      var s' := s.(traces := Deliver(s.traces, s.active, e));
      match e
      case Next(v) => s'.(buffer := Retain(s.policy, s.buffer, v))
      case Error(err) => s'.(status := Failed(err), active := [])
      case Completed => s'.(status := Done, active := [])
  }

  /** Removes the subscriber from the active list; a no-op for an unknown handle. */
  function DisposeStep<T, E>(s: State<T, E>, id: nat): State<T, E> {
    s.(active := Remove(s.active, id))
  }

  /** The current value of a behavior stream; reading it after an error fails with
      that error. */
  function CurrentValue<T, E>(s: State<T, E>): (r: Result<T, E>)
    requires s.policy.Latest? && |s.buffer| == 1
    ensures r.Failure? <==> s.status.Failed?
    ensures r.Failure? ==> r.error == s.status.error
    ensures r.Success? ==> r.value == s.buffer[0]
  {
    match s.status
    case Failed(err) => Failure(err)
    case _ => Success(s.buffer[0])
  }

  function Step<T, E>(s: State<T, E>, op: Op<T, E>): State<T, E> {
    match op
    case Subscribe => SubscribeStep(s).0
    case Emit(e) => EmitStep(s, e)
    case Dispose(id) => DisposeStep(s, id)
  }

  function Run<T, E>(s: State<T, E>, ops: seq<Op<T, E>>): State<T, E>
    decreases |ops|
  {
    if ops == [] then s else Run(Step(s, ops[0]), ops[1..])
  }

  /** The callback invocations a subscription makes, in order: the replayed events,
      all to the new subscriber. */
  function SubscribeOutput<T, E>(s: State<T, E>): seq<Delivery<T, E>> {
    Deliveries(|s.traces|, Replayed(s.policy, s.buffer, s.status))
  }

  /** The callback invocations an emission makes, in order: none once terminated,
      otherwise one per active subscriber in subscription order. */
  function EmitOutput<T, E>(s: State<T, E>, e: Event<T, E>): seq<Delivery<T, E>> {
    if s.status.Live? then Fanout(s.active, e) else []
  }

  function StepOutput<T, E>(s: State<T, E>, op: Op<T, E>): seq<Delivery<T, E>> {
    match op
    case Subscribe => SubscribeOutput(s)
    case Emit(e) => EmitOutput(s, e)
    case Dispose(_) => []
  }

  /** Every callback invocation a run of operations makes, in order. */
  function Output<T, E>(s: State<T, E>, ops: seq<Op<T, E>>): seq<Delivery<T, E>>
    decreases |ops|
  {
    if ops == [] then [] else StepOutput(s, ops[0]) + Output(Step(s, ops[0]), ops[1..])
  }

  // ---------------------------------------------------------------------------
  // What each operation does

  /** What a new subscriber is handed: elements only, except that a terminated stream
      ends the replay with its terminal event; a replay stream hands out its whole
      buffer, a live behavior stream its value, and a publish stream no element. */
  lemma ReplayedShape<T, E>(policy: Policy, buffer: seq<T>, status: Status<E>)
    ensures var r := Replayed(policy, buffer, status);
            && |r| == (if policy.Buffer? || (policy.Latest? && status.Live?) then |buffer| else 0)
                      + (if status.Live? then 0 else 1)
            && (forall k :: 0 <= k < |r| ==> (r[k].Next? <==> status.Live? || k < |r| - 1))
            && (forall k :: 0 <= k < |r| && r[k].Next? ==> k < |buffer| && r[k].value == buffer[k])
            && (!status.Live? ==> r[|r| - 1] == if status.Failed? then Error(status.error) else Completed)
  {
  }

  /** `subscribe`: the new subscriber gets the next identity, which no active subscriber
      holds; it is handed the replay, it becomes active exactly when the stream is live,
      and nothing else changes. */
  lemma SubscribeSpec<T, E>(s: State<T, E>)
    requires WellFormed(s)
    ensures var (s', id) := SubscribeStep(s);
            && id == |s.traces| && id !in s.active
            && |s'.traces| == id + 1 && s'.traces[id] == Replayed(s.policy, s.buffer, s.status)
            && (forall j :: 0 <= j < id ==> s'.traces[j] == s.traces[j])
            && (forall j :: j in s'.active <==> j in s.active || (j == id && s.status.Live?))
            && s'.policy == s.policy && s'.buffer == s.buffer && s'.status == s.status
  {
    ActiveFacts(s);
  }

  /** `on(event)`: ignored once terminated; otherwise every active subscriber, and only
      those, receives the event; an element updates the buffer and keeps the stream
      live, a terminal event records the outcome and forgets every subscriber. */
  lemma EmitSpec<T, E>(s: State<T, E>, e: Event<T, E>)
    ensures var s' := EmitStep(s, e);
            && (!s.status.Live? ==> s' == s)
            && |s'.traces| == |s.traces| && s'.policy == s.policy
            && (s.status.Live? ==> forall k :: 0 <= k < |s.traces| ==>
                  s'.traces[k] == if k in s.active then s.traces[k] + [e] else s.traces[k])
            && (s'.status.Live? <==> s.status.Live? && e.Next?)
            && (s.status.Live? && e.Next? ==> s'.active == s.active && s'.buffer == Retain(s.policy, s.buffer, e.value))
            && (s.status.Live? && !e.Next? ==>
                  s'.active == [] && s'.buffer == s.buffer &&
                  s'.status == if e.Error? then Failed(e.error) else Done)
  {
  }

  /** `dispose()`: the subscription stops being active and no other one changes; the
      traces, buffer and status stay as they were, and disposing a handle that is not
      active changes nothing. */
  lemma DisposeSpec<T, E>(s: State<T, E>, id: nat)
    ensures var s' := DisposeStep(s, id);
            && id !in s'.active
            && (forall j :: j != id ==> (j in s'.active <==> j in s.active))
            && s'.traces == s.traces && s'.buffer == s.buffer && s'.status == s.status
            && (id !in s.active ==> s' == s)
  {
    if id !in s.active {
      RemoveAbsent(s.active, id);
    }
  }

  // ---------------------------------------------------------------------------
  // Each operation keeps the invariant

  /** The active subscribers of a well-formed stream are distinct, in increasing
      order, and already handed out. */
  lemma ActiveFacts<T, E>(s: State<T, E>)
    requires WellFormed(s)
    ensures Increasing(s.active) && Distinct(s.active)
    ensures forall i :: 0 <= i < |s.active| ==> s.active[i] < |s.traces|
  {
    AscendingIncreasing(s.active);
  }

  lemma SubscribeKeepsWellFormed<T, E>(s: State<T, E>)
    requires WellFormed(s)
    ensures WellFormed(SubscribeStep(s).0)
  {
    var id := |s.traces|;
    if s.status.Live? {
      assert (s.active + [id])[..|s.active|] == s.active;
    }
  }

  /** The invocations a subscription makes keep the log in agreement with the traces. */
  lemma SubscribeKeepsLog<T, E>(s: State<T, E>, log: seq<Delivery<T, E>>)
    requires LogMatches(log, s.traces)
    ensures LogMatches(log + SubscribeOutput(s), SubscribeStep(s).0.traces)
  {
    var id := |s.traces|;
    var replay := Replayed(s.policy, s.buffer, s.status);
    var extra := SubscribeOutput(s);
    var traces' := SubscribeStep(s).0.traces;
    forall j: nat ensures Trace(log + extra, j) == TraceOf(traces', j) {
      DeliveriesTrace(id, replay, j);
      TraceConcat(log, extra, j);
      assert Trace(log, j) == TraceOf(s.traces, j);
    }
  }

  lemma EmitKeepsWellFormed<T, E>(s: State<T, E>, e: Event<T, E>)
    requires WellFormed(s)
    ensures WellFormed(EmitStep(s, e))
  {
  }

  /** The invocations an emission makes keep the log in agreement with the traces. */
  lemma EmitKeepsLog<T, E>(s: State<T, E>, e: Event<T, E>, log: seq<Delivery<T, E>>)
    requires WellFormed(s) && LogMatches(log, s.traces)
    ensures LogMatches(log + EmitOutput(s, e), EmitStep(s, e).traces)
  {
    ActiveFacts(s);
    if s.status.Live? {
      assert EmitOutput(s, e) == Fanout(s.active, e);
      assert EmitStep(s, e).traces == Deliver(s.traces, s.active, e);
      FanoutKeepsLog(log, s.traces, s.active, e);
    } else {
      assert log + [] == log;
    }
  }

  /** Fanning an event out to a distinct list of known subscribers appends it to the
      trace of exactly those subscribers. */
  lemma FanoutKeepsLog<T, E>(log: seq<Delivery<T, E>>, traces: seq<seq<Event<T, E>>>, active: seq<nat>, e: Event<T, E>)
    requires LogMatches(log, traces) && Distinct(active)
    requires forall i :: 0 <= i < |active| ==> active[i] < |traces|
    ensures LogMatches(log + Fanout(active, e), Deliver(traces, active, e))
  {
    var out := Fanout(active, e);
    var traces' := Deliver(traces, active, e);
    forall j: nat ensures Trace(log + out, j) == TraceOf(traces', j) {
      FanoutTrace(active, e, j);
      TraceConcat(log, out, j);
      assert Trace(log, j) == TraceOf(traces, j);
    }
  }

  /** Disposal keeps the invariant, deactivates the handle and leaves every other
      subscriber as it was. */
  lemma DisposeKeepsWellFormed<T, E>(s: State<T, E>, id: nat)
    requires WellFormed(s)
    ensures WellFormed(DisposeStep(s, id))
    ensures id !in DisposeStep(s, id).active
    ensures forall j :: j != id ==> (j in DisposeStep(s, id).active <==> j in s.active)
  {
    ActiveFacts(s);
    RemoveKeepsIncreasing(s.active, id);
    var r := Remove(s.active, id);
    IncreasingAscending(r);
    if r != [] {
      assert r[|r| - 1] in s.active;
    }
  }

  /** Disposing the same handle twice is the same as disposing it once. */
  lemma DisposeIdempotent<T, E>(s: State<T, E>, id: nat)
    ensures DisposeStep(DisposeStep(s, id), id) == DisposeStep(s, id)
  {
    RemoveAbsent(Remove(s.active, id), id);
  }

  lemma StepKeepsWellFormed<T, E>(s: State<T, E>, op: Op<T, E>)
    requires WellFormed(s)
    ensures WellFormed(Step(s, op))
    ensures |Step(s, op).traces| >= |s.traces| && Step(s, op).policy == s.policy
  {
    match op {
      case Subscribe => SubscribeKeepsWellFormed(s);
      case Emit(e) => EmitKeepsWellFormed(s, e);
      case Dispose(id) => DisposeKeepsWellFormed(s, id);
    }
  }

  lemma {:induction false} RunKeepsWellFormed<T, E>(s: State<T, E>, ops: seq<Op<T, E>>)
    requires WellFormed(s)
    ensures WellFormed(Run(s, ops))
    ensures |Run(s, ops).traces| >= |s.traces| && Run(s, ops).policy == s.policy
    decreases |ops|
  {
    if ops != [] {
      StepKeepsWellFormed(s, ops[0]);
      RunKeepsWellFormed(Step(s, ops[0]), ops[1..]);
    }
  }

  /** One step keeps the log in agreement with the traces. */
  lemma StepKeepsLog<T, E>(s: State<T, E>, op: Op<T, E>, log: seq<Delivery<T, E>>)
    requires WellFormed(s) && LogMatches(log, s.traces)
    ensures LogMatches(log + StepOutput(s, op), Step(s, op).traces)
  {
    match op {
      case Subscribe => SubscribeKeepsLog(s, log);
      case Emit(e) => EmitKeepsLog(s, e, log);
      case Dispose(id) => assert log + StepOutput(s, op) == log;
    }
  }

  /** A run's output is its first step's output followed by the output of the rest. */
  lemma OutputHead<T, E>(s: State<T, E>, ops: seq<Op<T, E>>, log: seq<Delivery<T, E>>)
    requires ops != []
    ensures log + Output(s, ops) == (log + StepOutput(s, ops[0])) + Output(Step(s, ops[0]), ops[1..])
  {
  }

  /** The whole output of a run is the interleaving of what each subscriber received
      during it: the part of it addressed to one subscriber is exactly what that
      subscriber's trace grew by. */
  lemma {:induction false} RunKeepsLog<T, E>(s: State<T, E>, ops: seq<Op<T, E>>, log: seq<Delivery<T, E>>)
    requires WellFormed(s) && LogMatches(log, s.traces)
    ensures LogMatches(log + Output(s, ops), Run(s, ops).traces)
    decreases |ops|
  {
    if ops == [] {
      assert log + [] == log;
    } else {
      StepKeepsLog(s, ops[0], log);
      StepKeepsWellFormed(s, ops[0]);
      OutputHead(s, ops, log);
      RunKeepsLog(Step(s, ops[0]), ops[1..], log + StepOutput(s, ops[0]));
    }
  }

  lemma {:induction false} RunConcat<T, E>(s: State<T, E>, a: seq<Op<T, E>>, b: seq<Op<T, E>>)
    ensures Run(s, a + b) == Run(Run(s, a), b)
    decreases |a|
  {
    if a != [] {
      assert (a + b)[0] == a[0] && (a + b)[1..] == a[1..] + b;
      RunConcat(Step(s, a[0]), a[1..], b);
    } else {
      assert a + b == b;
    }
  }

  /** Termination is final: once a stream has failed or completed, no run of operations
      changes its terminal state or its buffer. */
  lemma {:induction false} TerminalIsFinal<T, E>(s: State<T, E>, ops: seq<Op<T, E>>)
    requires !s.status.Live?
    ensures Run(s, ops).status == s.status && Run(s, ops).buffer == s.buffer
    decreases |ops|
  {
    if ops != [] {
      TerminalIsFinal(Step(s, ops[0]), ops[1..]);
    }
  }

  // ---------------------------------------------------------------------------
  // A subscriber's whole life

  /** The events a live stream forwards when the ops are run: every emitted event up to
      and including the first terminal one. */
  function Accepted<T, E>(ops: seq<Op<T, E>>): seq<Event<T, E>> {
    if ops == [] then []
    else match ops[0]
      case Emit(e) => if e.Next? then [e] + Accepted(ops[1..]) else [e]
      case _ => Accepted(ops[1..])
  }

  /** What the first operation contributes to `Accepted`. */
  lemma AcceptedFirst<T, E>(ops: seq<Op<T, E>>)
    requires ops != []
    ensures Accepted(ops) == if ops[0].Emit? && !ops[0].event.Next? then [ops[0].event]
                             else (if ops[0].Emit? then [ops[0].event] else []) + Accepted(ops[1..])
  {
  }

  /** `id` was handed out by a well-formed stream and is no longer active. */
  predicate Gone<T, E>(s: State<T, E>, id: nat) {
    WellFormed(s) && id !in s.active && id < |s.traces|
  }

  /** One operation leaves a subscriber that is gone gone, and its trace as it was. */
  lemma GoneStep<T, E>(s: State<T, E>, op: Op<T, E>, id: nat)
    requires Gone(s, id)
    ensures Gone(Step(s, op), id) && Step(s, op).traces[id] == s.traces[id]
  {
    StepKeepsWellFormed(s, op);
    if op.Dispose? {
      DisposeKeepsWellFormed(s, op.id);
    }
  }

  /** A subscriber that is not active receives nothing more, whatever is done to the
      stream: identities are never handed out twice. */
  lemma {:induction false} SilentTrace<T, E>(s: State<T, E>, ops: seq<Op<T, E>>, id: nat)
    requires Gone(s, id)
    ensures id < |Run(s, ops).traces| && Run(s, ops).traces[id] == s.traces[id]
    decreases |ops|
  {
    if ops != [] {
      GoneStep(s, ops[0], id);
      SilentTrace(Step(s, ops[0]), ops[1..], id);
    }
  }

  /** `id` is an active subscriber of a live, well-formed stream. */
  predicate Listening<T, E>(s: State<T, E>, id: nat) {
    WellFormed(s) && s.status.Live? && id in s.active && id < |s.traces|
  }

  /** No operation of `ops` disposes of subscriber `id`. */
  predicate Undisposed<T, E>(ops: seq<Op<T, E>>, id: nat) {
    forall k :: 0 <= k < |ops| ==> ops[k] != Dispose(id)
  }

  /** One operation other than its own disposal, seen by an active subscriber of a live
      stream: an emission reaches it, and only a terminal one ends its subscription. */
  lemma ActiveStep<T, E>(s: State<T, E>, op: Op<T, E>, id: nat)
    requires Listening(s, id) && op != Dispose(id)
    ensures WellFormed(Step(s, op)) && id < |Step(s, op).traces|
    ensures Step(s, op).traces[id] == s.traces[id] + if op.Emit? then [op.event] else []
    ensures if op.Emit? && !op.event.Next? then !Step(s, op).status.Live? && id !in Step(s, op).active
            else Listening(Step(s, op), id)
  {
    ActiveFacts(s);
    StepKeepsWellFormed(s, op);
    if op.Dispose? {
      DisposeKeepsWellFormed(s, op.id);
    }
  }

  /** Dropping the first operation of a run keeps it free of `Dispose(id)`. */
  lemma UndisposedTail<T, E>(ops: seq<Op<T, E>>, id: nat)
    requires ops != [] && Undisposed(ops, id)
    ensures Undisposed(ops[1..], id)
  {
    forall k | 0 <= k < |ops[1..]| ensures ops[1..][k] != Dispose(id) {
      assert ops[1..][k] == ops[k + 1];
    }
  }

  /** A non-terminal first operation moves its event, if any, from what is still to be
      accepted to what was received. */
  lemma AcceptedShift<T, E>(received: seq<Event<T, E>>, ops: seq<Op<T, E>>)
    requires ops != [] && !(ops[0].Emit? && !ops[0].event.Next?)
    ensures received + Accepted(ops) ==
            (received + if ops[0].Emit? then [ops[0].event] else []) + Accepted(ops[1..])
  {
    AcceptedFirst(ops);
  }

  /** The first operation of a run that neither ends the stream nor disposes of `id`:
      the subscriber is still listening afterwards, and what it has received plus what
      is still to be accepted is unchanged. */
  lemma ActiveHead<T, E>(s: State<T, E>, ops: seq<Op<T, E>>, id: nat)
    requires Listening(s, id) && Undisposed(ops, id)
    requires ops != [] && !(ops[0].Emit? && !ops[0].event.Next?)
    ensures Listening(Step(s, ops[0]), id) && Undisposed(ops[1..], id)
    ensures s.traces[id] + Accepted(ops) == Step(s, ops[0]).traces[id] + Accepted(ops[1..])
  {
    ActiveStep(s, ops[0], id);
    UndisposedTail(ops, id);
    AcceptedShift(s.traces[id], ops);
  }

  /** An active subscriber that is not disposed receives exactly the events accepted
      from now on, in emission order. */
  lemma {:induction false} ActiveTrace<T, E>(s: State<T, E>, ops: seq<Op<T, E>>, id: nat)
    requires Listening(s, id) && Undisposed(ops, id)
    ensures id < |Run(s, ops).traces| && Run(s, ops).traces[id] == s.traces[id] + Accepted(ops)
    decreases |ops|
  {
    if ops != [] {
      if ops[0].Emit? && !ops[0].event.Next? {
        TerminalTrace(s, ops, id);
      } else {
        ActiveHead(s, ops, id);
        ActiveTrace(Step(s, ops[0]), ops[1..], id);
      }
    }
  }

  /** An active subscriber whose first event is terminal receives just that event. */
  lemma TerminalTrace<T, E>(s: State<T, E>, ops: seq<Op<T, E>>, id: nat)
    requires Listening(s, id)
    requires ops != [] && ops[0].Emit? && !ops[0].event.Next?
    ensures id < |Run(s, ops).traces| && Run(s, ops).traces[id] == s.traces[id] + Accepted(ops)
  {
    var s1 := Step(s, ops[0]);
    ActiveStep(s, ops[0], id);
    AcceptedFirst(ops);
    SilentTrace(s1, ops[1..], id);
  }

  /** The life of one subscriber: it subscribes, then `during` is run on the stream,
      then it is disposed, then `after` is run. It receives what the policy replays
      at subscription and, if the stream was live, every event accepted while it was
      subscribed, in order, ending with the terminal event if one came; nothing from
      before it subscribed and nothing after it was disposed. */
  lemma SubscriberLifetime<T, E>(s: State<T, E>, during: seq<Op<T, E>>, after: seq<Op<T, E>>)
    requires WellFormed(s)
    requires Undisposed(during, |s.traces|)
    ensures var final := Run(s, [Subscribe] + during + [Dispose(|s.traces|)] + after);
            |s.traces| < |final.traces| &&
            final.traces[|s.traces|] ==
              Replayed(s.policy, s.buffer, s.status) + (if s.status.Live? then Accepted(during) else [])
  {
    var id := |s.traces|;
    var s1 := SubscribeStep(s).0;
    SubscribeKeepsWellFormed(s);
    assert Run(s, [Subscribe]) == s1;
    RunConcat(s, [Subscribe], during);
    RunConcat(s, [Subscribe] + during, [Dispose(id)]);
    RunConcat(s, [Subscribe] + during + [Dispose(id)], after);
    var s2 := Run(s1, during);
    RunKeepsWellFormed(s1, during);
    if s.status.Live? {
      ActiveTrace(s1, during, id);
    } else {
      SilentTrace(s1, during, id);
    }
    var s3 := DisposeStep(s2, id);
    assert Run(s2, [Dispose(id)]) == s3;
    DisposeKeepsWellFormed(s2, id);
    SilentTrace(s3, after, id);
  }

  // ---------------------------------------------------------------------------
  // The buffer under a run of elements

  /** The run emits elements only: no error and no completion. Subscriptions and
      disposals may come in between. */
  predicate ElementsOnly<T, E>(ops: seq<Op<T, E>>) {
    forall k :: 0 <= k < |ops| && ops[k].Emit? ==> ops[k].event.Next?
  }

  /** The elements a run emits, in order. */
  function Emitted<T, E>(ops: seq<Op<T, E>>): (vs: seq<T>)
    ensures |vs| <= |ops|
    decreases |ops|
  {
    if ops == [] then []
    else (match ops[0] case Emit(Next(v)) => [v] case _ => []) + Emitted(ops[1..])
  }

  /** The first operation of a run of elements: the stream stays live and keeps its
      policy; an element is retained in the buffer, and a subscription or a disposal
      leaves the buffer alone. */
  lemma ElementsHead<T, E>(s: State<T, E>, ops: seq<Op<T, E>>)
    requires WellFormed(s) && s.status.Live? && ElementsOnly(ops) && ops != []
    ensures var s1 := Step(s, ops[0]);
            && Run(s, ops) == Run(s1, ops[1..]) && ElementsOnly(ops[1..])
            && WellFormed(s1) && s1.status.Live? && s1.policy == s.policy
            && (ops[0].Emit? ==> s1.buffer == Retain(s.policy, s.buffer, ops[0].event.value)
                                 && Emitted(ops) == [ops[0].event.value] + Emitted(ops[1..]))
            && (!ops[0].Emit? ==> s1.buffer == s.buffer && Emitted(ops) == Emitted(ops[1..]))
  {
    StepKeepsWellFormed(s, ops[0]);
    forall k | 0 <= k < |ops[1..]| && ops[1..][k].Emit? ensures ops[1..][k].event.Next? {
      assert ops[1..][k] == ops[k + 1];
    }
  }

  /** Keeping the newest `n` after each element is keeping the newest `n` at the end. */
  lemma NewestShift<T>(n: nat, buffer: seq<T>, v: T, rest: seq<T>)
    ensures Newest(n, Newest(n, buffer + [v]) + rest) == Newest(n, buffer + ([v] + rest))
  {
    NewestOfNewest(n, buffer + [v], rest);
    assert buffer + [v] + rest == buffer + ([v] + rest);
  }

  /** A replay stream given elements keeps the newest `size` of them, evicting the
      oldest first; subscriptions and disposals in between change nothing of that. */
  lemma {:induction false} ReplayKeepsNewest<T, E>(s: State<T, E>, ops: seq<Op<T, E>>)
    requires WellFormed(s) && s.status.Live? && s.policy.Buffer? && ElementsOnly(ops)
    ensures Run(s, ops).status.Live?
    ensures Run(s, ops).buffer == Newest(s.policy.size, s.buffer + Emitted(ops))
    decreases |ops|
  {
    if ops == [] {
      assert s.buffer + Emitted(ops) == s.buffer;
    } else {
      ElementsHead(s, ops);
      ReplayKeepsNewest(Step(s, ops[0]), ops[1..]);
      if ops[0].Emit? {
        NewestShift(s.policy.size, s.buffer, ops[0].event.value, Emitted(ops[1..]));
      }
    }
  }

  /** A behavior stream given elements holds the last of them as its value, or its
      earlier value if none came; subscriptions and disposals in between change nothing
      of that. */
  lemma {:induction false} LatestHoldsLast<T, E>(s: State<T, E>, ops: seq<Op<T, E>>)
    requires WellFormed(s) && s.status.Live? && s.policy.Latest? && ElementsOnly(ops)
    ensures WellFormed(Run(s, ops)) && Run(s, ops).policy.Latest? && Run(s, ops).status.Live?
    ensures var vs := Emitted(ops);
            CurrentValue(Run(s, ops)) == Success(if vs == [] then s.buffer[0] else vs[|vs| - 1])
    decreases |ops|
  {
    if ops != [] {
      ElementsHead(s, ops);
      LatestHoldsLast(Step(s, ops[0]), ops[1..]);
    }
  }
}

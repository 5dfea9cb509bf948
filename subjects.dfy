/**
  Subjects and relays as objects updated in place. A `Subject` owns its subscriber
  list, replay buffer, terminal flag, what each subscriber has received, and the
  log of all callback invocations in the order they ran; every method is specified
  by the matching step of the `Broadcast` state machine and the invocations it makes.
  A `Relay` wraps a subject and exposes only `Accept`, so it can never terminate.
*/
module Subjects {
  import opened Results
  import opened Broadcast

  class Subject<T, E> {
    const policy: Policy
    var active: seq<nat>
    var buffer: seq<T>
    var status: Status<E>
    var traces: seq<seq<Event<T, E>>>
    var log: seq<Delivery<T, E>>

    /** The abstract state this object holds, apart from the log. */
    ghost function Model(): State<T, E>
      reads this
    {
      State(policy, active, buffer, status, traces)
    }

    ghost predicate Valid()
      reads this
    {
      WellFormed(Model())
    }

    /** A publish subject: replays nothing to new subscribers. */
    constructor Publish()
      ensures Valid() && Model() == Initial(NoReplay, []) && log == []
    {
      policy, active, buffer, status, traces, log := NoReplay, [], [], Live, [], [];
    }

    /** A behavior subject: holds a current value from the start. */
    constructor Behavior(value: T)
      ensures Valid() && Model() == Initial(Latest, [value]) && log == []
    {
      policy, active, buffer, status, traces, log := Latest, [], [value], Live, [], [];
    }

    /** A replay subject that keeps the newest `bufferSize` elements. */
    constructor Replay(bufferSize: nat)
      ensures Valid() && Model() == Initial(Buffer(bufferSize), []) && log == []
    {
      policy, active, buffer, status, traces, log := Buffer(bufferSize), [], [], Live, [], [];
    }

    /** Registers a subscriber under the next identity and hands it what the policy
        replays; the subscriber becomes active only while the subject is live. */
    method Subscribe() returns (id: nat)
      requires Valid()
      modifies this
      ensures Valid()
      ensures (Model(), id) == SubscribeStep(old(Model()))
      ensures log == old(log) + SubscribeOutput(old(Model()))
    {
      SubscribeKeepsWellFormed(Model());
      id := |traces|;
      var replay := Replayed(policy, buffer, status);
      traces := traces + [replay];
      log := log + Deliveries(id, replay);
      if status.Live? {
        active := active + [id];
      }
    }

    /** Emits one event: a no-op once terminated; otherwise the buffer or terminal flag
        is updated and the event is delivered to a snapshot of the subscribers taken
        before the first delivery, one after the other in subscription order. */
    method On(e: Event<T, E>)
      requires Valid()
      modifies this
      ensures Valid()
      ensures Model() == EmitStep(old(Model()), e)
      ensures log == old(log) + EmitOutput(old(Model()), e)
    {
      EmitKeepsWellFormed(Model(), e);
      ActiveFacts(Model());
      if !status.Live? {
        return;
      }
      if e.Next? {
        buffer := Retain(policy, buffer, e.value);
      }
      Notify(e);
      match e {
        case Next(_) =>
        case Error(err) =>
          status := Failed(err);
          active := [];
        case Completed =>
          status := Done;
          active := [];
      }
    }

    /** Hands `e` to each active subscriber in turn, in subscription order: the list
        is read once, before the first callback runs. */
    method Notify(e: Event<T, E>)
      requires Distinct(active) && forall i :: 0 <= i < |active| ==> active[i] < |traces|
      modifies this`traces, this`log
      ensures traces == Deliver(old(traces), active, e)
      ensures log == old(log) + Fanout(active, e)
    {
      var snapshot := active;
      for i := 0 to |snapshot|
        invariant traces == Deliver(old(traces), snapshot[..i], e)
        invariant log == old(log) + Fanout(snapshot[..i], e)
      {
        var id := snapshot[i];
        DeliverOneMore(old(traces), snapshot, i, e);
        FanoutOneMore(old(log), snapshot, i, e);
        traces := traces[id := traces[id] + [e]];
        log := log + [Delivery(id, e)];
      }
      assert snapshot[..|snapshot|] == snapshot;
    }

    method OnNext(v: T)
      requires Valid()
      modifies this
      ensures Valid()
      ensures Model() == EmitStep(old(Model()), Next(v))
      ensures log == old(log) + EmitOutput(old(Model()), Next(v))
    {
      On(Next(v));
    }

    method OnError(err: E)
      requires Valid()
      modifies this
      ensures Valid()
      ensures Model() == EmitStep(old(Model()), Error(err))
      ensures log == old(log) + EmitOutput(old(Model()), Error(err))
    {
      On(Error(err));
    }

    method OnCompleted()
      requires Valid()
      modifies this
      ensures Valid()
      ensures Model() == EmitStep(old(Model()), Completed)
      ensures log == old(log) + EmitOutput(old(Model()), Completed)
    {
      On(Completed);
    }

    /** Ends the subscription `id`; disposing twice, or after termination, is harmless. */
    method Dispose(id: nat)
      requires Valid()
      modifies this
      ensures Valid()
      ensures Model() == DisposeStep(old(Model()), id) && log == old(log)
    {
      DisposeKeepsWellFormed(Model(), id);
      active := Remove(active, id);
    }

    /** The current value of a behavior subject, or the error that ended it. */
    method Value() returns (r: Result<T, E>)
      requires Valid() && policy.Latest?
      ensures r == CurrentValue(Model())
      ensures r.Success? <==> !status.Failed?
    {
      if status.Failed? {
        r := Failure(status.error);
      } else {
        r := Success(buffer[0]);
      }
    }
  }

  /** A publish or behavior relay: a subject that only ever receives elements. */
  class Relay<T> {
    const subject: Subject<T, ()>

    ghost predicate Valid()
      reads this, subject
    {
      subject.Valid() && subject.status.Live? && !subject.policy.Buffer?
    }

    constructor Publish()
      ensures Valid() && fresh(subject) && subject.Model() == Initial(NoReplay, []) && subject.log == []
    {
      subject := new Subject.Publish();
    }

    constructor Behavior(value: T)
      ensures Valid() && fresh(subject) && subject.Model() == Initial(Latest, [value]) && subject.log == []
    {
      subject := new Subject.Behavior(value);
    }

    /** The only way to feed a relay: equivalent to emitting `Next(v)`, and the relay
        stays live. */
    method Accept(v: T)
      requires Valid()
      modifies subject
      ensures Valid()
      ensures subject.Model() == EmitStep(old(subject.Model()), Next(v))
      ensures subject.log == old(subject.log) + EmitOutput(old(subject.Model()), Next(v))
    {
      subject.OnNext(v);
    }

    method Subscribe() returns (id: nat)
      requires Valid()
      modifies subject
      ensures Valid()
      ensures (subject.Model(), id) == SubscribeStep(old(subject.Model()))
      ensures subject.log == old(subject.log) + SubscribeOutput(old(subject.Model()))
    {
      id := subject.Subscribe();
    }

    method Dispose(id: nat)
      requires Valid()
      modifies subject
      ensures Valid()
      ensures subject.Model() == DisposeStep(old(subject.Model()), id) && subject.log == old(subject.log)
    {
      subject.Dispose(id);
    }

    /** The current value of a behavior relay: it cannot fail, because a relay never
        receives an error. */
    method Value() returns (v: T)
      requires Valid() && subject.policy.Latest?
      ensures CurrentValue(subject.Model()) == Success(v)
    {
      var r := subject.Value();
      v := r.value;
    }
  }
}

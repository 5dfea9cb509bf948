/**
  The subject and relay scripts of the chapter 3 playground, each run on fresh objects.
  Every script returns what each subscriber printed (its trace) and, where the
  interleaving matters, the whole console output in order. The longer scripts are cut
  into parts of a few calls each; the state of the object at each cut is stated in full.
*/
module SubjectExamples {
  import opened Broadcast
  import opened Subjects

  datatype MyError = AnError

  /** A publish subject forgets the element emitted before anyone subscribed. */
  method PublishSubjectExample() returns (sub1: seq<Event<string, MyError>>)
    ensures sub1 == [Next("Is anyone listening now?"), Next("Anyone there?")]
  {
    var subject := new Subject<string, MyError>.Publish();
    subject.On(Next("Is anyone listening?"));
    var one := subject.Subscribe();
    subject.On(Next("Is anyone listening now?"));
    subject.OnNext("Anyone there?");
    sub1 := subject.traces[one];
  }

  /** "Publish Subject in action", first part: 1 reaches nobody, the first subscriber gets 2. */
  method PublishOpening() returns (subject: Subject<int, MyError>)
    ensures fresh(subject) && subject.Valid()
    ensures subject.policy == NoReplay && subject.active == [0] && subject.status == Live
    ensures |subject.traces| == 1 && subject.traces[0] == [Next(2)]
  {
    subject := new Subject<int, MyError>.Publish();
    subject.On(Next(1));
    var one := subject.Subscribe();
    subject.OnNext(2);
  }

  /** Second part: the second subscriber joins, both get 3, the first leaves. */
  method PublishMiddle(subject: Subject<int, MyError>)
    requires subject.Valid()
    requires subject.policy == NoReplay && subject.active == [0] && subject.status == Live
    requires |subject.traces| == 1 && subject.traces[0] == [Next(2)]
    modifies subject
    ensures subject.Valid() && subject.active == [1] && subject.status == Live
    ensures |subject.traces| == 2 && subject.traces[0] == [Next(2), Next(3)] && subject.traces[1] == [Next(3)]
  {
    var two := subject.Subscribe();
    subject.OnNext(3);
    assert Remove([0, 1], 0) == [1] by {
      assert [0, 1][1..] == [1] && [1][1..] == [];
    }
    subject.Dispose(0);
  }

  /** Third part: the second subscriber gets 4 and the completion, then 5 reaches nobody. */
  method PublishClosing(subject: Subject<int, MyError>)
    requires subject.Valid()
    requires subject.active == [1] && subject.status == Live
    requires |subject.traces| == 2 && subject.traces[0] == [Next(2), Next(3)] && subject.traces[1] == [Next(3)]
    modifies subject
    ensures subject.Valid() && subject.active == [] && subject.status == Done
    ensures |subject.traces| == 2
    ensures subject.traces[0] == [Next(2), Next(3)] && subject.traces[1] == [Next(3), Next(4), Completed]
  {
    subject.OnNext(4);
    subject.OnCompleted();
    subject.OnNext(5);
    subject.Dispose(1);
  }

  /** Each subscriber sees what was emitted between its subscription and its disposal;
      after completion later elements reach nobody and a late subscriber is told only
      that the subject completed. */
  method PublishSubjectInAction() returns (sub1: seq<Event<int, MyError>>, sub2: seq<Event<int, MyError>>,
                                           sub3: seq<Event<int, MyError>>)
    ensures sub1 == [Next(2), Next(3)]
    ensures sub2 == [Next(3), Next(4), Completed]
    ensures sub3 == [Completed]
  {
    var subject := PublishOpening();
    PublishMiddle(subject);
    PublishClosing(subject);
    var three := subject.Subscribe();
    subject.OnNext(6);
    sub1, sub2, sub3 := subject.traces[0], subject.traces[1], subject.traces[three];
  }

  /** A behavior subject hands each new subscriber its current value; after an error a
      late subscriber receives only the error and later elements reach nobody. */
  method BehaviorSubjectInAction() returns (sub1: seq<Event<string, MyError>>, sub2: seq<Event<string, MyError>>)
    ensures sub1 == [Next("Initial Value"), Next("X"), Error(AnError)]
    ensures sub2 == [Error(AnError)]
  {
    var subject := new Subject<string, MyError>.Behavior("Initial Value");
    var one := subject.Subscribe();
    subject.On(Next("X"));
    subject.OnError(AnError);
    var two := subject.Subscribe();
    subject.OnNext("Y");
    sub1, sub2 := subject.traces[one], subject.traces[two];
  }

  /** A live subject that nobody has subscribed to yet. */
  ghost predicate Unwatched(subject: Subject<string, MyError>)
    reads subject
  {
    subject.Valid() && subject.status == Live && subject.active == [] && subject.traces == [] && subject.log == []
  }

  /** An element given to a subject nobody watches only updates its buffer. */
  method FeedUnwatched(subject: Subject<string, MyError>, v: string)
    requires Unwatched(subject)
    modifies subject
    ensures Unwatched(subject)
    ensures subject.buffer == Retain(subject.policy, old(subject.buffer), v)
  {
    subject.On(Next(v));
  }

  /** A buffer of size 2 given three elements keeps the last two. */
  lemma RetainTwo<T>(a: T, b: T, c: T)
    ensures Retain(Buffer(2), [], a) == [a] && Retain(Buffer(2), [a], b) == [a, b]
    ensures Retain(Buffer(2), [a, b], c) == [b, c]
  {
    assert [a, b] + [c] == [a, b, c];
  }

  /** "Replay subject in action", first part: a buffer of size 2 given "1", "2", "3"
      keeps "2" and "3". */
  method ReplayBuffering() returns (subject: Subject<string, MyError>)
    ensures fresh(subject) && Unwatched(subject)
    ensures subject.policy == Buffer(2) && subject.buffer == ["2", "3"]
  {
    RetainTwo("1", "2", "3");
    subject := new Subject<string, MyError>.Replay(2);
    FeedUnwatched(subject, "1");
    FeedUnwatched(subject, "2");
    FeedUnwatched(subject, "3");
  }

  /** Second part: each new subscriber is handed "2" then "3" at once. */
  method ReplaySubscribing(subject: Subject<string, MyError>)
    requires Unwatched(subject) && subject.policy == Buffer(2) && subject.buffer == ["2", "3"]
    modifies subject
    ensures subject.Valid() && subject.active == [0, 1] && subject.status == Live
    ensures subject.log == [Delivery(0, Next("2")), Delivery(0, Next("3")),
                            Delivery(1, Next("2")), Delivery(1, Next("3"))]
  {
    var one := subject.Subscribe();
    var two := subject.Subscribe();
  }

  /** The replayed elements, then "4" and the error, each handed to both subscribers
      in subscription order before the next event is handled. */
  method ReplaySubjectInAction() returns (output: seq<Delivery<string, MyError>>)
    ensures output == [Delivery(0, Next("2")), Delivery(0, Next("3")),
                       Delivery(1, Next("2")), Delivery(1, Next("3")),
                       Delivery(0, Next("4")), Delivery(1, Next("4")),
                       Delivery(0, Error(AnError)), Delivery(1, Error(AnError))]
  {
    var subject := ReplayBuffering();
    ReplaySubscribing(subject);
    subject.On(Next("4"));
    subject.OnError(AnError);
    FanoutPair<string, MyError>(0, 1, Next("4"));
    FanoutPair<string, MyError>(0, 1, Error(AnError));
    output := subject.log;
  }

  /** "Publish Relay in action", first part: "1" reaches nobody, the first subscriber gets "2". */
  method PublishRelayOpening() returns (relay: Relay<string>)
    ensures fresh(relay) && fresh(relay.subject) && relay.Valid()
    ensures relay.subject.policy == NoReplay && relay.subject.active == [0]
    ensures |relay.subject.traces| == 1 && relay.subject.traces[0] == [Next("2")]
  {
    relay := new Relay<string>.Publish();
    relay.Accept("1");
    var one := relay.Subscribe();
    relay.Accept("2");
  }

  /** A publish relay forwards accepted elements only to those already subscribed. */
  method PublishRelayInAction() returns (sub1: seq<Event<string, ()>>, sub2: seq<Event<string, ()>>)
    ensures sub1 == [Next("2"), Next("3"), Next("4")]
    ensures sub2 == [Next("4")]
  {
    var relay := PublishRelayOpening();
    relay.Accept("3");
    var two := relay.Subscribe();
    relay.Accept("4");
    sub1, sub2 := relay.subject.traces[0], relay.subject.traces[two];
  }

  /** "Behavior Relay in action", first part: the first subscriber gets the initial value and "1". */
  method BehaviorRelayOpening() returns (relay: Relay<string>)
    ensures fresh(relay) && fresh(relay.subject) && relay.Valid()
    ensures relay.subject.policy == Latest && relay.subject.buffer == ["1"] && relay.subject.active == [0]
    ensures |relay.subject.traces| == 1 && relay.subject.traces[0] == [Next("Initial Value"), Next("1")]
  {
    relay := new Relay<string>.Behavior("Initial Value");
    var one := relay.Subscribe();
    relay.Accept("1");
  }

  /** A behavior relay replays its current value, and its value is the last one accepted. */
  method BehaviorRelayInAction() returns (sub1: seq<Event<string, ()>>, sub2: seq<Event<string, ()>>,
                                          current: string)
    ensures sub1 == [Next("Initial Value"), Next("1"), Next("2")]
    ensures sub2 == [Next("1"), Next("2")]
    ensures current == "2"
  {
    var relay := BehaviorRelayOpening();
    var two := relay.Subscribe();
    relay.Accept("2");
    current := relay.Value();
    sub1, sub2 := relay.subject.traces[0], relay.subject.traces[two];
  }
}

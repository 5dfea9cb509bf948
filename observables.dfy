/**
  The cold observables of the chapter 2 playground. A cold observable is described by
  the events it hands to each new subscriber, in order; `never` hands none. The
  `deferred` factory keeps a flag that it toggles on every subscription, and the
  file-loading examples take the outcome of the three file-system steps (finding the
  resource, reading it, decoding it) as inputs.
*/
module Observables {
  import opened Results
  import opened Broadcast

  /** The elements carried by a run of events, up to the first terminal event. */
  function Elements<T, E>(events: seq<Event<T, E>>): (r: seq<T>)
    ensures |r| <= |events|
    ensures forall k :: 0 <= k < |r| ==> events[k] == Next(r[k])
    ensures |r| == |events| || !events[|r|].Next?
  {
    if events == [] then []
    else match events[0]
      case Next(v) => [v] + Elements(events[1..])
      case _ => []
  }

  /** The run ends with a completed event, and no event before it is terminal. */
  predicate CompletesAfterNexts<T, E>(events: seq<Event<T, E>>) {
    |events| >= 1 && events[|events| - 1] == Completed
    && forall k :: 0 <= k < |events| - 1 ==> events[k].Next?
  }

  /** `of(v0, v1, ...)`: each value in turn, then completed. */
  function Of<T, E>(values: seq<T>): (r: seq<Event<T, E>>)
    ensures |r| == |values| + 1 && CompletesAfterNexts(r)
    ensures forall k :: 0 <= k < |values| ==> r[k] == Next(values[k])
  {
    seq(|values|, k requires 0 <= k < |values| => Next(values[k])) + [Completed]
  }

  /** `just(v)`: the one value, then completed. */
  function Just<T, E>(v: T): (r: seq<Event<T, E>>)
    ensures r == Of([v])
  {
    [Next(v), Completed]
  }

  /** `from(array)`: the array's elements one at a time, then completed. */
  function From<T, E>(values: seq<T>): (r: seq<Event<T, E>>)
    ensures |r| == |values| + 1
  {
    if values == [] then [Completed] else [Next(values[0])] + From(values[1..])
  }

  /** `never()`: no element, and it never completes. */
  function Never<T, E>(): (r: seq<Event<T, E>>)
    ensures forall k :: 0 <= k < |r| ==> !r[k].Next? && !r[k].Completed? && !r[k].Error?
  {
    []
  }

  /** An element-then-completed run gives back the elements it was built from. */
  lemma {:induction false} ElementsOfCompleting<T, E>(values: seq<T>, events: seq<Event<T, E>>)
    requires |events| == |values| + 1 && CompletesAfterNexts(events)
    requires forall k :: 0 <= k < |values| ==> events[k] == Next(values[k])
    ensures Elements(events) == values
    decreases |values|
  {
    if values != [] {
      ElementsOfCompleting(values[1..], events[1..]);
    }
  }

  /** `of` hands a subscriber exactly the values it was given. */
  lemma ElementsOf<T, E>(values: seq<T>)
    ensures Elements<T, E>(Of(values)) == values
  {
    ElementsOfCompleting<T, E>(values, Of(values));
  }

  /** `from` over an array emits the same events as `of` over its elements. */
  lemma {:induction false} FromIsOf<T, E>(values: seq<T>)
    ensures From<T, E>(values) == Of<T, E>(values)
    decreases |values|
  {
    if values != [] {
      FromIsOf<T, E>(values[1..]);
      var r, rest := Of<T, E>(values), Of<T, E>(values[1..]);
      assert r == [Next(values[0])] + rest by {
        forall k | 0 <= k < |r| ensures r[k] == ([Next(values[0])] + rest)[k] {
          if 0 < k < |values| {
            assert values[1..][k - 1] == values[k];
          }
        }
      }
    }
  }

  /** "just, of, from": `just(1)` and `of([1, 2, 3])` emit one element each (an
      integer and an array), while `of(1, 2, 3)` and `from([1, 2, 3])` emit three. */
  method JustOfFrom() returns (justObservable: seq<Event<int, ()>>, ofObservable: seq<Event<int, ()>>,
                                ofObservableIntArrays: seq<Event<seq<int>, ()>>, fromObservable: seq<Event<int, ()>>)
    ensures Elements(justObservable) == [1]
    ensures Elements(ofObservable) == [1, 2, 3]
    ensures Elements(ofObservableIntArrays) == [[1, 2, 3]]
    ensures Elements(fromObservable) == [1, 2, 3] && fromObservable == ofObservable
  {
    var one, two, three := 1, 2, 3;
    justObservable := Just(one);
    ofObservable := Of([one, two, three]);
    ofObservableIntArrays := Of([[one, two, three]]);
    fromObservable := From([one, two, three]);
    ElementsOf<int, ()>([one]);
    ElementsOf<int, ()>([one, two, three]);
    ElementsOf<seq<int>, ()>([[one, two, three]]);
    FromIsOf<int, ()>([one, two, three]);
  }

  /** "subscribe": the subscriber prints 1, 2, 3 and then "Completed!". */
  method SubscribeExample() returns (printed: seq<Event<int, ()>>)
    ensures printed == [Next(1), Next(2), Next(3), Completed]
  {
    printed := Of([1, 2, 3]);
  }

  /** "never": the subscriber prints nothing, not even a completion. */
  method NeverExample() returns (printed: seq<Event<(), ()>>)
    ensures printed == []
  {
    printed := Never();
  }

  /** "dispose": `of("A", "B", "C")` hands its whole run to the subscriber during the
      `subscribe` call itself, so disposing right afterwards cuts nothing off. */
  method DisposeExample() returns (printed: seq<Event<string, ()>>)
    ensures printed == [Next("A"), Next("B"), Next("C"), Completed]
  {
    printed := Of(["A", "B", "C"]);
  }

  /** The `deferred` factory: each subscription toggles `flip`, then hands out
      1, 2, 3 when the flag is now set and 4, 5, 6 when it is clear. */
  class Deferred {
    var flip: bool

    constructor ()
      ensures !flip
    {
      flip := false;
    }

    method Subscribe() returns (events: seq<Event<int, ()>>)
      modifies this
      ensures flip == !old(flip)
      ensures events == if flip then Of([1, 2, 3]) else Of([4, 5, 6])
    {
      flip := !flip;
      if !flip {
        return Of([4, 5, 6]);
      }
      events := Of([1, 2, 3]);
    }
  }

  /** The elements the `n`-th subscription to a fresh factory receives, counting from 1:
      odd-numbered subscriptions get 1, 2, 3 and even-numbered ones 4, 5, 6. */
  function DeferredLine(n: nat): (r: seq<int>)
    requires n >= 1
    ensures r == [1, 2, 3] <==> n % 2 == 1
    ensures r == [4, 5, 6] <==> n % 2 == 0
  {
    if n % 2 == 1 then [1, 2, 3] else [4, 5, 6]
  }

  /** `n` subscriptions in a row to a fresh factory, each recording its elements. */
  method DeferredLines(n: nat) returns (lines: seq<seq<int>>)
    ensures |lines| == n && forall k :: 0 <= k < n ==> lines[k] == DeferredLine(k + 1)
  {
    var factory := new Deferred();
    lines := [];
    for i := 0 to n
      invariant factory.flip <==> i % 2 == 1
      invariant |lines| == i && forall k :: 0 <= k < i ==> lines[k] == DeferredLine(k + 1)
    {
      var events := factory.Subscribe();
      ElementsOf<int, ()>([1, 2, 3]);
      ElementsOf<int, ()>([4, 5, 6]);
      lines := lines + [Elements(events)];
    }
  }

  /** "deferred": four subscriptions in a loop, each printing its elements on one line. */
  method DeferredExample() returns (lines: seq<seq<int>>)
    ensures |lines| == 4 && forall k :: 0 <= k < 4 ==> lines[k] == DeferredLine(k + 1)
    ensures lines == [[1, 2, 3], [4, 5, 6], [1, 2, 3], [4, 5, 6]]
  {
    lines := DeferredLines(4);
  }

  datatype FileReadError = FileNotFound | Unreadable | EncodingFailed

  /** The file-system steps `loadText` relies on: the path of a named text resource,
      the bytes stored at a path, and their decoding as UTF-8. */
  datatype FileSystem = FileSystem(
    path: string -> Option<string>,
    contents: string -> Option<seq<bv8>>,
    utf8: seq<bv8> -> Option<string>)

  /** `loadText(from:)`: the first step that fails decides the error; if none fails,
      the decoded contents. */
  function LoadText(fs: FileSystem, name: string): (r: Result<string, FileReadError>)
    ensures r == Failure(FileNotFound) <==> fs.path(name).None?
    ensures r == Failure(Unreadable) <==> fs.path(name).Some? && fs.contents(fs.path(name).value).None?
    ensures r == Failure(EncodingFailed) <==>
      fs.path(name).Some? && fs.contents(fs.path(name).value).Some?
      && fs.utf8(fs.contents(fs.path(name).value).value).None?
    ensures r.Success? ==> fs.utf8(fs.contents(fs.path(name).value).value) == Some(r.value)
  {
    match fs.path(name)
    case None => Failure(FileNotFound)
    case Some(path) =>
      match fs.contents(path)
      case None => Failure(Unreadable)
      case Some(data) =>
        match fs.utf8(data)
        case None => Failure(EncodingFailed)
        case Some(contents) => Success(contents)
  }

  /** `loadTextUsingObservables(from:)`: the same checks in the same order, reported as
      exactly one event, an element or an error; it never completes. */
  function LoadTextUsingObservables(fs: FileSystem, name: string): (r: seq<Event<string, FileReadError>>)
    ensures |r| == 1 && !r[0].Completed?
    ensures LoadText(fs, name).Success? <==> r[0].Next?
    ensures LoadText(fs, name).Success? ==> r[0].value == LoadText(fs, name).value
    ensures LoadText(fs, name).Failure? ==> r[0] == Error(LoadText(fs, name).error)
  {
    match fs.path(name)
    case None => [Error(FileNotFound)]
    case Some(path) =>
      match fs.contents(path)
      case None => [Error(Unreadable)]
      case Some(data) =>
        match fs.utf8(data)
        case None => [Error(EncodingFailed)]
        case Some(contents) => [Next(contents)]
  }

  /** The subscriber of the "Single" example: prints each element and each error and
      ignores anything else. Loading "Copyright" prints exactly one line, the outcome
      of `loadText`. */
  method LoadTextExample(fs: FileSystem) returns (printed: seq<Result<string, FileReadError>>)
    ensures printed == [LoadText(fs, "Copyright")]
  {
    var events := LoadTextUsingObservables(fs, "Copyright");
    printed := [];
    for k := 0 to |events|
      invariant printed == if k == 0 then [] else [LoadText(fs, "Copyright")]
    {
      match events[k]
      case Next(s) => printed := printed + [Success(s)];
      case Error(err) => printed := printed + [Failure(err)];
      case Completed =>
    }
  }
}

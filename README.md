# Subjects, relays and cold observables of the RxSwift teaching playgrounds

This project models the behaviour shown by three files of the repository:

- the chapter 3 playground, whose scripts drive publish, behavior and replay subjects
  and publish and behavior relays, then solve two challenges on top of them (dealing a
  hand of cards and a login session);
- the Combinestagram main screen, whose selection of photos lives in a behavior relay
  that two subscriptions show in the preview, the buttons and the title;
- the chapter 2 playground, whose examples build cold observables (`just`, `of`, `from`,
  `never`, `deferred`) and load a text file through a chain of checks.

The library code of RxSwift is not part of the repository. Its semantics, as far as
the scripts exercise it, is modelled from the printed traces. The model is a small
sequential state machine.

- State: a list of active subscribers in subscription order, a replay buffer shaped by a
  policy (nothing, the latest value, or the newest `n` values), and a terminal status
  (live, failed, completed).
- Operations: subscribe, emit (an element, an error or the completion), and dispose of
  one subscription.
- Output: every callback invocation is logged as a delivery of one event to one
  subscriber, in the order the invocations run. A subscriber's trace is every event handed to it;
  what it prints is the part of the trace its handlers print (a subscriber given only an
  `onNext` handler prints the elements alone).

The layout:

- `Broadcast` (broadcast.dfy) is that machine as pure functions, with its invariants and
  the properties of whole runs.
- `Subjects` (subjects.dfy) holds the `Subject` and `Relay` classes. They update their
  fields in place, and each method is specified by one step of the machine.
- `SubjectExamples` (subject_examples.dfy) runs the chapter 3 scripts on those objects and
  states each subscriber's output.
- `CardDeal` (card_deal.dfy), `LoginSession` (user_session.dfy), `Collage` (collage.dfy) and
  `Observables` (observables.dfy) model the authored logic of the challenges, the main
  screen and the chapter 2 playground.
- `Results` (results.dfy) holds the shared `Option` and `Result` types.

Points where the model takes a side:

- Late subscribers. A subscriber that arrives after termination is handed the terminal
  event under every policy: after the buffered elements for a replay subject, alone for
  a publish or behavior subject. A publish subject does this too, because the third
  subscriber of "Publish Subject in action" prints the completion
  (03-subjects/projects/Rx-Chapter3/Rx-Chapter3/RxExample-3.playground/Contents.swift:51-53); the model follows the script.
- Notification order. An emission reaches the active subscribers one at a time, in the
  order they subscribed. The list of subscribers is read once, before the first callback.
- `deal`. Its guard is modelled as written: a hand of more than 21 points is sent on
  as an element, and any other hand is reported as `busted` (03-subjects/projects/Rx-Chapter3/Rx-Chapter3/RxExample-3.playground/Contents.swift:195-200).
- `logInWith`. A successful login never calls the completion handler, so "User logged
  in." is never printed (03-subjects/projects/Rx-Chapter3/Rx-Chapter3/RxExample-3.playground/Contents.swift:239-248).

## Model

| member | source | states |
|---|---|---|
| Broadcast.Initial | 03-subjects/projects/Rx-Chapter3/Rx-Chapter3/RxExample-3.playground/Contents.swift:92 | A new stream is live, satisfies the invariant, and has no subscriber and no delivery; its buffer is the one given (the initial value of a behavior stream). |
| Broadcast.AscendingIncreasing | 03-subjects/projects/Rx-Chapter3/Rx-Chapter3/RxExample-3.playground/Contents.swift:32-37 | The recursive subscription-order invariant implies that the active identities are strictly increasing and distinct. |
| Broadcast.IncreasingAscending | 03-subjects/projects/Rx-Chapter3/Rx-Chapter3/RxExample-3.playground/Contents.swift:32-37 | The converse: strictly increasing identities satisfy the recursive invariant. |
| Broadcast.TraceConcat | 03-subjects/projects/Rx-Chapter3/Rx-Chapter3/RxExample-3.playground/Contents.swift:111 | What one subscriber receives from two logged runs is what it receives from each, in order. |
| Broadcast.Fanout | 03-subjects/projects/Rx-Chapter3/Rx-Chapter3/RxExample-3.playground/Contents.swift:111 | An emission makes exactly one callback invocation per active subscriber. |
| Broadcast.FanoutOrder | 03-subjects/projects/Rx-Chapter3/Rx-Chapter3/RxExample-3.playground/Contents.swift:111 | The `i`-th invocation of an emission goes to the `i`-th active subscriber, so subscribers are notified in subscription order. |
| Broadcast.FanoutPair | 03-subjects/projects/Rx-Chapter3/Rx-Chapter3/RxExample-3.playground/Contents.swift:111 | With two subscribers an emission reaches the first, then the second. |
| Broadcast.FanoutTrace | 03-subjects/projects/Rx-Chapter3/Rx-Chapter3/RxExample-3.playground/Contents.swift:37 | An emission reaches each active subscriber exactly once and reaches nobody else. |
| Broadcast.DeliveriesTrace | 03-subjects/projects/Rx-Chapter3/Rx-Chapter3/RxExample-3.playground/Contents.swift:99-109 | Only the new subscriber receives the replayed events, and it receives exactly them. |
| Broadcast.Newest | 03-subjects/projects/Rx-Chapter3/Rx-Chapter3/RxExample-3.playground/Contents.swift:92-97 | A size-`n` buffer keeps at most `n` elements, and they are the newest ones, in order. |
| Broadcast.NewestOfNewest | 03-subjects/projects/Rx-Chapter3/Rx-Chapter3/RxExample-3.playground/Contents.swift:95-97 | Evicting after every element equals evicting once at the end. |
| Broadcast.Remove | 03-subjects/projects/Rx-Chapter3/Rx-Chapter3/RxExample-3.playground/Contents.swift:39 | Disposing removes exactly the disposed identity from the active list. |
| Broadcast.RemoveKeepsIncreasing | 03-subjects/projects/Rx-Chapter3/Rx-Chapter3/RxExample-3.playground/Contents.swift:39 | Removing a subscriber keeps the others in subscription order. |
| Broadcast.RemoveAbsent | 03-subjects/projects/Rx-Chapter3/Rx-Chapter3/RxExample-3.playground/Contents.swift:47 | Disposing an identity that is not active leaves the list unchanged. |
| Broadcast.Retain | 03-subjects/projects/Rx-Chapter3/Rx-Chapter3/RxExample-3.playground/Contents.swift:92 | After an element the buffer still fits its policy: empty for publish, one value for behavior, at most `n` for replay. |
| Broadcast.ActiveFacts | 03-subjects/projects/Rx-Chapter3/Rx-Chapter3/RxExample-3.playground/Contents.swift:32-37 | In a well-formed stream the active subscribers are distinct, in increasing order, and were already handed out. |
| Broadcast.SubscribeKeepsWellFormed | 03-subjects/projects/Rx-Chapter3/Rx-Chapter3/RxExample-3.playground/Contents.swift:51-55 | Subscribing, also after termination, keeps the invariant. |
| Broadcast.SubscribeKeepsLog | 03-subjects/projects/Rx-Chapter3/Rx-Chapter3/RxExample-3.playground/Contents.swift:99-109 | After a subscription the log still agrees with every subscriber's trace. |
| Broadcast.EmitKeepsWellFormed | 03-subjects/projects/Rx-Chapter3/Rx-Chapter3/RxExample-3.playground/Contents.swift:43-45 | Emitting keeps the invariant; after a terminal event nobody is active. |
| Broadcast.EmitKeepsLog | 03-subjects/projects/Rx-Chapter3/Rx-Chapter3/RxExample-3.playground/Contents.swift:111-113 | After an emission the log still agrees with every subscriber's trace. |
| Broadcast.FanoutKeepsLog | 03-subjects/projects/Rx-Chapter3/Rx-Chapter3/RxExample-3.playground/Contents.swift:111 | Logging a fan-out matches appending the event to the traces of exactly the active subscribers. |
| Broadcast.DisposeKeepsWellFormed | 03-subjects/projects/Rx-Chapter3/Rx-Chapter3/RxExample-3.playground/Contents.swift:39 | Disposing keeps the invariant, deactivates the disposed subscriber and no other. |
| Broadcast.DisposeIdempotent | 03-subjects/projects/Rx-Chapter3/Rx-Chapter3/RxExample-3.playground/Contents.swift:47 | Disposing a subscription twice is the same as disposing it once. |
| Broadcast.ReplayedShape | 03-subjects/projects/Rx-Chapter3/Rx-Chapter3/RxExample-3.playground/Contents.swift:99-109 | A new subscriber is handed elements only, ended by the terminal event exactly when the stream has terminated; the elements are the whole buffer for replay, the value of a live behavior stream, none for publish. |
| Broadcast.SubscribeSpec | 03-subjects/projects/Rx-Chapter3/Rx-Chapter3/RxExample-3.playground/Contents.swift:10-12 | `subscribe` hands out the next identity, held by no active subscriber, gives it the replay, makes it active exactly when the stream is live, and changes no other trace, the buffer or the status. |
| Broadcast.EmitSpec | 03-subjects/projects/Rx-Chapter3/Rx-Chapter3/RxExample-3.playground/Contents.swift:8 | After termination an event is ignored; otherwise exactly the active subscribers receive it; an element updates the buffer and keeps the subscribers, a terminal event records the outcome and forgets them all. |
| Broadcast.DisposeSpec | 03-subjects/projects/Rx-Chapter3/Rx-Chapter3/RxExample-3.playground/Contents.swift:39 | `dispose()` deactivates that subscription and no other, changes no trace, buffer or status, and is a no-op for a handle that is not active. |
| Broadcast.CurrentValue | 03-subjects/projects/Rx-Chapter3/Rx-Chapter3/RxExample-3.playground/Contents.swift:169 | The value of a behavior stream is an error exactly when the stream failed, that error; otherwise the one buffered value. |
| Broadcast.StepKeepsWellFormed | 03-subjects/projects/Rx-Chapter3/Rx-Chapter3/RxExample-3.playground/Contents.swift:19-58 | Every operation keeps the invariant, never forgets a handed-out identity, and keeps the policy. |
| Broadcast.RunKeepsWellFormed | 03-subjects/projects/Rx-Chapter3/Rx-Chapter3/RxExample-3.playground/Contents.swift:19-58 | Any run of operations keeps the invariant, the handed-out identities and the policy. |
| Broadcast.StepKeepsLog | 03-subjects/projects/Rx-Chapter3/Rx-Chapter3/RxExample-3.playground/Contents.swift:91-113 | Every operation keeps the log in agreement with the traces. |
| Broadcast.RunKeepsLog | 03-subjects/projects/Rx-Chapter3/Rx-Chapter3/RxExample-3.playground/Contents.swift:91-113 | The whole output of any run, filtered to one subscriber, is exactly what that subscriber's trace grew by. |
| Broadcast.RunConcat | 03-subjects/projects/Rx-Chapter3/Rx-Chapter3/RxExample-3.playground/Contents.swift:19-58 | Running two scripts one after the other equals running their concatenation. |
| Broadcast.TerminalIsFinal | 03-subjects/projects/Rx-Chapter3/Rx-Chapter3/RxExample-3.playground/Contents.swift:43-45 | Once failed or completed, no run of operations changes a stream's terminal state or buffer. |
| Broadcast.GoneStep | 03-subjects/projects/Rx-Chapter3/Rx-Chapter3/RxExample-3.playground/Contents.swift:39-41 | A subscriber that is no longer active stays inactive, and no operation changes its trace. |
| Broadcast.SilentTrace | 03-subjects/projects/Rx-Chapter3/Rx-Chapter3/RxExample-3.playground/Contents.swift:39-45 | A disposed or terminated subscriber receives nothing more, whatever is run afterwards. |
| Broadcast.ActiveStep | 03-subjects/projects/Rx-Chapter3/Rx-Chapter3/RxExample-3.playground/Contents.swift:29-43 | One operation other than its disposal extends an active subscriber's trace by the emitted event; only a terminal event deactivates it. |
| Broadcast.ActiveTrace | 03-subjects/projects/Rx-Chapter3/Rx-Chapter3/RxExample-3.playground/Contents.swift:29-43 | An active subscriber that is not disposed receives exactly the accepted events, in emission order: every emitted event up to and including the first terminal one. |
| Broadcast.TerminalTrace | 03-subjects/projects/Rx-Chapter3/Rx-Chapter3/RxExample-3.playground/Contents.swift:43-45 | An active subscriber whose next event is terminal receives that event and nothing after it. |
| Broadcast.SubscriberLifetime | 03-subjects/projects/Rx-Chapter3/Rx-Chapter3/RxExample-3.playground/Contents.swift:19-47 | A subscriber that subscribes, lives through a run and is disposed receives what the policy replays, then, if the stream was live, the accepted events of the run; nothing from before it subscribed and nothing after its disposal. |
| Broadcast.ReplayKeepsNewest | 03-subjects/projects/Rx-Chapter3/Rx-Chapter3/RxExample-3.playground/Contents.swift:92-97 | A live replay stream given elements, with any subscriptions and disposals in between, stays live and keeps the newest `size` of everything it was given, oldest evicted first. |
| Broadcast.LatestHoldsLast | 03-subjects/projects/Rx-Chapter3/Rx-Chapter3/RxExample-3.playground/Contents.swift:149-169 | A live behavior stream given elements, with any subscriptions and disposals in between, stays live and has the last of them as its current value, or its earlier value if none came. |
| Subjects.Subject.Publish | 03-subjects/projects/Rx-Chapter3/Rx-Chapter3/RxExample-3.playground/Contents.swift:6 | A publish subject starts live, with no subscriber, an empty buffer and an empty log. |
| Subjects.Subject.Behavior | 03-subjects/projects/Rx-Chapter3/Rx-Chapter3/RxExample-3.playground/Contents.swift:69 | A behavior subject starts live, holding its initial value. |
| Subjects.Subject.Replay | 03-subjects/projects/Rx-Chapter3/Rx-Chapter3/RxExample-3.playground/Contents.swift:92 | A replay subject starts live with an empty buffer of the given size. |
| Subjects.Subject.Subscribe | 03-subjects/projects/Rx-Chapter3/Rx-Chapter3/RxExample-3.playground/Contents.swift:10-12 | The new subscriber gets the next identity and, at once, what the policy replays; it stays active only if the subject is live; the new state and log are those of the subscribe step. |
| Subjects.Subject.On | 03-subjects/projects/Rx-Chapter3/Rx-Chapter3/RxExample-3.playground/Contents.swift:8 | The new state is the emit step of the old one; the log grows by one invocation per active subscriber in subscription order, or by none once terminated. |
| Subjects.Subject.Notify | 03-subjects/projects/Rx-Chapter3/Rx-Chapter3/RxExample-3.playground/Contents.swift:111 | The delivery loop extends the traces of exactly the active subscribers and logs one invocation each, in list order. |
| Subjects.Subject.OnNext | 03-subjects/projects/Rx-Chapter3/Rx-Chapter3/RxExample-3.playground/Contents.swift:16 | `onNext(v)` is `on(.next(v))`. |
| Subjects.Subject.OnError | 03-subjects/projects/Rx-Chapter3/Rx-Chapter3/RxExample-3.playground/Contents.swift:80 | `onError(e)` is `on(.error(e))`. |
| Subjects.Subject.OnCompleted | 03-subjects/projects/Rx-Chapter3/Rx-Chapter3/RxExample-3.playground/Contents.swift:43 | `onCompleted()` is `on(.completed)`. |
| Subjects.Subject.Dispose | 03-subjects/projects/Rx-Chapter3/Rx-Chapter3/RxExample-3.playground/Contents.swift:39 | Disposing deactivates that subscription, changes nothing else and invokes no callback. |
| Subjects.Subject.Value | 03-subjects/projects/Rx-Chapter3/Rx-Chapter3/RxExample-3.playground/Contents.swift:169 | The current value of a behavior subject, or the error that ended it; it fails exactly when the subject failed. |
| Subjects.Relay.Publish | 03-subjects/projects/Rx-Chapter3/Rx-Chapter3/RxExample-3.playground/Contents.swift:126 | A publish relay starts as a fresh live publish subject with an empty log. |
| Subjects.Relay.Behavior | 03-subjects/projects/Rx-Chapter3/Rx-Chapter3/RxExample-3.playground/Contents.swift:150 | A behavior relay starts as a fresh live behavior subject holding its initial value. |
| Subjects.Relay.Accept | 03-subjects/projects/Rx-Chapter3/Rx-Chapter3/RxExample-3.playground/Contents.swift:129 | `accept(v)` is emitting an element, and the relay stays live. |
| Subjects.Relay.Subscribe | 03-subjects/projects/Rx-Chapter3/Rx-Chapter3/RxExample-3.playground/Contents.swift:131-135 | Subscribing to a relay is subscribing to its subject. |
| Subjects.Relay.Dispose | 03-subjects/projects/Rx-Chapter3/Rx-Chapter3/RxExample-3.playground/Contents.swift:135 | Disposing a relay subscription is disposing it on the subject; the relay stays live. |
| Subjects.Relay.Value | 03-subjects/projects/Rx-Chapter3/Rx-Chapter3/RxExample-3.playground/Contents.swift:169 | A behavior relay's value is always a success: a relay never fails. |
| SubjectExamples.PublishSubjectExample | 03-subjects/projects/Rx-Chapter3/Rx-Chapter3/RxExample-3.playground/Contents.swift:5-17 | The subscriber prints "Is anyone listening now?" and "Anyone there?"; the first element is lost. |
| SubjectExamples.PublishOpening | 03-subjects/projects/Rx-Chapter3/Rx-Chapter3/RxExample-3.playground/Contents.swift:20-29 | 1 reaches nobody; the first subscriber has received 2. |
| SubjectExamples.PublishMiddle | 03-subjects/projects/Rx-Chapter3/Rx-Chapter3/RxExample-3.playground/Contents.swift:32-39 | Both subscribers receive 3; then only the second is active. |
| SubjectExamples.PublishClosing | 03-subjects/projects/Rx-Chapter3/Rx-Chapter3/RxExample-3.playground/Contents.swift:41-47 | The second subscriber receives 4 and the completion; 5 reaches nobody and the subject is completed. |
| SubjectExamples.PublishSubjectInAction | 03-subjects/projects/Rx-Chapter3/Rx-Chapter3/RxExample-3.playground/Contents.swift:19-58 | sub1 prints 2, 3; sub2 prints 3, 4 and the completion; the late sub3 prints only the completion, and 6 reaches nobody. |
| SubjectExamples.BehaviorSubjectInAction | 03-subjects/projects/Rx-Chapter3/Rx-Chapter3/RxExample-3.playground/Contents.swift:68-89 | sub1 prints "Initial Value", "X" and the error; the late sub2 prints only the error; "Y" is printed by nobody. |
| SubjectExamples.RetainTwo | 03-subjects/projects/Rx-Chapter3/Rx-Chapter3/RxExample-3.playground/Contents.swift:92-97 | A buffer of size 2 given three elements holds the first one, then the first two, then the last two. |
| SubjectExamples.FeedUnwatched | 03-subjects/projects/Rx-Chapter3/Rx-Chapter3/RxExample-3.playground/Contents.swift:95-97 | An element given to a subject nobody watches updates only its buffer and invokes no callback. |
| SubjectExamples.ReplayBuffering | 03-subjects/projects/Rx-Chapter3/Rx-Chapter3/RxExample-3.playground/Contents.swift:92-97 | After "1", "2", "3" the size-2 buffer holds "2" and "3", and nothing has been printed. |
| SubjectExamples.ReplaySubscribing | 03-subjects/projects/Rx-Chapter3/Rx-Chapter3/RxExample-3.playground/Contents.swift:99-109 | Each new subscriber is handed "2" then "3" as it subscribes, sub1 before sub2. |
| SubjectExamples.ReplaySubjectInAction | 03-subjects/projects/Rx-Chapter3/Rx-Chapter3/RxExample-3.playground/Contents.swift:91-113 | The console shows the two replays, then "4" to sub1 and sub2, then the error to sub1 and sub2. |
| SubjectExamples.PublishRelayOpening | 03-subjects/projects/Rx-Chapter3/Rx-Chapter3/RxExample-3.playground/Contents.swift:126-137 | "1" reaches nobody; the first subscriber has received "2". |
| SubjectExamples.PublishRelayInAction | 03-subjects/projects/Rx-Chapter3/Rx-Chapter3/RxExample-3.playground/Contents.swift:123-147 | sub1 prints "2", "3", "4"; sub2 prints only "4". |
| SubjectExamples.BehaviorRelayOpening | 03-subjects/projects/Rx-Chapter3/Rx-Chapter3/RxExample-3.playground/Contents.swift:150-159 | sub1 is handed "Initial Value" at once, then "1". |
| SubjectExamples.BehaviorRelayInAction | 03-subjects/projects/Rx-Chapter3/Rx-Chapter3/RxExample-3.playground/Contents.swift:149-170 | sub1 prints "Initial Value", "1", "2"; sub2 prints "1", "2"; the current value is "2". |
| CardDeal.RemoveAt | 03-subjects/projects/Rx-Chapter3/Rx-Chapter3/RxExample-3.playground/Contents.swift:188 | Removing the card at an index shortens the deck by one and keeps every other card in order. |
| CardDeal.Draw | 03-subjects/projects/Rx-Chapter3/Rx-Chapter3/RxExample-3.playground/Contents.swift:185-190 | `n` draws give a hand of `n` cards and a deck `n` cards shorter. |
| CardDeal.Verdict | 03-subjects/projects/Rx-Chapter3/Rx-Chapter3/RxExample-3.playground/Contents.swift:195-200 | As written: the hand is sent on exactly when it scores more than 21; otherwise the error is `busted` with the points. |
| CardDeal.DealEvent | 03-subjects/projects/Rx-Chapter3/Rx-Chapter3/RxExample-3.playground/Contents.swift:180-201 | `deal` emits the drawn hand, the one it scored, exactly when it scores more than 21: `cardCount` cards taken from the deck; otherwise the `busted` error with its points. |
| CardDeal.DrawnCard | 03-subjects/projects/Rx-Chapter3/Rx-Chapter3/RxExample-3.playground/Contents.swift:186-187 | The `k`-th card of the hand is the card at the `k`-th chosen index of the deck left after `k` draws. |
| CardDeal.RemoveAtMultiset | 03-subjects/projects/Rx-Chapter3/Rx-Chapter3/RxExample-3.playground/Contents.swift:188 | `remove(at:)` takes out one copy of the chosen card and nothing else. |
| CardDeal.DrawPermutation | 03-subjects/projects/Rx-Chapter3/Rx-Chapter3/RxExample-3.playground/Contents.swift:185-190 | The hand and the remaining deck together hold exactly the cards of the original deck. |
| CardDeal.DistinctPermutation | 03-subjects/projects/Rx-Chapter3/Rx-Chapter3/RxExample-3.playground/Contents.swift:185-190 | Rearranging cards cannot create a repeated card. |
| CardDeal.DrawDistinct | 03-subjects/projects/Rx-Chapter3/Rx-Chapter3/RxExample-3.playground/Contents.swift:185-190 | From a deck without duplicates no card is drawn twice, and no drawn card remains in the deck. |
| CardDeal.DrawHand | 03-subjects/projects/Rx-Chapter3/Rx-Chapter3/RxExample-3.playground/Contents.swift:181-190 | The drawing loop yields the hand and deck of `Draw`: `cardCount` cards drawn, the deck that much shorter, and the same cards overall. |
| CardDeal.Deal | 03-subjects/projects/Rx-Chapter3/Rx-Chapter3/RxExample-3.playground/Contents.swift:180-201 | `deal` emits the verdict on the drawn hand on `dealtHand`; the subject's new state and log are those of that one emission. |
| CardDeal.DealExample | 03-subjects/projects/Rx-Chapter3/Rx-Chapter3/RxExample-3.playground/Contents.swift:174-214 | The subscriber prints exactly one line, the verdict on the three cards drawn. |
| LoginSession.SessionStep | 03-subjects/projects/Rx-Chapter3/Rx-Chapter3/RxExample-3.playground/Contents.swift:239-253 | A login with the known credentials logs in; any other login leaves the session unchanged; a logout logs out. |
| LoginSession.AuthenticOnlyKnown | 03-subjects/projects/Rx-Chapter3/Rx-Chapter3/RxExample-3.playground/Contents.swift:240-241 | The known username and password are accepted together; a wrong username or a wrong password alone rejects the login. |
| LoginSession.LoggedInIff | 03-subjects/projects/Rx-Chapter3/Rx-Chapter3/RxExample-3.playground/Contents.swift:239-253 | Starting logged out, the user is logged in exactly when some successful login has not been followed by a logout. |
| LoginSession.LoginChallenge.constructor | 03-subjects/projects/Rx-Chapter3/Rx-Chapter3/RxExample-3.playground/Contents.swift:230 | The session relay starts with `.loggedOut` and no subscriber. |
| LoginSession.LoginChallenge.LogInWith | 03-subjects/projects/Rx-Chapter3/Rx-Chapter3/RxExample-3.playground/Contents.swift:239-248 | With the known pair, the relay accepts `.loggedIn` and the completion is not called; otherwise the completion is called once with `invalidCredentials` and the relay is untouched. |
| LoginSession.LoginChallenge.LogOut | 03-subjects/projects/Rx-Chapter3/Rx-Chapter3/RxExample-3.playground/Contents.swift:250-253 | The relay accepts `.loggedOut`. |
| LoginSession.LoginChallenge.PerformActionRequiringLoggedInUser | 03-subjects/projects/Rx-Chapter3/Rx-Chapter3/RxExample-3.playground/Contents.swift:255-259 | The action runs exactly when the relay's value is `.loggedIn`. |
| LoginSession.LoginRound | 03-subjects/projects/Rx-Chapter3/Rx-Chapter3/RxExample-3.playground/Contents.swift:262-275 | One loop iteration: the login, then the gated action; the action runs exactly when the session is then logged in. |
| LoginSession.LoginRounds | 03-subjects/projects/Rx-Chapter3/Rx-Chapter3/RxExample-3.playground/Contents.swift:261-276 | The two rounds, wrong password then right one: the completion is called once, with the error, the action runs in round 2 only, and the session ends logged in. |
| LoginSession.LoginExample | 03-subjects/projects/Rx-Chapter3/Rx-Chapter3/RxExample-3.playground/Contents.swift:218-277 | The subscriber prints `.loggedOut` then `.loggedIn`; the completion is called once, with the error; the action runs in the second iteration only. |
| Collage.EnableClearButton | 04-observables-in-practice/projects/starter/Combinestagram/MainViewController.swift:70-72 | Clear is enabled exactly when at least one photo is selected. |
| Collage.EnableSaveButton | 04-observables-in-practice/projects/starter/Combinestagram/MainViewController.swift:74-87 | Save is disabled with no photo and enabled with one; from two photos on it is enabled exactly when their number is even. |
| Collage.EnableAddButton | 04-observables-in-practice/projects/starter/Combinestagram/MainViewController.swift:89-91 | Add is enabled exactly while fewer than `maxPhotosAllowed` (6) photos are selected. |
| Collage.Decimal | 04-observables-in-practice/projects/starter/Combinestagram/MainViewController.swift:97 | The interpolated count is a non-empty string of digits without a leading zero. |
| Collage.DecimalRoundTrip | 04-observables-in-practice/projects/starter/Combinestagram/MainViewController.swift:97 | Reading the interpolated count back gives the count. |
| Collage.Title | 04-observables-in-practice/projects/starter/Combinestagram/MainViewController.swift:97 | The title is "Collage" exactly when no photo is selected; otherwise it is a numeral followed by " Photos selected", and the numeral reads back as the count. |
| Collage.TitleInjective | 04-observables-in-practice/projects/starter/Combinestagram/MainViewController.swift:97 | Different counts get different titles. |
| Collage.TitlesOfFewPhotos | 04-observables-in-practice/projects/starter/Combinestagram/MainViewController.swift:97 | One and two photos give "1 Photos selected" and "2 Photos selected". |
| Collage.MainViewController.constructor | 04-observables-in-practice/projects/starter/Combinestagram/MainViewController.swift:44 | The relay starts as `[]`, with no subscriber. |
| Collage.MainViewController.UpdateUI | 04-observables-in-practice/projects/starter/Combinestagram/MainViewController.swift:93-98 | The three buttons and the title follow the number of selected photos. |
| Collage.MainViewController.ViewDidLoad | 04-observables-in-practice/projects/starter/Combinestagram/MainViewController.swift:51-68 | The preview subscribes first and the UI update second; each is handed the current selection at once, in that order. |
| Collage.MainViewController.Notified | 04-observables-in-practice/projects/starter/Combinestagram/MainViewController.swift:55-67 | After a notification the preview and the controls show the current selection. |
| Collage.MainViewController.ActionClear | 04-observables-in-practice/projects/starter/Combinestagram/MainViewController.swift:100-103 | The selection becomes empty and both subscriptions are notified in order; Clear and Save are then disabled, Add is enabled and the title is "Collage". |
| Collage.MainViewController.ActionAdd | 04-observables-in-practice/projects/starter/Combinestagram/MainViewController.swift:109-113 | The selection becomes the old one followed by the added image, with no limit check; both subscriptions are notified of it in order. |
| Collage.CollageLoaded | 04-observables-in-practice/projects/starter/Combinestagram/MainViewController.swift:51-68 | Once the screen has loaded nothing is selected and the title is "Collage". |
| Collage.CollageAddOne | 04-observables-in-practice/projects/starter/Combinestagram/MainViewController.swift:109-113 | Adding one photo to `count - 1` makes the title that of `count`. |
| Collage.CollageExample | 04-observables-in-practice/projects/starter/Combinestagram/MainViewController.swift:93-113 | Adding two photos and clearing moves the title through "Collage", "1 Photos selected", "2 Photos selected" and back to "Collage". |
| Observables.Elements | 02-observable-pg/projects/starter/Rx-chapter-2/Rx-chapter-2/Rx-2.playground/Contents.swift:24-26 | The elements a subscriber's `onNext` receives are the values of the leading element events of the run, in order, up to the first terminal event or the end. |
| Observables.Of | 02-observable-pg/projects/starter/Rx-chapter-2/Rx-chapter-2/Rx-2.playground/Contents.swift:11 | `of` emits each value in turn and then completes, with no terminal event before the end. |
| Observables.Just | 02-observable-pg/projects/starter/Rx-chapter-2/Rx-chapter-2/Rx-2.playground/Contents.swift:9 | `just(v)` is `of(v)`. |
| Observables.From | 02-observable-pg/projects/starter/Rx-chapter-2/Rx-chapter-2/Rx-2.playground/Contents.swift:14 | `from` yields one event per array element plus the completion. |
| Observables.Never | 02-observable-pg/projects/starter/Rx-chapter-2/Rx-chapter-2/Rx-2.playground/Contents.swift:33 | `never()` emits no event at all: no element, no error and no completion. |
| Observables.ElementsOf | 02-observable-pg/projects/starter/Rx-chapter-2/Rx-chapter-2/Rx-2.playground/Contents.swift:11-12 | A subscriber to `of` receives exactly the values it was built from. |
| Observables.FromIsOf | 02-observable-pg/projects/starter/Rx-chapter-2/Rx-chapter-2/Rx-2.playground/Contents.swift:14 | `from` over an array emits the same events as `of` over its elements. |
| Observables.JustOfFrom | 02-observable-pg/projects/starter/Rx-chapter-2/Rx-chapter-2/Rx-2.playground/Contents.swift:4-15 | `just(1)` and `of([1, 2, 3])` emit one element each; `of(1, 2, 3)` and `from([1, 2, 3])` emit 1, 2, 3. |
| Observables.SubscribeExample | 02-observable-pg/projects/starter/Rx-chapter-2/Rx-chapter-2/Rx-2.playground/Contents.swift:17-30 | The subscriber prints 1, 2, 3 and then "Completed!". |
| Observables.NeverExample | 02-observable-pg/projects/starter/Rx-chapter-2/Rx-chapter-2/Rx-2.playground/Contents.swift:32-40 | The subscriber of `never()` prints nothing. |
| Observables.DisposeExample | 02-observable-pg/projects/starter/Rx-chapter-2/Rx-chapter-2/Rx-2.playground/Contents.swift:42-48 | Disposing right after subscribing still lets "A", "B", "C" and the completion through. |
| Observables.Deferred.constructor | 02-observable-pg/projects/starter/Rx-chapter-2/Rx-chapter-2/Rx-2.playground/Contents.swift:53 | `flip` starts false. |
| Observables.Deferred.Subscribe | 02-observable-pg/projects/starter/Rx-chapter-2/Rx-chapter-2/Rx-2.playground/Contents.swift:55-62 | Each subscription toggles `flip`, then yields `of(1, 2, 3)` when it is now set and `of(4, 5, 6)` otherwise. |
| Observables.DeferredLine | 02-observable-pg/projects/starter/Rx-chapter-2/Rx-chapter-2/Rx-2.playground/Contents.swift:64-71 | Odd-numbered subscriptions print 1, 2, 3 and even-numbered ones 4, 5, 6, each exactly then. |
| Observables.DeferredLines | 02-observable-pg/projects/starter/Rx-chapter-2/Rx-chapter-2/Rx-2.playground/Contents.swift:50-72 | `n` subscriptions to a fresh `deferred` factory give, in order, the lines of `DeferredLine` for 1 to `n`. |
| Observables.DeferredExample | 02-observable-pg/projects/starter/Rx-chapter-2/Rx-chapter-2/Rx-2.playground/Contents.swift:50-72 | The four iterations print 123, 456, 123, 456. |
| Observables.LoadText | 02-observable-pg/projects/starter/Rx-chapter-2/Rx-chapter-2/Rx-2.playground/Contents.swift:81-104 | The first failing check decides the error (`fileNotFound`, then `unreadable`, then `encodingFailed`), each exactly in its case; otherwise the decoded contents. |
| Observables.LoadTextUsingObservables | 02-observable-pg/projects/starter/Rx-chapter-2/Rx-chapter-2/Rx-2.playground/Contents.swift:106-129 | Exactly one event, never a completion: an element with the contents when `loadText` succeeds, otherwise the same error. |
| Observables.LoadTextExample | 02-observable-pg/projects/starter/Rx-chapter-2/Rx-chapter-2/Rx-2.playground/Contents.swift:131-142 | Loading "Copyright" prints exactly one line, the outcome of `loadText`. |

## Left out

- RxSwift itself: schedulers, operator implementations and the `do(onSubscribe:)` and
  `debug` operators of the two chapter 2 challenges (02-observable-pg/projects/starter/Rx-chapter-2/Rx-chapter-2/Rx-2.playground/Contents.swift:147-177) are library code that
  is not in the repository.
- `replaySubject.dispose()` and the subscription after it (03-subjects/projects/Rx-Chapter3/Rx-Chapter3/RxExample-3.playground/Contents.swift:114-120): what a disposed
  subject does with a late subscriber is library-specific, so the replay script stops
  after the error.
- `DisposeBag`: disposal is an explicit `Dispose(id)` call. Bags that are never emptied
  during a script dispose of nothing there, so they are omitted.
- Nested emission from inside a callback is not modelled: no callback emits. Most
  callbacks only print; the two on the main screen redraw the preview and the controls.
- Printing is modelled as appending to per-subscriber traces and to one ordered log of
  deliveries; the exact text formatting of `print` is not modelled.
- UIKit: outlets, the collage rendering, `UIImage(named:)`, alerts, `actionSave` (empty in
  the starter) and `showMessage`. Photos are abstract tokens and the preview records the
  list it was drawn from.
- File access (`Bundle.main.path`, `FileManager`, UTF-8 decoding): the outcome of each of
  the three steps is an input of `LoadText`.
- `Int.random` in `deal`: the chosen indices are the input `picks`, each inside the range
  `0..<cardsRemaining` the source draws from (a wider count makes the source trap).
- `cards`, `points(for:)` and `HandError`, which the playground uses but does not define:
  the deck and the scoring function are inputs, and `HandError` has the one case `busted`.
- The error type of a relay is the unit type, since a relay never emits an error.
- Subjects.Relay: the restriction to `accept` is by contract, not by interface: the
  underlying `subject` is a public field, and `Valid` (live, not a replay buffer) is what
  a caller must keep by emitting on it only through `Accept`.
- Subjects.Subject: the agreement between the log and the traces is not kept as a class
  invariant. It is proved for every run of the state machine by `RunKeepsLog`, which the
  methods follow step by step.
- The `Single` type of `loadText` is modelled by its one outcome; its success and
  failure callbacks are not distinguished from an element and an error beyond that.

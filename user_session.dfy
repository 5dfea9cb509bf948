/**
  The login challenge of the chapter 3 playground: the session lives in a behavior
  relay that starts logged out; logging in with the one known pair of credentials
  moves it to logged in, logging out moves it back, and an action that needs a
  logged-in user runs only while the relay's value says so.
*/
module LoginSession {
  import opened Results
  import opened Broadcast
  import opened Subjects

  datatype UserSession = LoggedIn | LoggedOut

  datatype LoginError = InvalidCredentials

  const KnownUsername: string := "johnny@appleseed.com"
  const KnownPassword: string := "appleseed"

  /** The credential check of `logInWith`. */
  predicate Authentic(username: string, password: string) {
    username == KnownUsername && password == KnownPassword
  }

  /** The check accepts the one known pair, and a wrong username or a wrong password
      alone is enough to reject a login. */
  lemma AuthenticOnlyKnown(username: string, password: string)
    ensures Authentic(KnownUsername, KnownPassword)
    ensures username != KnownUsername ==> !Authentic(username, password)
    ensures password != KnownPassword ==> !Authentic(username, password)
  {
  }

  /** What a session can be asked to do. */
  datatype SessionOp = LogIn(username: string, password: string) | LogOut

  /** The session after one request: a login with the known credentials logs in,
      any other login leaves the session as it was, and a logout logs out. */
  function SessionStep(s: UserSession, op: SessionOp): (r: UserSession)
    ensures op.LogOut? ==> r == LoggedOut
    ensures op.LogIn? && Authentic(op.username, op.password) ==> r == LoggedIn
    ensures op.LogIn? && !Authentic(op.username, op.password) ==> r == s
  {
    match op
    case LogIn(username, password) => if Authentic(username, password) then LoggedIn else s
    case LogOut => LoggedOut
  }

  /** The session after a series of requests. */
  function SessionAfter(s: UserSession, ops: seq<SessionOp>): UserSession
    decreases |ops|
  {
    if ops == [] then s else SessionStep(SessionAfter(s, ops[..|ops| - 1]), ops[|ops| - 1])
  }

  /** Request `i` is a login with the known credentials and no logout follows it. */
  ghost predicate LoggedInAt(ops: seq<SessionOp>, i: int) {
    0 <= i < |ops| && ops[i].LogIn? && Authentic(ops[i].username, ops[i].password)
    && forall j :: i < j < |ops| ==> !ops[j].LogOut?
  }

  /** Starting logged out, the user is logged in exactly when some successful login
      has not been followed by a logout: failed logins never change the session. */
  lemma {:induction false} LoggedInIff(ops: seq<SessionOp>)
    ensures SessionAfter(LoggedOut, ops) == LoggedIn <==> exists i :: LoggedInAt(ops, i)
    decreases |ops|
  {
    if ops != [] {
      var init := ops[..|ops| - 1];
      var last := ops[|ops| - 1];
      LoggedInIff(init);
      if SessionAfter(LoggedOut, ops) == LoggedIn {
        if last.LogIn? && Authentic(last.username, last.password) {
          assert LoggedInAt(ops, |ops| - 1);
        } else {
          var i :| LoggedInAt(init, i);
          assert LoggedInAt(ops, i);
        }
      }
      if exists i :: LoggedInAt(ops, i) {
        var i :| LoggedInAt(ops, i);
        if i < |ops| - 1 {
          assert LoggedInAt(init, i);
        }
      }
    }
  }

  /** The session state of the challenge, held by a behavior relay. */
  class LoginChallenge {
    const behaviorRelay: Relay<UserSession>

    ghost predicate Valid()
      reads this, behaviorRelay, behaviorRelay.subject
    {
      behaviorRelay.Valid() && behaviorRelay.subject.policy.Latest?
    }

    /** The relay's current value. */
    ghost function Session(): UserSession
      reads this, behaviorRelay, behaviorRelay.subject
      requires Valid()
    {
      behaviorRelay.subject.buffer[0]
    }

    /** The relay starts with `.loggedOut` and nobody subscribed. */
    constructor ()
      ensures Valid() && fresh(behaviorRelay) && fresh(behaviorRelay.subject)
      ensures behaviorRelay.subject.Model() == Initial(Latest, [LoggedOut])
      ensures behaviorRelay.subject.log == []
    {
      behaviorRelay := new Relay<UserSession>.Behavior(LoggedOut);
    }

    /** `logInWith`: with the known credentials the relay accepts `.loggedIn` and the
        completion is not called; otherwise the completion is called once with
        `invalidCredentials` and the relay is left alone. `completions` lists the
        arguments of the completion calls made. */
    method LogInWith(username: string, password: string) returns (completions: seq<Option<LoginError>>)
      requires Valid()
      modifies behaviorRelay.subject
      ensures Valid()
      ensures Session() == SessionStep(old(Session()), LogIn(username, password))
      ensures Authentic(username, password) ==>
        completions == [] &&
        behaviorRelay.subject.Model() == EmitStep(old(behaviorRelay.subject.Model()), Next(LoggedIn)) &&
        behaviorRelay.subject.log == old(behaviorRelay.subject.log) + EmitOutput(old(behaviorRelay.subject.Model()), Next(LoggedIn))
      ensures !Authentic(username, password) ==>
        completions == [Some(InvalidCredentials)] &&
        behaviorRelay.subject.Model() == old(behaviorRelay.subject.Model()) &&
        behaviorRelay.subject.log == old(behaviorRelay.subject.log)
    {
      if !(username == KnownUsername && password == KnownPassword) {
        completions := [Some(InvalidCredentials)];
        return;
      }
      completions := [];
      behaviorRelay.Accept(LoggedIn);
    }

    /** `logOut`: the relay accepts `.loggedOut`. */
    method LogOut()
      requires Valid()
      modifies behaviorRelay.subject
      ensures Valid()
      ensures Session() == SessionStep(old(Session()), SessionOp.LogOut)
      ensures behaviorRelay.subject.Model() == EmitStep(old(behaviorRelay.subject.Model()), Next(LoggedOut))
      ensures behaviorRelay.subject.log == old(behaviorRelay.subject.log) + EmitOutput(old(behaviorRelay.subject.Model()), Next(LoggedOut))
    {
      behaviorRelay.Accept(LoggedOut);
    }

    /** `performActionRequiringLoggedInUser`: the action runs exactly when the relay's
        value is `.loggedIn`; `performed` says whether it ran. */
    method PerformActionRequiringLoggedInUser() returns (performed: bool)
      requires Valid()
      ensures performed <==> Session() == LoggedIn
    {
      var value := behaviorRelay.Value();
      if value != LoggedIn {
        return false;
      }
      performed := true;
    }
  }

  /** One round of the challenge script with a single subscriber: log in with
      `password`, then try the action. */
  method LoginRound(challenge: LoginChallenge, password: string) returns (calls: seq<Option<LoginError>>, did: bool)
    requires challenge.Valid()
    requires challenge.behaviorRelay.subject.active == [0] && |challenge.behaviorRelay.subject.traces| == 1
    modifies challenge.behaviorRelay.subject
    ensures challenge.Valid()
    ensures challenge.behaviorRelay.subject.active == [0] && |challenge.behaviorRelay.subject.traces| == 1
    ensures challenge.behaviorRelay.subject.traces[0] ==
      old(challenge.behaviorRelay.subject.traces[0]) + if Authentic(KnownUsername, password) then [Next(LoggedIn)] else []
    ensures challenge.Session() == SessionStep(old(challenge.Session()), LogIn(KnownUsername, password))
    ensures calls == if Authentic(KnownUsername, password) then [] else [Some(InvalidCredentials)]
    ensures did <==> challenge.Session() == LoggedIn
  {
    calls := challenge.LogInWith("johnny@appleseed.com", password);
    did := challenge.PerformActionRequiringLoggedInUser();
  }

  /** The challenge's session after `rounds` rounds of the script: one subscriber,
      which has printed `.loggedOut` and, once round 2 is over, `.loggedIn`. */
  ghost predicate AfterRounds(challenge: LoginChallenge, rounds: nat)
    reads challenge, challenge.behaviorRelay, challenge.behaviorRelay.subject
  {
    var subject := challenge.behaviorRelay.subject;
    && challenge.Valid()
    && subject.active == [0] && |subject.traces| == 1
    && subject.traces[0] == (if rounds < 2 then [Next(LoggedOut)] else [Next(LoggedOut), Next(LoggedIn)])
    && challenge.Session() == if rounds < 2 then LoggedOut else LoggedIn
  }

  /** Of the two passwords the script tries, only the second is accepted. */
  lemma ScriptPasswords()
    ensures !Authentic(KnownUsername, "password") && Authentic(KnownUsername, "appleseed")
  {
  }

  /** The two rounds of the challenge script, with a wrong password in round 1 and the
      right one in round 2: the completion is called once, with the error, and the
      action runs in round 2 only. */
  method LoginRounds(challenge: LoginChallenge) returns (completions: seq<Option<LoginError>>, performed: seq<bool>)
    requires AfterRounds(challenge, 0)
    modifies challenge.behaviorRelay.subject
    ensures AfterRounds(challenge, 2)
    ensures completions == [Some(InvalidCredentials)]
    ensures performed == [false, true]
  {
    ScriptPasswords();
    completions, performed := [], [];
    for i := 1 to 3
      invariant AfterRounds(challenge, i - 1)
      invariant completions == if i == 1 then [] else [Some(InvalidCredentials)]
      invariant performed == if i == 1 then [] else if i == 2 then [false] else [false, true]
    {
      var password := if i % 2 == 0 then "appleseed" else "password";
      var calls, did := LoginRound(challenge, password);
      completions := completions + calls;
      performed := performed + [did];
    }
  }

  /** The challenge script: a printing subscriber, then the two rounds. The subscriber
      prints `.loggedOut` and then `.loggedIn`. */
  method LoginExample() returns (printed: seq<Event<UserSession, ()>>, completions: seq<Option<LoginError>>,
                                 performed: seq<bool>)
    ensures printed == [Next(LoggedOut), Next(LoggedIn)]
    ensures completions == [Some(InvalidCredentials)]
    ensures performed == [false, true]
  {
    var challenge := new LoginChallenge();
    var one := challenge.behaviorRelay.Subscribe();
    completions, performed := LoginRounds(challenge);
    printed := challenge.behaviorRelay.subject.traces[one];
  }
}

/**
  The `deal` challenge of the chapter 3 playground: draw a hand of cards without
  replacement from a working copy of the deck, score it, and emit the outcome on a
  publish subject. The random index chosen at each draw is an input (`picks`), and
  so are the deck and the scoring function, which the playground leaves undefined.
*/
module CardDeal {
  import opened Broadcast
  import opened Subjects

  /** A card: its face and its value. */
  type Card = (string, int)

  datatype HandError = Busted(points: int)

  /** Each chosen index lies in the part of the deck still left at that draw. */
  predicate ValidPicks(deckSize: nat, picks: seq<nat>) {
    forall k :: 0 <= k < |picks| ==> picks[k] < deckSize - k
  }

  /** The deck with the card at position `i` taken out. */
  function RemoveAt(deck: seq<Card>, i: nat): (r: seq<Card>)
    requires i < |deck|
    ensures |r| == |deck| - 1
    ensures forall k :: 0 <= k < i ==> r[k] == deck[k]
    ensures forall k :: i <= k < |r| ==> r[k] == deck[k + 1]
  {
    deck[..i] + deck[i + 1..]
  }

  /** The hand drawn with `picks` and the deck left afterwards. */
  function Draw(deck: seq<Card>, picks: seq<nat>): (r: (seq<Card>, seq<Card>))
    requires ValidPicks(|deck|, picks)
    ensures |r.0| == |picks| && |r.1| == |deck| - |picks|
    decreases |picks|
  {
    if picks == [] then ([], deck)
    else
      var (hand, left) := Draw(deck, picks[..|picks| - 1]);
      var i := picks[|picks| - 1];
      (hand + [left[i]], RemoveAt(left, i))
  }

  /** What `deal` emits for a hand worth `points`, with the guard exactly as written:
      a hand of more than 21 points is sent on, any other hand is reported busted. */
  function Verdict(hand: seq<Card>, points: int): (r: Event<seq<Card>, HandError>)
    ensures r.Next? <==> points > 21
    ensures r.Next? ==> r.value == hand
    ensures !r.Next? ==> r == Error(Busted(points))
  {
    if points > 21 then Next(hand) else Error(Busted(points))
  }

  /** The whole outcome of `deal` as a function of its inputs. */
  function DealEvent(cards: seq<Card>, picks: seq<nat>, points: seq<Card> -> int): (r: Event<seq<Card>, HandError>)
    requires ValidPicks(|cards|, picks)
    ensures r.Next? <==> points(Draw(cards, picks).0) > 21
    ensures r.Next? ==> r.value == Draw(cards, picks).0
    ensures r.Next? ==> |r.value| == |picks| && multiset(r.value) <= multiset(cards)
    ensures !r.Next? ==> r == Error(Busted(points(Draw(cards, picks).0)))
  {
    var hand := Draw(cards, picks).0;
    DrawPermutation(cards, picks);
    Verdict(hand, points(hand))
  }

  /** Card `k` of a hand is the card at `picks[k]` of the deck left after `k` draws. */
  lemma DrawnCard(deck: seq<Card>, picks: seq<nat>, k: nat)
    requires ValidPicks(|deck|, picks) && k < |picks|
    ensures ValidPicks(|deck|, picks[..k])
    ensures Draw(deck, picks).0[k] == Draw(deck, picks[..k]).1[picks[k]]
    decreases |picks|
  {
    if k < |picks| - 1 {
      var init := picks[..|picks| - 1];
      assert init[..k] == picks[..k];
      DrawnCard(deck, init, k);
    }
  }

  /** Taking a card out of the deck removes one copy of it and nothing else. */
  lemma RemoveAtMultiset(deck: seq<Card>, i: nat)
    requires i < |deck|
    ensures multiset(RemoveAt(deck, i)) + multiset{deck[i]} == multiset(deck)
  {
    assert deck == deck[..i] + [deck[i]] + deck[i + 1..];
  }

  /** Drawing moves cards from the deck to the hand: together they hold exactly the
      cards of the original deck. */
  lemma {:induction false} DrawPermutation(deck: seq<Card>, picks: seq<nat>)
    requires ValidPicks(|deck|, picks)
    ensures multiset(Draw(deck, picks).0) + multiset(Draw(deck, picks).1) == multiset(deck)
    decreases |picks|
  {
    if picks != [] {
      var init := picks[..|picks| - 1];
      var (hand, left) := Draw(deck, init);
      DrawPermutation(deck, init);
      var i := picks[|picks| - 1];
      RemoveAtMultiset(left, i);
      assert multiset(hand + [left[i]]) == multiset(hand) + multiset{left[i]};
    }
  }

  /** A sequence without repeats holds each card at most once. */
  lemma {:induction false} DistinctCount(s: seq<Card>, c: Card)
    requires Distinct(s)
    ensures multiset(s)[c] <= 1
    decreases |s|
  {
    if s != [] {
      var init := s[..|s| - 1];
      assert s == init + [s[|s| - 1]];
      assert Distinct(init);
      DistinctCount(init, c);
      if c == s[|s| - 1] {
        assert c !in init;
      }
    }
  }

  /** A card at two positions is counted at least twice. */
  lemma RepeatCount(s: seq<Card>, i: nat, j: nat)
    requires i < j < |s| && s[i] == s[j]
    ensures multiset(s)[s[i]] >= 2
  {
    assert s == s[..j] + s[j..];
    assert s[i] in s[..j];
    assert s[j] in s[j..];
  }

  /** Rearranging cards cannot create a repeat. */
  lemma DistinctPermutation(a: seq<Card>, b: seq<Card>)
    requires multiset(a) == multiset(b) && Distinct(a)
    ensures Distinct(b)
  {
    forall i, j | 0 <= i < j < |b| ensures b[i] != b[j] {
      if b[i] == b[j] {
        RepeatCount(b, i, j);
        DistinctCount(a, b[i]);
      }
    }
  }

  /** From a deck without duplicate cards, no card is drawn twice, and no drawn card
      is still in the deck. */
  lemma DrawDistinct(deck: seq<Card>, picks: seq<nat>)
    requires ValidPicks(|deck|, picks) && Distinct(deck)
    ensures Distinct(Draw(deck, picks).0)
    ensures forall c :: c in Draw(deck, picks).0 ==> c !in Draw(deck, picks).1
  {
    var (hand, left) := Draw(deck, picks);
    DrawPermutation(deck, picks);
    assert multiset(hand + left) == multiset(deck);
    DistinctPermutation(deck, hand + left);
    forall i, j | 0 <= i < |hand| && 0 <= j < |left| ensures hand[i] != left[j] {
      assert (hand + left)[i] == hand[i] && (hand + left)[|hand| + j] == left[j];
    }
    forall i, j | 0 <= i < j < |hand| ensures hand[i] != hand[j] {
      assert (hand + left)[i] == hand[i] && (hand + left)[j] == hand[j];
    }
  }

  /** The drawing loop of `deal`: each step takes the card at the chosen index into
      the hand, removes it from the working deck and counts one card fewer left. */
  method DrawHand(cards: seq<Card>, cardCount: nat, picks: seq<nat>) returns (hand: seq<Card>, deck: seq<Card>)
    requires |picks| == cardCount && ValidPicks(|cards|, picks)
    ensures (hand, deck) == Draw(cards, picks)
    ensures |hand| == cardCount && |deck| == |cards| - cardCount
    ensures multiset(hand) + multiset(deck) == multiset(cards)
  {
    deck := cards;
    var cardsRemaining := |deck|;
    hand := [];
    for k := 0 to cardCount
      invariant ValidPicks(|cards|, picks[..k])
      invariant (hand, deck) == Draw(cards, picks[..k])
      invariant cardsRemaining == |deck| == |cards| - k
    {
      var randomIndex := picks[k];
      assert picks[..k + 1][..k] == picks[..k];
      hand := hand + [deck[randomIndex]];
      deck := RemoveAt(deck, randomIndex);
      cardsRemaining := cardsRemaining - 1;
    }
    assert picks[..cardCount] == picks;
    DrawPermutation(cards, picks);
  }

  /** `deal(cardCount)`: draws the hand, then emits its verdict on `dealtHand`. */
  method Deal(dealtHand: Subject<seq<Card>, HandError>, cards: seq<Card>, cardCount: nat,
              picks: seq<nat>, points: seq<Card> -> int)
    requires dealtHand.Valid()
    requires |picks| == cardCount && ValidPicks(|cards|, picks)
    modifies dealtHand
    ensures dealtHand.Valid()
    ensures dealtHand.Model() == EmitStep(old(dealtHand.Model()), DealEvent(cards, picks, points))
    ensures dealtHand.log == old(dealtHand.log) + EmitOutput(old(dealtHand.Model()), DealEvent(cards, picks, points))
  {
    var hand, deck := DrawHand(cards, cardCount, picks);
    var pointsCalculated := points(hand);
    if !(pointsCalculated > 21) {
      dealtHand.On(Error(Busted(pointsCalculated)));
      return;
    }
    dealtHand.On(Next(hand));
  }

  /** The challenge script: one subscriber, then `deal(3)`; the subscriber prints
      exactly one line, the verdict on the three cards drawn. */
  method DealExample(cards: seq<Card>, picks: seq<nat>, points: seq<Card> -> int)
      returns (printed: seq<Event<seq<Card>, HandError>>)
    requires |picks| == 3 && ValidPicks(|cards|, picks)
    ensures printed == [DealEvent(cards, picks, points)]
    ensures printed[0].Next? ==> |printed[0].value| == 3
  {
    var dealtHand := new Subject<seq<Card>, HandError>.Publish();
    var one := dealtHand.Subscribe();
    Deal(dealtHand, cards, 3, picks, points);
    printed := dealtHand.traces[one];
  }
}

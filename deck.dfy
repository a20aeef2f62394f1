/** Cards, the random draw from a pool, dealt hands and the card sums used to
    state that no answer card is ever duplicated or lost. */
module Deck {

  import opened Wrappers
  import opened Text

  /** A prompt or answer card as loaded from the card files; identity is `id`. */
  datatype Card = Card(id: string, text: string)

  /** The outcome of one draw: the card taken (None for an empty pool) and what
      is left of the pool. */
  datatype Drawn = Drawn(card: Option<Card>, rest: seq<Card>)

  /** `draw`: removes the card at `idx`, the position the random number
      generator picked, and returns it; an empty pool gives no card. */
  function Draw(pool: seq<Card>, idx: nat): (r: Drawn)
    requires pool != [] ==> idx < |pool|
    ensures pool == [] ==> r.card == None && r.rest == pool
    ensures pool != [] ==> r.card == Some(pool[idx])
    ensures pool != [] ==> |r.rest| == |pool| - 1
    ensures pool != [] ==> multiset(r.rest) + multiset{r.card.value} == multiset(pool)
    ensures pool != [] ==> r.rest[..idx] == pool[..idx] && r.rest[idx..] == pool[idx + 1..]
  {
    if pool == [] then Drawn(None, pool)
    else
      assert pool == pool[..idx] + [pool[idx]] + pool[idx + 1..];
      Drawn(Some(pool[idx]), pool[..idx] + pool[idx + 1..])
  }

  /** The position a draw takes from a pool of `n` cards,
      `Math.floor(Math.random() * n)`: the random source is the sequence of
      numbers `Math.random()` will return, each scaled to a natural number,
      and the next one is reduced to the pool size. A source that has run dry
      gives position 0. */
  function Pick(rng: seq<nat>, n: nat): (i: nat)
    ensures n > 0 ==> i < n
  {
    if n == 0 then 0 else (if rng == [] then 0 else rng[0]) % n
  }

  /** The random source after one number has been taken from it. */
  function Advance(rng: seq<nat>): seq<nat>
  {
    if rng == [] then [] else rng[1..]
  }

  /** A hand after topping up, with what is left of the deck and of the random source. */
  datatype Filled = Filled(hand: seq<Card>, deck: seq<Card>, rng: seq<nat>)

  /** The loop of `dealAnswers`: while the hand holds fewer than `count`
      cards and the deck is not empty, a random card of the deck goes to the
      end of the hand. */
  function TopUp(hand: seq<Card>, deck: seq<Card>, count: nat, rng: seq<nat>): Filled
    decreases |deck|
  {
    if |hand| < count && deck != [] then
      var d := Draw(deck, Pick(rng, |deck|));
      TopUp(hand + [d.card.value], d.rest, count, Advance(rng))
    else
      Filled(hand, deck, rng)
  }

  /** Topping up only adds cards at the end of the hand, and moves them from
      the deck and from nowhere else. */
  lemma {:induction false} TopUpKeepsCards(hand: seq<Card>, deck: seq<Card>, count: nat, rng: seq<nat>)
    ensures var f := TopUp(hand, deck, count, rng);
      && hand <= f.hand
      && multiset(f.hand) + multiset(f.deck) == multiset(hand) + multiset(deck)
    decreases |deck|
  {
    if |hand| < count && deck != [] {
      var d := Draw(deck, Pick(rng, |deck|));
      var hand' := hand + [d.card.value];
      TopUpKeepsCards(hand', d.rest, count, Advance(rng));
      assert hand <= hand';
      assert multiset(hand') == multiset(hand) + multiset{d.card.value};
    }
  }

  /** Topping up stops with `count` cards in hand or with an empty deck, so
      the new length is fixed by the starting sizes. */
  lemma {:induction false} TopUpLength(hand: seq<Card>, deck: seq<Card>, count: nat, rng: seq<nat>)
    ensures var f := TopUp(hand, deck, count, rng);
      && |f.hand| == (if |hand| >= count then |hand| else Min(count, |hand| + |deck|))
      && (|f.hand| >= count || f.deck == [])
    decreases |deck|
  {
    if |hand| < count && deck != [] {
      var d := Draw(deck, Pick(rng, |deck|));
      TopUpLength(hand + [d.card.value], d.rest, count, Advance(rng));
    }
  }

  /** A hand that already holds `count` cards, or an empty deck, is left as it is. */
  lemma TopUpIdle(hand: seq<Card>, deck: seq<Card>, count: nat, rng: seq<nat>)
    requires |hand| >= count || deck == []
    ensures TopUp(hand, deck, count, rng) == Filled(hand, deck, rng)
  {
  }

  /** `findIndex(c => c.id === cardId)`: the first position holding a card with
      that id, or None. */
  function FirstIndexOf(hand: seq<Card>, cardId: string): (r: Option<nat>)
    ensures r.None? <==> (forall j :: 0 <= j < |hand| ==> hand[j].id != cardId)
    ensures r.Some? ==> r.value < |hand| && hand[r.value].id == cardId
    ensures r.Some? ==> forall j :: 0 <= j < r.value ==> hand[j].id != cardId
    decreases |hand|
  {
    if hand == [] then None
    else if hand[0].id == cardId then Some(0)
    else
      match FirstIndexOf(hand[1..], cardId)
      case None => None
      case Some(k) => Some(k + 1)
  }

  /** The multiset of all cards held in a map of hands. */
  ghost function HandCards(hands: map<string, seq<Card>>): multiset<Card>
    decreases |hands|
  {
    if hands == map[] then multiset{}
    else
      var k :| k in hands;
      assert (hands - {k}).Keys == hands.Keys - {k};
      multiset(hands[k]) + HandCards(hands - {k})
  }

  /** Any one hand can be split off the sum, whichever hand the definition
      happens to pick first. */
  lemma {:induction false} HandCardsRemove(hands: map<string, seq<Card>>, p: string)
    requires p in hands
    ensures HandCards(hands) == multiset(hands[p]) + HandCards(hands - {p})
    decreases |hands|
  {
    var k :| k in hands && HandCards(hands) == multiset(hands[k]) + HandCards(hands - {k});
    if k != p {
      var rest := hands - {k};
      var restP := hands - {p};
      assert rest.Keys == hands.Keys - {k};
      assert restP.Keys == hands.Keys - {p};
      HandCardsRemove(rest, p);
      HandCardsRemove(restP, k);
      RemoveBoth(hands, k, p);
      CardsSwap(multiset(hands[k]), multiset(hands[p]), HandCards(rest - {p}));
    }
  }

  /** Removing two keys from a map does not depend on their order. */
  lemma RemoveBoth(hands: map<string, seq<Card>>, k: string, p: string)
    ensures (hands - {k}) - {p} == (hands - {p}) - {k}
  {
  }

  /** Card sums may be regrouped. */
  lemma CardsSwap(a: multiset<Card>, b: multiset<Card>, c: multiset<Card>)
    ensures a + (b + c) == b + (a + c)
  {
  }

  /** Replacing (or adding) the hand of `p` changes the sum by exactly that hand. */
  lemma HandCardsUpdate(hands: map<string, seq<Card>>, p: string, h: seq<Card>)
    ensures HandCards(hands[p := h]) + (if p in hands then multiset(hands[p]) else multiset{})
         == HandCards(hands) + multiset(h)
  {
    var updated := hands[p := h];
    HandCardsRemove(updated, p);
    assert updated - {p} == hands - {p};
    if p in hands {
      HandCardsRemove(hands, p);
    } else {
      assert hands - {p} == hands;
    }
  }

  /** The cards a hand map holds for `p`, or nothing if it has no hand yet
      (`room.hands[id] || []`). */
  function HandOf(hands: map<string, seq<Card>>, p: string): seq<Card>
  {
    if p in hands then hands[p] else []
  }

  /** Reading a missing hand as empty and filing it adds no card to the sum. */
  lemma HandOfAddsNothing(hands: map<string, seq<Card>>, p: string)
    ensures HandCards(hands[p := HandOf(hands, p)]) == HandCards(hands)
  {
    var h := HandOf(hands, p);
    HandCardsUpdate(hands, p, h);
    var held := if p in hands then multiset(hands[p]) else multiset{};
    assert held == multiset(h);
    forall x ensures HandCards(hands[p := h])[x] == HandCards(hands)[x] {
      assert (HandCards(hands[p := h]) + held)[x] == (HandCards(hands) + multiset(h))[x];
    }
  }

  /** Cards that move between a deck and the hand of `p` are neither made nor lost. */
  lemma HandCardsDeal(hands: map<string, seq<Card>>, p: string, h: seq<Card>, deck0: seq<Card>, deck1: seq<Card>)
    requires multiset(h) + multiset(deck1) == multiset(HandOf(hands, p)) + multiset(deck0)
    ensures HandCards(hands[p := h]) + multiset(deck1) == HandCards(hands) + multiset(deck0)
  {
    HandCardsUpdate(hands, p, h);
    var before := multiset(HandOf(hands, p));
    var lhs := HandCards(hands[p := h]) + multiset(deck1);
    var rhs := HandCards(hands) + multiset(deck0);
    forall x ensures lhs[x] == rhs[x] {
      assert (HandCards(hands[p := h]) + before)[x] == (HandCards(hands) + multiset(h))[x];
      assert (multiset(h) + multiset(deck1))[x] == (before + multiset(deck0))[x];
    }
    assert lhs == rhs;
  }

  /** Taking card `c` out of the hand of `p` takes exactly `c` out of the sum. */
  lemma HandCardsTake(hands: map<string, seq<Card>>, p: string, h: seq<Card>, c: Card)
    requires p in hands && multiset(h) + multiset{c} == multiset(hands[p])
    ensures HandCards(hands[p := h]) + multiset{c} == HandCards(hands)
  {
    HandCardsUpdate(hands, p, h);
    var lhs := HandCards(hands[p := h]) + multiset{c};
    forall x ensures lhs[x] == HandCards(hands)[x] {
      assert (HandCards(hands[p := h]) + multiset(hands[p]))[x] == (HandCards(hands) + multiset(h))[x];
      assert (multiset(h) + multiset{c})[x] == multiset(hands[p])[x];
    }
  }
}

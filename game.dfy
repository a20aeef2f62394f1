/** The values and the pure rules of the room engine: players, submissions
    and outbound events, the target clamp, the victory test, the deals and
    the round rotation that the handlers in module Engine are specified by,
    and the card pool the deals keep. */
module Game {

  import opened Wrappers
  import opened Deck
  import opened Text

  /** The hand size every deal tops up to. */
  const HandSize: nat := 7

  /** The target score of a new room, and the one a missing target falls back to. */
  const DefaultPointsToWin: int := 7
  const MinPointsToWin: int := 3
  const MaxPointsToWin: int := 15

  const RoomNotFoundText: string := "Raum nicht gefunden."
  const GameStartedText: string := "Spiel hat bereits begonnen."

  datatype Mode = Office | Open

  /** A player record; `id` is the connection's id. */
  datatype Player = Player(id: string, name: string, score: nat)

  /** A card laid down in the current round, with who laid it. */
  datatype Submission = Submission(playerId: string, card: Card)

  /** What `publicRoom` shows every member: no hands, decks or submissions. */
  datatype PublicRoom = PublicRoom(
    code: string,
    hostId: string,
    players: map<string, Player>,
    started: bool,
    pointsToWin: int,
    mode: Mode)

  datatype Event =
    | RoomUpdate(room: PublicRoom)
    | ErrorMsg(text: string)
    | NewRound(round: nat, judgeId: string, prompt: Option<Card>)
    | SubmissionsCount(count: nat)
    | AllSubmitted
    | RoundResult(winnerId: string, winnerName: string, card: Option<Card>, prompt: Option<Card>)
    | GameOver(winnerId: string, winnerName: string)

  /** An event sent to every member of a room, or only to the acting connection. */
  datatype Outbound = ToRoom(code: string, event: Event) | ToCaller(event: Event)

  /** `Math.max(3, Math.min(15, pointsToWin || 7))`; `None` stands for a
      missing or non-numeric value, and 0 is falsy as well. */
  function ClampPoints(p: Option<int>): (r: int)
    ensures MinPointsToWin <= r <= MaxPointsToWin
    ensures p.None? || p.value == 0 ==> r == DefaultPointsToWin
    ensures p.Some? && p.value != 0 && MinPointsToWin <= p.value <= MaxPointsToWin ==> r == p.value
    ensures p.Some? && p.value != 0 && p.value < MinPointsToWin ==> r == MinPointsToWin
    ensures p.Some? && p.value > MaxPointsToWin ==> r == MaxPointsToWin
  {
    var wanted := if p.None? || p.value == 0 then DefaultPointsToWin else p.value;
    if wanted < MinPointsToWin then MinPointsToWin
    else if wanted > MaxPointsToWin then MaxPointsToWin
    else wanted
  }

  /** A target that is already clamped is kept by a second clamp. */
  lemma ClampPointsIdempotent(p: Option<int>)
    ensures ClampPoints(Some(ClampPoints(p))) == ClampPoints(p)
  {
  }

  /** The cards of a list of submissions, in order. */
  function SubmittedCards(subs: seq<Submission>): seq<Card>
  {
    seq(|subs|, i requires 0 <= i < |subs| => subs[i].card)
  }

  /** The ids of everybody who submitted, in submission order. */
  function Submitters(subs: seq<Submission>): seq<string>
  {
    seq(|subs|, i requires 0 <= i < |subs| => subs[i].playerId)
  }

  /** The position of the first submission by `playerId`, or None. */
  function FirstSubmissionBy(subs: seq<Submission>, playerId: string): (r: Option<nat>)
    ensures r.None? <==> (forall j :: 0 <= j < |subs| ==> subs[j].playerId != playerId)
    ensures r.Some? ==> r.value < |subs| && subs[r.value].playerId == playerId
    ensures r.Some? ==> forall j :: 0 <= j < r.value ==> subs[j].playerId != playerId
    decreases |subs|
  {
    if subs == [] then None
    else if subs[0].playerId == playerId then Some(0)
    else
      match FirstSubmissionBy(subs[1..], playerId)
      case None => None
      case Some(k) => Some(k + 1)
  }

  /** `submissions.find(s => s.playerId === playerId)?.card`: the card of the
      first submission by `playerId`, or None if that player submitted nothing. */
  function FirstSubmissionCard(subs: seq<Submission>, playerId: string): (r: Option<Card>)
    ensures r.None? <==> forall i :: 0 <= i < |subs| ==> subs[i].playerId != playerId
    ensures r.Some? ==> exists i ::
      && 0 <= i < |subs| && subs[i].playerId == playerId && r.value == subs[i].card
      && forall j :: 0 <= j < i ==> subs[j].playerId != playerId
  {
    match FirstSubmissionBy(subs, playerId)
    case None => None
    case Some(i) => Some(subs[i].card)
  }

  /** `order.filter(id => id !== x)`. */
  function RemoveAll(s: seq<string>, x: string): (r: seq<string>)
    ensures x !in r
    ensures forall y :: y != x ==> (y in r <==> y in s)
    ensures multiset(r) == multiset(s)[x := 0]
  {
    if s == [] then []
    else
      assert s == [s[0]] + s[1..];
      if s[0] == x then RemoveAll(s[1..], x) else [s[0]] + RemoveAll(s[1..], x)
  }

  /** Filtering keeps the relative order: it distributes over concatenation. */
  lemma {:induction false} RemoveAllConcat(a: seq<string>, b: seq<string>, x: string)
    ensures RemoveAll(a + b, x) == RemoveAll(a, x) + RemoveAll(b, x)
  {
    if a != [] {
      assert (a + b)[1..] == a[1..] + b;
      RemoveAllConcat(a[1..], b, x);
    } else {
      assert a + b == b;
    }
  }

  /** An order the leaving player is not in stays as it is. */
  lemma {:induction false} RemoveAllAbsent(s: seq<string>, x: string)
    requires x !in s
    ensures RemoveAll(s, x) == s
  {
    if s != [] {
      RemoveAllAbsent(s[1..], x);
      assert s == [s[0]] + s[1..];
    }
  }

  /** Leaving a second time changes nothing. */
  lemma RemoveAllIdempotent(s: seq<string>, x: string)
    ensures RemoveAll(RemoveAll(s, x), x) == RemoveAll(s, x)
  {
    RemoveAllAbsent(RemoveAll(s, x), x);
  }

  /** Who plays in a room, in which turn order, and who hosts it: the part of
      a room the `disconnecting` handler changes. */
  datatype Membership = Membership(players: map<string, Player>, order: seq<string>, hostId: string)

  /** The caller leaves a room: their record goes, every place of theirs in
      the turn order goes, and a departing host hands over to the first
      remaining player. */
  function Depart(m: Membership, caller: string): (r: Membership)
    ensures caller !in r.players && caller !in r.order
    ensures r.order != [] ==> r.hostId != caller
    ensures m.hostId != caller ==> r.hostId == m.hostId
    ensures m.hostId == caller && r.order != [] ==> r.hostId == r.order[0]
  {
    var order := RemoveAll(m.order, caller);
    Membership(m.players - {caller}, order, if order != [] && m.hostId == caller then order[0] else m.hostId)
  }

  /** Leaving keeps players and turn order in agreement, with a host among
      them while anybody is left. */
  lemma DepartKeepsAgreement(m: Membership, caller: string)
    requires MembersAgree(m.players, m.order, m.hostId)
    ensures var r := Depart(m, caller); MembersAgree(r.players, r.order, r.hostId)
  {
  }

  /** Leaving a room a second time changes nothing. */
  lemma DepartIdempotent(m: Membership, caller: string)
    ensures Depart(Depart(m, caller), caller) == Depart(m, caller)
  {
    var r := Depart(m, caller);
    RemoveAllIdempotent(m.order, caller);
    assert r.players - {caller} == r.players;
  }

  /** One pass of the `disconnecting` loop over the table of memberships: the
      caller leaves the room under `code`, and a room left empty is dropped. */
  function LeaveAt(t: map<string, Membership>, caller: string, code: string): map<string, Membership>
  {
    if code !in t then t
    else
      var m := Depart(t[code], caller);
      if m.order == [] then t - {code} else t[code := m]
  }

  /** The whole `disconnecting` loop over the table: one pass per code, in order. */
  function LeaveAll(t: map<string, Membership>, caller: string, codes: seq<string>): map<string, Membership>
    decreases |codes|
  {
    if codes == [] then t
    else LeaveAt(LeaveAll(t, caller, codes[..|codes| - 1]), caller, codes[|codes| - 1])
  }

  /** One pass drops the room under `code` exactly when the caller's
      departure leaves it empty, keeps it with the caller gone otherwise, and
      leaves every other room as it was. */
  lemma LeaveAtSpec(t: map<string, Membership>, caller: string, code: string)
    ensures var r := LeaveAt(t, caller, code);
      forall c :: c in r <==> c in t && (c == code ==> Depart(t[c], caller).order != [])
    ensures var r := LeaveAt(t, caller, code);
      forall c :: c in r ==> r[c] == if c == code then Depart(t[c], caller) else t[c]
  {
  }

  /** After the loop, a room is gone exactly when it was among the codes and
      the caller's departure left its turn order empty; every room among the
      codes that is kept shows the caller's departure, once, however often its
      code occurs; every other room is as it was. */
  lemma {:induction false} LeaveAllSpec(t: map<string, Membership>, caller: string, codes: seq<string>)
    ensures var r := LeaveAll(t, caller, codes);
      forall c :: c in r <==> c in t && (c in codes ==> Depart(t[c], caller).order != [])
    ensures var r := LeaveAll(t, caller, codes);
      forall c :: c in r ==> r[c] == if c in codes then Depart(t[c], caller) else t[c]
    decreases |codes|
  {
    if codes != [] {
      var init := codes[..|codes| - 1];
      var code := codes[|codes| - 1];
      assert codes == init + [code];
      LeaveAllSpec(t, caller, init);
      var prev := LeaveAll(t, caller, init);
      LeaveAtSpec(prev, caller, code);
      if code in prev && code in init {
        DepartIdempotent(t[code], caller);
      }
    }
  }


  /** The larger of two numbers. */
  function Max(a: int, b: int): int
  {
    if a >= b then a else b
  }

  /** Every non-empty table of players has a highest score. */
  lemma {:induction false} MaxScoreExists(players: map<string, Player>)
    requires players != map[]
    ensures exists m :: IsMaxScore(players, m)
    decreases |players|
  {
    var id :| id in players;
    var rest := players - {id};
    assert rest.Keys == players.Keys - {id};
    if rest == map[] {
      assert IsMaxScore(players, players[id].score) by {
        forall j | j in players ensures players[j].score <= players[id].score {
          assert j !in rest;
        }
      }
    } else {
      MaxScoreExists(rest);
      var m' :| IsMaxScore(rest, m');
      var m := Max(players[id].score, m');
      assert IsMaxScore(players, m) by {
        forall j | j in players ensures players[j].score <= m {
          if j != id { assert j in rest && rest[j] == players[j]; }
        }
        if m' > players[id].score {
          var k :| k in rest && rest[k].score == m';
        }
      }
    }
  }

  /** `m` is the highest score in the table. */
  ghost predicate IsMaxScore(players: map<string, Player>, m: int)
  {
    && (forall id :: id in players ==> players[id].score <= m)
    && (exists id :: id in players && players[id].score == m)
  }

  /** `Math.max(...Object.values(players).map(p => p.score))`. */
  ghost function MaxScore(players: map<string, Player>): (m: int)
    requires players != map[]
    ensures forall id :: id in players ==> players[id].score <= m
    ensures exists id :: id in players && players[id].score == m
  {
    MaxScoreExists(players);
    var m :| IsMaxScore(players, m);
    m
  }

  /** Whether some player has reached the target: the test the victory check makes. */
  function ReachedTarget(players: map<string, Player>, target: int): bool
  {
    exists id :: id in players && players[id].score >= target
  }

  /** Some player has reached the target exactly when the maximum score has. */
  lemma ReachedTargetIsMaxScore(players: map<string, Player>, target: int)
    requires players != map[]
    ensures ReachedTarget(players, target) <==> MaxScore(players) >= target
  {
  }

  /** Submitting one more card adds its card at the end. */
  lemma SubmittedCardsAppend(subs: seq<Submission>, s: Submission)
    ensures SubmittedCards(subs + [s]) == SubmittedCards(subs) + [s.card]
  {
  }

  /** The answer cards in a deck, a discard pile, the hands and the submissions together. */
  ghost function AnswerPool(deck: seq<Card>, discard: seq<Card>, hands: map<string, seq<Card>>, subs: seq<Submission>): multiset<Card>
  {
    multiset(deck) + multiset(discard) + HandCards(hands) + multiset(SubmittedCards(subs))
  }

  /** Dealing moves cards from the deck into one hand and keeps the pool. */
  lemma PoolAfterDeal(deck0: seq<Card>, deck1: seq<Card>, discard: seq<Card>, hands: map<string, seq<Card>>,
                      p: string, h: seq<Card>, subs: seq<Submission>)
    requires multiset(h) + multiset(deck1) == multiset(HandOf(hands, p)) + multiset(deck0)
    ensures AnswerPool(deck1, discard, hands[p := h], subs) == AnswerPool(deck0, discard, hands, subs)
  {
    HandCardsDeal(hands, p, h, deck0, deck1);
    var lhs := AnswerPool(deck1, discard, hands[p := h], subs);
    var rhs := AnswerPool(deck0, discard, hands, subs);
    forall x ensures lhs[x] == rhs[x] {
      assert (HandCards(hands[p := h]) + multiset(deck1))[x] == (HandCards(hands) + multiset(deck0))[x];
    }
    assert lhs == rhs;
  }

  /** Submitting moves one card from a hand to the end of the submissions and keeps the pool. */
  lemma PoolAfterSubmit(deck: seq<Card>, discard: seq<Card>, hands: map<string, seq<Card>>,
                        p: string, i: nat, subs: seq<Submission>)
    requires p in hands && i < |hands[p]|
    ensures var h := hands[p];
      AnswerPool(deck, discard, hands[p := h[..i] + h[i + 1..]], subs + [Submission(p, h[i])])
      == AnswerPool(deck, discard, hands, subs)
  {
    var h := hands[p];
    assert h == h[..i] + [h[i]] + h[i + 1..];
    HandCardsTake(hands, p, h[..i] + h[i + 1..], h[i]);
    SubmittedCardsAppend(subs, Submission(p, h[i]));
  }

  /** Moving every submitted card to the discard pile keeps the pool. */
  lemma PoolAfterClear(deck: seq<Card>, discard: seq<Card>, hands: map<string, seq<Card>>, subs: seq<Submission>)
    ensures AnswerPool(deck, discard + SubmittedCards(subs), hands, []) == AnswerPool(deck, discard, hands, subs)
  {
    assert SubmittedCards([]) == [];
  }

  /** Every player record is filed under its own id, the turn order holds
      exactly the players, and a room with players has one of them as host. */
  ghost predicate MembersAgree(players: map<string, Player>, order: seq<string>, hostId: string)
  {
    && (forall id :: id in players ==> players[id].id == id)
    && (forall id :: id in order <==> id in players)
    && (order != [] ==> hostId in order)
  }

  /** No hand holds more than a full hand. */
  ghost predicate HandsBounded(hands: map<string, seq<Card>>)
  {
    forall p :: p in hands ==> |hands[p]| <= HandSize
  }

  /** `order[judgeIndex % order.length]`: the judge as the submit and pick
      handlers compute it. */
  function JudgeOf(order: seq<string>, judgeIndex: nat): (j: string)
    requires order != []
    ensures j in order
    ensures judgeIndex < |order| ==> j == order[judgeIndex]
  {
    order[judgeIndex % |order|]
  }

  /** The part of a room `startRound` changes, with the random source. */
  datatype Turn = Turn(round: nat, judgeIndex: nat, promptDeck: seq<Card>, promptsDiscard: seq<Card>,
                       prompt: Option<Card>, rng: seq<nat>)

  /** `startRound` for a room of `n` players: the round number goes up, the
      first round is judged by the first player and every later one by the
      next player in turn; an empty prompt deck is refilled from the prompt
      discard pile, and a random prompt is drawn (none if both are empty). */
  function NextTurn(round: nat, judgeIndex: nat, n: nat, promptDeck: seq<Card>, promptsDiscard: seq<Card>,
                    rng: seq<nat>): (t: Turn)
    requires n > 0
    ensures t.judgeIndex < n
  {
    var r := round + 1;
    var refill := promptDeck == [];
    var deck := if refill then promptsDiscard else promptDeck;
    var d := Draw(deck, Pick(rng, |deck|));
    Turn(r, if r == 1 then 0 else (judgeIndex + 1) % n, d.rest, if refill then [] else promptsDiscard,
         d.card, if deck == [] then rng else Advance(rng))
  }

  /** A round takes its prompt from the two prompt piles and loses no other
      prompt card. */
  lemma NextTurnKeepsPrompts(round: nat, judgeIndex: nat, n: nat, promptDeck: seq<Card>, promptsDiscard: seq<Card>,
                             rng: seq<nat>)
    requires n > 0
    ensures var t := NextTurn(round, judgeIndex, n, promptDeck, promptsDiscard, rng);
      multiset(t.promptDeck) + multiset(t.promptsDiscard) + (if t.prompt.Some? then multiset{t.prompt.value} else multiset{})
      == multiset(promptDeck) + multiset(promptsDiscard)
  {
    if promptDeck == [] {
      assert promptDeck + promptsDiscard == promptsDiscard;
    }
  }

  /** A round has a prompt exactly when one of the two piles holds a card; it
      comes from the deck, or from the discard pile when the deck is empty,
      and drawing it takes exactly one number from the random source. */
  lemma NextTurnPrompt(round: nat, judgeIndex: nat, n: nat, promptDeck: seq<Card>, promptsDiscard: seq<Card>,
                       rng: seq<nat>)
    requires n > 0
    ensures var t := NextTurn(round, judgeIndex, n, promptDeck, promptsDiscard, rng);
      && (t.prompt.None? <==> promptDeck == [] && promptsDiscard == [])
      && (t.prompt.Some? ==> t.prompt.value in (if promptDeck == [] then promptsDiscard else promptDeck))
      && t.rng == (if t.prompt.Some? then Advance(rng) else rng)
  {
  }

  /** Rounds are judged in turn order: when the judge of round `round` sits at
      position `(round - 1) % n` (or no round has been played), the judge of
      the next round sits at `round % n`. */
  lemma NextTurnRotates(round: nat, judgeIndex: nat, n: nat, promptDeck: seq<Card>, promptsDiscard: seq<Card>,
                        rng: seq<nat>)
    requires n > 0
    requires round == 0 || judgeIndex == (round - 1) % n
    ensures var t := NextTurn(round, judgeIndex, n, promptDeck, promptsDiscard, rng);
      t.round == round + 1 && t.judgeIndex == round % n
  {
    if round > 0 {
      ModSucc(round - 1, n);
    }
  }

  /** Adding one commutes with the remainder. */
  lemma ModSucc(a: nat, n: nat)
    requires n > 0
    ensures (a % n + 1) % n == (a + 1) % n
  {
    var q := a / n;
    var r := a % n;
    if r + 1 < n {
      ModUnique(a + 1, q, r + 1, n);
      ModUnique(r + 1, 0, r + 1, n);
    } else {
      MulSucc(q, n);
      ModUnique(a + 1, q + 1, 0, n);
      ModUnique(r + 1, 1, 0, n);
    }
  }

  /** Multiplication distributes over a successor. */
  lemma MulSucc(q: int, n: int)
    ensures (q + 1) * n == q * n + n
  {
  }

  /** `x % n` is the one remainder below `n` that `x` leaves. */
  lemma ModUnique(x: nat, k: int, m: nat, n: nat)
    requires n > 0 && m < n && x == k * n + m
    ensures x % n == m
  {
    var q := x / n;
    assert (q - k) * n == m - x % n by {
      assert (q - k) * n == q * n - k * n;
    }
    if q - k >= 1 {
      MulAtLeast(q - k, n);
    } else if q - k <= -1 {
      MulAtLeast(k - q, n);
    }
  }

  /** A positive multiple of `n` is at least `n`. */
  lemma MulAtLeast(c: int, n: nat)
    requires c >= 1
    ensures c * n >= n
  {
  }

  /** The hands, the answer deck and the random source after some deals. */
  datatype Dealt = Dealt(hands: map<string, seq<Card>>, deck: seq<Card>, rng: seq<nat>)

  /** `dealAnswers(room, p, count)`: the hand of `p` (an empty one if `p` has
      none yet) is topped up from the deck. */
  function DealOne(hands: map<string, seq<Card>>, deck: seq<Card>, p: string, count: nat, rng: seq<nat>): Dealt
  {
    var f := TopUp(HandOf(hands, p), deck, count, rng);
    Dealt(hands[p := f.hand], f.deck, f.rng)
  }

  /** `dealAnswers(room, id, 7)` for every id of `ids`, in turn. */
  function DealAll(hands: map<string, seq<Card>>, deck: seq<Card>, ids: seq<string>, rng: seq<nat>): Dealt
  {
    if ids == [] then Dealt(hands, deck, rng)
    else
      var prev := DealAll(hands, deck, ids[..|ids| - 1], rng);
      DealOne(prev.hands, prev.deck, ids[|ids| - 1], HandSize, prev.rng)
  }

  /** `p` holds a full hand, or the answer deck is spent. */
  ghost predicate Full(hands: map<string, seq<Card>>, deck: seq<Card>, p: string)
  {
    p in hands && (|hands[p]| >= HandSize || deck == [])
  }

  /** Every hand of `hands0` is still there in `hands1`, with cards at most added at its end. */
  ghost predicate Grown(hands0: map<string, seq<Card>>, hands1: map<string, seq<Card>>)
  {
    forall id :: id in hands0 ==> id in hands1 && hands0[id] <= hands1[id]
  }

  /** One deal keeps every answer card where the pool counts it. */
  lemma DealOneKeepsPool(hands: map<string, seq<Card>>, deck: seq<Card>, p: string, count: nat, rng: seq<nat>,
                         discard: seq<Card>, subs: seq<Submission>)
    ensures var d := DealOne(hands, deck, p, count, rng);
      AnswerPool(d.deck, discard, d.hands, subs) == AnswerPool(deck, discard, hands, subs)
  {
    var f := TopUp(HandOf(hands, p), deck, count, rng);
    TopUpKeepsCards(HandOf(hands, p), deck, count, rng);
    PoolAfterDeal(deck, f.deck, discard, hands, p, f.hand, subs);
  }

  /** A deal to a full hand lets no hand grow past a full hand. */
  lemma DealOneBounded(hands: map<string, seq<Card>>, deck: seq<Card>, p: string, rng: seq<nat>)
    requires HandsBounded(hands)
    ensures HandsBounded(DealOne(hands, deck, p, HandSize, rng).hands)
  {
    TopUpLength(HandOf(hands, p), deck, HandSize, rng);
  }

  /** A deal only adds cards to the hand of `p` and touches no other hand. */
  lemma DealOneGrows(hands: map<string, seq<Card>>, deck: seq<Card>, p: string, count: nat, rng: seq<nat>)
    ensures var d := DealOne(hands, deck, p, count, rng);
      && Grown(hands, d.hands)
      && (forall id :: id in d.hands && id != p ==> id in hands && d.hands[id] == hands[id])
  {
    TopUpKeepsCards(HandOf(hands, p), deck, count, rng);
  }

  /** A deal to a full hand fills the hand of `p` unless the deck runs out,
      and keeps every hand that was full (or a spent deck) so. */
  lemma DealOneFills(hands: map<string, seq<Card>>, deck: seq<Card>, p: string, rng: seq<nat>)
    ensures var d := DealOne(hands, deck, p, HandSize, rng);
      && Full(d.hands, d.deck, p)
      && (forall q :: Full(hands, deck, q) ==> Full(d.hands, d.deck, q))
  {
    var before := HandOf(hands, p);
    TopUpKeepsCards(before, deck, HandSize, rng);
    TopUpLength(before, deck, HandSize, rng);
  }

  /** Growing twice is growing. */
  lemma GrownTrans(h0: map<string, seq<Card>>, h1: map<string, seq<Card>>, h2: map<string, seq<Card>>)
    requires Grown(h0, h1) && Grown(h1, h2)
    ensures Grown(h0, h2)
  {
    forall id | id in h0 ensures id in h2 && h0[id] <= h2[id] {
      assert h1[id][..|h0[id]|] == h2[id][..|h0[id]|];
    }
  }

  /** Submitting one more card adds its owner at the end. */
  lemma SubmittersAppend(subs: seq<Submission>, s: Submission)
    ensures Submitters(subs + [s]) == Submitters(subs) + [s.playerId]
  {
  }

  /** Dealing to a list of players keeps hands within a full hand. */
  lemma {:induction false} DealAllBounded(hands: map<string, seq<Card>>, deck: seq<Card>, ids: seq<string>, rng: seq<nat>)
    requires HandsBounded(hands)
    ensures HandsBounded(DealAll(hands, deck, ids, rng).hands)
  {
    if ids != [] {
      var prev := DealAll(hands, deck, ids[..|ids| - 1], rng);
      DealAllBounded(hands, deck, ids[..|ids| - 1], rng);
      DealOneBounded(prev.hands, prev.deck, ids[|ids| - 1], prev.rng);
    }
  }

  /** Dealing to a list of players only adds cards to hands and leaves the
      hand of everybody not in the list alone. */
  lemma {:induction false} DealAllGrows(hands: map<string, seq<Card>>, deck: seq<Card>, ids: seq<string>, rng: seq<nat>)
    ensures var d := DealAll(hands, deck, ids, rng);
      && Grown(hands, d.hands)
      && (forall id :: id in d.hands && id !in ids ==> id in hands && d.hands[id] == hands[id])
  {
    if ids != [] {
      var init := ids[..|ids| - 1];
      var p := ids[|ids| - 1];
      DealAllGrows(hands, deck, init, rng);
      var prev := DealAll(hands, deck, init, rng);
      DealOneGrows(prev.hands, prev.deck, p, HandSize, prev.rng);
      GrownTrans(hands, prev.hands, DealOne(prev.hands, prev.deck, p, HandSize, prev.rng).hands);
      assert ids == init + [p];
    }
  }

  /** Dealing to a list of players gives a hand to each of them and to nobody else. */
  lemma {:induction false} DealAllKeys(hands: map<string, seq<Card>>, deck: seq<Card>, ids: seq<string>, rng: seq<nat>)
    ensures forall id :: id in DealAll(hands, deck, ids, rng).hands <==> id in hands || id in ids
  {
    if ids != [] {
      var init := ids[..|ids| - 1];
      DealAllKeys(hands, deck, init, rng);
      assert ids == init + [ids[|ids| - 1]];
    }
  }

  /** Dealing to a list of players leaves each of them with a full hand
      unless the deck ran out. */
  lemma {:induction false} DealAllFills(hands: map<string, seq<Card>>, deck: seq<Card>, ids: seq<string>, rng: seq<nat>)
    ensures var d := DealAll(hands, deck, ids, rng);
      forall k :: 0 <= k < |ids| ==> Full(d.hands, d.deck, ids[k])
  {
    if ids != [] {
      var init := ids[..|ids| - 1];
      var p := ids[|ids| - 1];
      DealAllFills(hands, deck, init, rng);
      var prev := DealAll(hands, deck, init, rng);
      DealOneFills(prev.hands, prev.deck, p, prev.rng);
      var d := DealOne(prev.hands, prev.deck, p, HandSize, prev.rng);
      forall k | 0 <= k < |ids| ensures Full(d.hands, d.deck, ids[k]) {
        if k < |init| {
          assert ids[k] == init[k];
        }
      }
    }
  }

  /** Dealing to a list of players keeps every answer card where the pool counts it. */
  lemma {:induction false} DealAllKeepsPool(hands: map<string, seq<Card>>, deck: seq<Card>, ids: seq<string>, rng: seq<nat>,
                                            discard: seq<Card>, subs: seq<Submission>)
    ensures var d := DealAll(hands, deck, ids, rng);
      AnswerPool(d.deck, discard, d.hands, subs) == AnswerPool(deck, discard, hands, subs)
  {
    if ids != [] {
      var prev := DealAll(hands, deck, ids[..|ids| - 1], rng);
      DealAllKeepsPool(hands, deck, ids[..|ids| - 1], rng, discard, subs);
      DealOneKeepsPool(prev.hands, prev.deck, ids[|ids| - 1], HandSize, prev.rng, discard, subs);
    }
  }

  /** Replenishing after a round keeps the pool: the submitted cards move to
      the discard pile and the submitters' new cards come from the deck. */
  lemma ReplenishKeepsPool(hands: map<string, seq<Card>>, deck: seq<Card>, discard: seq<Card>,
                           subs: seq<Submission>, rng: seq<nat>)
    ensures var d := DealAll(hands, deck, Submitters(subs), rng);
      AnswerPool(d.deck, discard + SubmittedCards(subs), d.hands, []) == AnswerPool(deck, discard, hands, subs)
  {
    DealAllKeepsPool(hands, deck, Submitters(subs), rng, discard + SubmittedCards(subs), []);
    PoolAfterClear(deck, discard, hands, subs);
  }

}

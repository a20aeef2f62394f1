/** One game room: the record `createRoom` builds, which every socket handler
    then changes in place. Broadcasts are returned as a list of outbound
    events instead of being sent. */
module Engine {

  import opened Wrappers
  import opened Deck
  import opened Text
  import opened Game

  /** The state of one room; server.js keeps one such record per room code. */
  class Room {
    const code: string
    var hostId: string
    var players: map<string, Player>
    var order: seq<string>
    var judgeIndex: nat
    var promptsDiscard: seq<Card>
    var answersDiscard: seq<Card>
    var promptDeck: seq<Card>
    var answerDeck: seq<Card>
    var hands: map<string, seq<Card>>
    var submissions: seq<Submission>
    var round: nat
    var started: bool
    var pointsToWin: int
    var mode: Mode
    var currentPrompt: Option<Card>

    /** What every handler keeps true of a room. Nothing ever puts a card on
        the prompt discard pile, so it stays empty. */
    ghost predicate Valid()
      reads this`players, this`order, this`hostId, this`promptsDiscard, this`pointsToWin, this`hands
    {
      && MembersAgree(players, order, hostId)
      && promptsDiscard == []
      && MinPointsToWin <= pointsToWin <= MaxPointsToWin
      && HandsBounded(hands)
    }

    /** The record `createRoom` builds for its creator: the creator is host,
        only player and the whole turn order; no round has been played; the
        decks are copies of the card pools and everything else is empty. */
    ghost predicate Initial(code: string, creator: string, name: Option<string>, prompts: seq<Card>, answers: seq<Card>)
      reads this
    {
      && this.code == code && hostId == creator
      && players == map[creator := Player(creator, NormalizeName(name), 0)]
      && order == [creator] && judgeIndex == 0
      && promptsDiscard == [] && answersDiscard == []
      && promptDeck == prompts && answerDeck == answers
      && hands == map[] && submissions == []
      && round == 0 && !started && pointsToWin == DefaultPointsToWin
      && mode == Office && currentPrompt == None
    }

    /** The membership part of the room. */
    function Members(): Membership
      reads this`players, this`order, this`hostId
    {
      Membership(players, order, hostId)
    }

    /** The room `createRoom` builds for its creator, with copies of the card pools. */
    constructor (code: string, creator: string, name: Option<string>, prompts: seq<Card>, answers: seq<Card>)
      ensures Valid()
      ensures Initial(code, creator, name, prompts, answers)
      ensures AnswerPool(answerDeck, answersDiscard, hands, submissions) == multiset(answers)
    {
      this.code := code;
      hostId := creator;
      players := map[creator := Player(creator, NormalizeName(name), 0)];
      order := [creator];
      judgeIndex := 0;
      promptsDiscard := [];
      answersDiscard := [];
      promptDeck := prompts;
      answerDeck := answers;
      hands := map[];
      submissions := [];
      round := 0;
      started := false;
      pointsToWin := DefaultPointsToWin;
      mode := Office;
      currentPrompt := None;
      new;
    }

    /** `publicRoom`: what every member is shown, without hands, decks or
        submissions. */
    function Public(): (r: PublicRoom)
      reads this
      ensures r.code == code && r.hostId == hostId && r.players == players
      ensures r.started == started && r.pointsToWin == pointsToWin && r.mode == mode
      ensures Valid() ==> forall id :: id in r.players <==> id in order
      ensures Valid() && order != [] ==> r.hostId in r.players
    {
      PublicRoom(code, hostId, players, started, pointsToWin, mode)
    }

    /** `dealAnswers`: tops the hand of `playerId` up to `count` cards, drawing
        from the answer deck at positions taken from the random source,
        until the hand is full or the deck is empty. */
    method DealAnswers(playerId: string, count: nat, rng: seq<nat>) returns (rest: seq<nat>)
      modifies this`hands, this`answerDeck
      ensures Dealt(hands, answerDeck, rest) == DealOne(old(hands), old(answerDeck), playerId, count, rng)
    {
      // the hand array is shared with `room.hands`, so every push lands in
      // the room's hand
      var hand := HandOf(hands, playerId);
      rest := rng;
      while |hand| < count && |answerDeck| > 0
        modifies this`answerDeck
        invariant TopUp(hand, answerDeck, count, rest) == TopUp(HandOf(old(hands), playerId), old(answerDeck), count, rng)
        decreases |answerDeck|
      {
        var drawn := Draw(answerDeck, Pick(rest, |answerDeck|));
        answerDeck := drawn.rest;
        hand := hand + [drawn.card.value];
        rest := Advance(rest);
      }
      hands := hands[playerId := hand];
    }

    /** `startRound`: next round number, judge rotation, prompt refill from
        the discard pile and the prompt draw; `rest` is what is left of the
        random source. */
    method StartRound(rng: seq<nat>) returns (events: seq<Outbound>, rest: seq<nat>)
      requires order != []
      modifies this`round, this`judgeIndex, this`promptDeck, this`promptsDiscard, this`currentPrompt
      ensures Turn(round, judgeIndex, promptDeck, promptsDiscard, currentPrompt, rest)
           == NextTurn(old(round), old(judgeIndex), |order|, old(promptDeck), old(promptsDiscard), rng)
      ensures events == [ToRoom(code, NewRound(round, order[judgeIndex], currentPrompt)), ToRoom(code, SubmissionsCount(0))]
      ensures old(promptsDiscard) == [] ==> promptsDiscard == []
    {
      round := round + 1;
      judgeIndex := if round == 1 then 0 else (judgeIndex + 1) % |order|;
      if promptDeck == [] {
        promptDeck := promptsDiscard;
        promptsDiscard := [];
      }
      var drawn := Draw(promptDeck, Pick(rng, |promptDeck|));
      rest := if promptDeck == [] then rng else Advance(rng);
      promptDeck := drawn.rest;
      currentPrompt := drawn.card;
      events := [ToRoom(code, NewRound(round, order[judgeIndex], currentPrompt)), ToRoom(code, SubmissionsCount(0))];
    }

    /** The dealing loop of `startGame`: everybody in the turn order is
        topped up to a full hand, in turn order. */
    method DealEveryone(rng: seq<nat>) returns (rest: seq<nat>)
      modifies this`hands, this`answerDeck
      ensures Dealt(hands, answerDeck, rest) == DealAll(old(hands), old(answerDeck), order, rng)
      ensures HandsBounded(old(hands)) ==> HandsBounded(hands)
    {
      rest := rng;
      for i := 0 to |order|
        invariant Dealt(hands, answerDeck, rest) == DealAll(old(hands), old(answerDeck), order[..i], rng)
      {
        assert order[..i + 1][..i] == order[..i];
        rest := DealAnswers(order[i], HandSize, rest);
      }
      assert order[..|order|] == order;
      if HandsBounded(old(hands)) {
        DealAllBounded(old(hands), old(answerDeck), order, rng);
      }
    }

    /** The body of the `startGame` handler once the room is found: only the
        host starts, and only a room that is not running. */
    method StartGame(caller: string, p: Option<int>, rng: seq<nat>) returns (events: seq<Outbound>, rest: seq<nat>)
      requires Valid() && order != []
      modifies this`pointsToWin, this`started, this`hands, this`answerDeck,
               this`round, this`judgeIndex, this`promptDeck, this`promptsDiscard, this`currentPrompt
      ensures Valid()
      ensures AnswerPool(answerDeck, answersDiscard, hands, submissions)
           == old(AnswerPool(answerDeck, answersDiscard, hands, submissions))
      ensures caller != hostId || old(started) ==> events == [] && rest == rng && unchanged(this)
      ensures caller == hostId && !old(started) ==> Launched(p, rng, events, rest)
    {
      if caller != hostId || started {
        return [], rng;
      }
      DealAllKeepsPool(hands, answerDeck, order, rng, answersDiscard, submissions);
      events, rest := Launch(p, rng);
    }

    /** The outcome of a started game: the target is the clamped request, the
        room is running, everybody in the turn order was dealt a full hand in
        turn order, and then the first round started and was announced. */
    twostate predicate Launched(p: Option<int>, rng: seq<nat>, events: seq<Outbound>, rest: seq<nat>)
      reads this
    {
      && order != []
      && var d := DealAll(old(hands), old(answerDeck), order, rng);
         && pointsToWin == ClampPoints(p) && started
         && hands == d.hands && answerDeck == d.deck
         && Turn(round, judgeIndex, promptDeck, promptsDiscard, currentPrompt, rest)
            == NextTurn(old(round), old(judgeIndex), |order|, old(promptDeck), old(promptsDiscard), d.rng)
         && events == [ToRoom(code, NewRound(round, order[judgeIndex], currentPrompt)), ToRoom(code, SubmissionsCount(0))]
    }

    /** The first steps of `startGame` past its guard: the target is set, the
        room is marked running and everybody in the turn order is dealt. */
    method SetUp(p: Option<int>, rng: seq<nat>) returns (rest: seq<nat>)
      modifies this`pointsToWin, this`started, this`hands, this`answerDeck
      ensures pointsToWin == ClampPoints(p) && started
      ensures Dealt(hands, answerDeck, rest) == DealAll(old(hands), old(answerDeck), order, rng)
      ensures HandsBounded(old(hands)) ==> HandsBounded(hands)
    {
      pointsToWin := ClampPoints(p);
      started := true;
      rest := DealEveryone(rng);
    }

    /** `startGame` past its guard: the target is set, everybody in the turn
        order is dealt a full hand and the first round starts. */
    method Launch(p: Option<int>, rng: seq<nat>) returns (events: seq<Outbound>, rest: seq<nat>)
      requires order != [] && HandsBounded(hands) && promptsDiscard == []
      modifies this`pointsToWin, this`started, this`hands, this`answerDeck,
               this`round, this`judgeIndex, this`promptDeck, this`promptsDiscard, this`currentPrompt
      ensures HandsBounded(hands) && promptsDiscard == []
      ensures Launched(p, rng, events, rest)
    {
      rest := SetUp(p, rng);
      events, rest := StartRound(rest);
    }

    /** The body of the `submitAnswer` handler once the room is found: a
        player other than the judge lays the first card of that id from their
        hand. */
    method SubmitAnswer(caller: string, cardId: string) returns (events: seq<Outbound>)
      requires Valid() && order != []
      modifies this`hands, this`submissions
      ensures Valid()
      ensures AnswerPool(answerDeck, answersDiscard, hands, submissions)
           == old(AnswerPool(answerDeck, answersDiscard, hands, submissions))
      ensures var found := FirstIndexOf(HandOf(old(hands), caller), cardId);
        !(started && caller != JudgeOf(order, judgeIndex) && found.Some?) ==>
          events == [] && hands == old(hands) && submissions == old(submissions)
      ensures var found := FirstIndexOf(HandOf(old(hands), caller), cardId);
        started && caller != JudgeOf(order, judgeIndex) && found.Some? ==> Laid(caller, found.value, events)
    {
      var hand := HandOf(hands, caller);
      var found := FirstIndexOf(hand, cardId);
      // `judgeId` is `room.order[room.judgeIndex % room.order.length]`
      if !started || caller == order[judgeIndex % |order|] || found.None? {
        return [];
      }
      events := Lay(caller, found.value);
    }

    /** The outcome of an accepted submission: exactly the card at position
        `i` of the caller's hand leaves the hand and is appended to the
        submissions under the caller's id; the new count is announced, and
        "all submitted" once every player but the judge could have laid a card. */
    twostate predicate Laid(caller: string, i: nat, events: seq<Outbound>)
      reads this
    {
      && caller in old(hands) && i < |old(hands[caller])|
      && var h := old(hands[caller]);
         && hands == old(hands)[caller := h[..i] + h[i + 1..]]
         && submissions == old(submissions) + [Submission(caller, h[i])]
         && events == [ToRoom(code, SubmissionsCount(|submissions|))]
                      + (if |submissions| >= |order| - 1 then [ToRoom(code, AllSubmitted)] else [])
    }

    /** `submitAnswer` past its guard: the card at position `i` of the
        caller's hand moves to the submissions. */
    method Lay(caller: string, i: nat) returns (events: seq<Outbound>)
      requires caller in hands && i < |hands[caller]| && HandsBounded(hands)
      modifies this`hands, this`submissions
      ensures HandsBounded(hands)
      ensures AnswerPool(answerDeck, answersDiscard, hands, submissions)
           == old(AnswerPool(answerDeck, answersDiscard, hands, submissions))
      ensures Laid(caller, i, events)
    {
      var hand := hands[caller];
      var card := hand[i];
      PoolAfterSubmit(answerDeck, answersDiscard, hands, caller, i, submissions);
      hands := hands[caller := hand[..i] + hand[i + 1..]];
      submissions := submissions + [Submission(caller, card)];
      // `allSubmitted` once every player but the judge could have laid a card
      events := [ToRoom(code, SubmissionsCount(|submissions|))]
                + (if |submissions| >= |order| - 1 then [ToRoom(code, AllSubmitted)] else []);
    }

    /** The replenishing step of `pickWinner`: the submitted cards go to the
        answer discard pile, the submitters are dealt full hands again and the
        submissions are cleared, which moves every answer card but creates or
        loses none. */
    method Replenish(rng: seq<nat>) returns (rest: seq<nat>)
      modifies this`answersDiscard, this`hands, this`answerDeck, this`submissions
      ensures submissions == []
      ensures answersDiscard == old(answersDiscard) + SubmittedCards(old(submissions))
      ensures Dealt(hands, answerDeck, rest) == DealAll(old(hands), old(answerDeck), Submitters(old(submissions)), rng)
      ensures HandsBounded(old(hands)) ==> HandsBounded(hands)
      ensures AnswerPool(answerDeck, answersDiscard, hands, submissions)
           == old(AnswerPool(answerDeck, answersDiscard, hands, submissions))
    {
      ReplenishKeepsPool(hands, answerDeck, answersDiscard, submissions, rng);
      rest := Refill(rng);
    }

    /** The replenishing loop of `pickWinner` and the reset after it: every
        submitted card goes to the answer discard pile and its owner is dealt
        a full hand again, in submission order. */
    method Refill(rng: seq<nat>) returns (rest: seq<nat>)
      modifies this`answersDiscard, this`hands, this`answerDeck, this`submissions
      ensures submissions == []
      ensures answersDiscard == old(answersDiscard) + SubmittedCards(old(submissions))
      ensures Dealt(hands, answerDeck, rest) == DealAll(old(hands), old(answerDeck), Submitters(old(submissions)), rng)
      ensures HandsBounded(old(hands)) ==> HandsBounded(hands)
    {
      rest := rng;
      for i := 0 to |submissions|
        modifies this`answersDiscard, this`hands, this`answerDeck
        invariant answersDiscard == old(answersDiscard) + SubmittedCards(submissions[..i])
        invariant Dealt(hands, answerDeck, rest) == DealAll(old(hands), old(answerDeck), Submitters(submissions[..i]), rng)
      {
        var s := submissions[i];
        assert submissions[..i + 1] == submissions[..i] + [s];
        SubmittedCardsAppend(submissions[..i], s);
        SubmittersAppend(submissions[..i], s);
        assert (Submitters(submissions[..i]) + [s.playerId])[..i] == Submitters(submissions[..i]);
        answersDiscard := answersDiscard + [s.card];
        rest := DealAnswers(s.playerId, HandSize, rest);
      }
      assert submissions[..|submissions|] == submissions;
      if HandsBounded(old(hands)) {
        DealAllBounded(old(hands), old(answerDeck), Submitters(old(submissions)), rng);
      }
      submissions := [];
    }

    /** The body of the `pickWinner` handler once the room is found: the
        judge names a player, who scores; hands are replenished; the victory
        check compares the highest score with the target. `nextRound` says
        whether the handler schedules the next `startRound`. */
    method PickWinner(caller: string, playerId: string, rng: seq<nat>) returns (events: seq<Outbound>, nextRound: bool, rest: seq<nat>)
      requires Valid() && order != []
      modifies this`players, this`answersDiscard, this`hands, this`answerDeck, this`submissions, this`started
      ensures Valid()
      ensures AnswerPool(answerDeck, answersDiscard, hands, submissions)
           == old(AnswerPool(answerDeck, answersDiscard, hands, submissions))
      ensures !(old(started) && caller == JudgeOf(order, judgeIndex) && playerId in old(players)) ==>
        events == [] && !nextRound && rest == rng && unchanged(this)
      ensures old(started) && caller == JudgeOf(order, judgeIndex) && playerId in old(players) ==>
        Awarded(playerId, rng, events, nextRound, rest)
    {
      if !started || caller != order[judgeIndex % |order|] || playerId !in players {
        return [], false, rng;
      }
      events, nextRound, rest := Award(playerId, rng);
    }

    /** The outcome of a round won by `playerId`: exactly the winner's score
        rises by one; every submitted card goes to the answer discard pile and
        each submitter is dealt a full hand again, in submission order; the
        submissions are cleared; the game stops exactly when the highest score
        has reached the target; the result, and the end of the game if it
        came, are announced. */
    twostate predicate Awarded(playerId: string, rng: seq<nat>, events: seq<Outbound>, nextRound: bool, rest: seq<nat>)
      reads this
    {
      && playerId in old(players)
      && var w := old(players[playerId]);
         var d := DealAll(old(hands), old(answerDeck), Submitters(old(submissions)), rng);
         && players == old(players)[playerId := w.(score := w.score + 1)]
         && answersDiscard == old(answersDiscard) + SubmittedCards(old(submissions))
         && submissions == []
         && hands == d.hands && answerDeck == d.deck && rest == d.rng
         && playerId in players && started == (MaxScore(players) < pointsToWin)
         && nextRound == started
         && events == [ToRoom(code, RoundResult(w.id, w.name, FirstSubmissionCard(old(submissions), playerId), currentPrompt))]
                      + (if started then [] else [ToRoom(code, GameOver(w.id, w.name))])
    }

    /** `pickWinner` past its guard: the named player scores, hands are
        replenished and the victory check decides whether play goes on. */
    method Award(playerId: string, rng: seq<nat>) returns (events: seq<Outbound>, nextRound: bool, rest: seq<nat>)
      requires playerId in players && HandsBounded(hands)
      modifies this`players, this`answersDiscard, this`hands, this`answerDeck, this`submissions, this`started
      ensures HandsBounded(hands)
      ensures AnswerPool(answerDeck, answersDiscard, hands, submissions)
           == old(AnswerPool(answerDeck, answersDiscard, hands, submissions))
      ensures Awarded(playerId, rng, events, nextRound, rest)
    {
      var winner, result := Score(playerId);
      rest := Replenish(rng);
      var ending;
      ending, nextRound := CheckVictory(winner);
      events := [result] + ending;
    }

    /** The scoring step of `pickWinner`: the winner gains a point and the
        round result names the winner, the winning card and the prompt. */
    method Score(playerId: string) returns (winner: Player, result: Outbound)
      requires playerId in players
      modifies this`players
      ensures var w := old(players[playerId]);
        && winner == w.(score := w.score + 1)
        && players == old(players)[playerId := winner] && playerId in players
        && result == ToRoom(code, RoundResult(w.id, w.name, FirstSubmissionCard(submissions, playerId), currentPrompt))
    {
      var w := players[playerId];
      winner := w.(score := w.score + 1);
      players := players[playerId := winner];
      result := ToRoom(code, RoundResult(winner.id, winner.name, FirstSubmissionCard(submissions, playerId), currentPrompt));
    }

    /** The victory check of `pickWinner`: once the highest score reaches the
        target the game is over and `winner` is announced; otherwise the next
        round is due. */
    method CheckVictory(winner: Player) returns (events: seq<Outbound>, nextRound: bool)
      requires players != map[]
      modifies this`started
      ensures started == (MaxScore(players) < pointsToWin) && nextRound == started
      ensures events == if started then [] else [ToRoom(code, GameOver(winner.id, winner.name))]
    {
      ReachedTargetIsMaxScore(players, pointsToWin);
      // `Math.max(...scores) >= room.pointsToWin`
      var over := ReachedTarget(players, pointsToWin);
      started := !over;
      nextRound := !over;
      events := if over then [ToRoom(code, GameOver(winner.id, winner.name))] else [];
    }

    /** The body of the `changeMode` handler once the room is found: only
        the host switches, and anything but "open" means office mode. */
    method ChangeMode(caller: string, newMode: string) returns (events: seq<Outbound>)
      requires Valid()
      modifies this`mode
      ensures Valid()
      ensures caller != hostId ==> events == [] && mode == old(mode)
      ensures caller == hostId ==>
        && mode == (if newMode == "open" then Open else Office)
        && events == [ToRoom(code, RoomUpdate(Public()))]
    {
      if caller != hostId {
        return [];
      }
      mode := if newMode == "open" then Open else Office;
      events := [ToRoom(code, RoomUpdate(Public()))];
    }

    /** The body of the `joinRoom` handler once the room is found: late
        joiners are refused; anybody else (a player already in the room too)
        gets a fresh record with score 0 and is appended to the order. */
    method Join(caller: string, name: Option<string>) returns (events: seq<Outbound>)
      requires Valid() && order != []
      modifies this`players, this`order
      ensures Valid()
      ensures old(started) && caller !in old(players) ==>
        events == [ToCaller(ErrorMsg(GameStartedText))] && players == old(players) && order == old(order)
      ensures !(old(started) && caller !in old(players)) ==>
        && players == old(players)[caller := Player(caller, NormalizeName(name), 0)]
        && order == old(order) + [caller]
        && events == [ToRoom(code, RoomUpdate(Public()))]
    {
      if started && caller !in players {
        return [ToCaller(ErrorMsg(GameStartedText))];
      }
      players := players[caller := Player(caller, NormalizeName(name), 0)];
      order := order + [caller];
      events := [ToRoom(code, RoomUpdate(Public()))];
    }

    /** The part of the `disconnecting` handler that changes the room: the
        player leaves `players` and every place in `order`; a departing host
        hands over to the first remaining player. */
    method Leave(caller: string)
      requires Valid()
      modifies this`players, this`order, this`hostId
      ensures Valid()
      ensures Members() == Depart(old(Members()), caller)
    {
      DepartKeepsAgreement(Members(), caller);
      players := players - {caller};
      order := RemoveAll(order, caller);
      if order != [] && caller == hostId {
        hostId := order[0];
      }
    }
  }
}

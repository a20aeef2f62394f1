/** The table of open rooms, keyed by room code, and the socket handlers that
    find a room in it before they act on that room. Each handler may change
    only the fields of the room filed under its code that the room's own
    method changes, so every other field and every other room stays as it
    was; the leaving handlers may also remove that room from the table. */
module Lobby {

  import opened Wrappers
  import opened Deck
  import opened Text
  import opened Game
  import opened Engine

  /** `ROOMS`: code to room state. */
  class Registry {
    var rooms: map<string, Room>

    /** What every handler keeps true of the table: each entry is `Filed`. */
    ghost predicate Valid()
      reads this, rooms.Values
    {
      forall c :: c in rooms ==> Filed(c)
    }

    /** The room under `c` carries that code, which is one the code generator
        can produce, still has a member, and keeps its own invariant. */
    ghost predicate Filed(c: string)
      requires c in rooms
      reads this, rooms[c]
    {
      && rooms[c].code == c
      && IsRoomCode(c)
      && rooms[c].order != []
      && rooms[c].Valid()
    }

    /** The room filed under `code`, if any, as a set of at most one room:
        the objects a handler for `code` may change. */
    function Under(code: string): set<Room>
      reads this
    {
      if code in rooms then {rooms[code]} else {}
    }

    /** The membership of every room in the table. */
    ghost function Memberships(): map<string, Membership>
      reads this, rooms.Values
    {
      map c | c in rooms :: rooms[c].Members()
    }

    /** The server starts with no rooms. */
    constructor ()
      ensures Valid() && rooms == map[]
    {
      rooms := map[];
    }

    /** `createRoom`: a new room under `code`, the value the code generator
        returned; a room already filed under that code is replaced. */
    method CreateRoom(caller: string, name: Option<string>, code: string, prompts: seq<Card>, answers: seq<Card>)
      returns (room: Room, events: seq<Outbound>)
      requires Valid() && IsRoomCode(code)
      modifies this
      ensures Valid()
      ensures fresh(room) && rooms == old(rooms)[code := room]
      ensures room.Initial(code, caller, name, prompts, answers)
      ensures AnswerPool(room.answerDeck, room.answersDiscard, room.hands, room.submissions) == multiset(answers)
      ensures events == [ToRoom(code, RoomUpdate(room.Public()))]
    {
      room := new Room(code, caller, name, prompts, answers);
      rooms := rooms[code := room];
      events := [ToRoom(code, RoomUpdate(room.Public()))];
    }

    /** `joinRoom`: the typed code is upper-cased before the lookup; an
        unknown code is answered with an error to the caller alone. */
    method JoinRoom(caller: string, typed: string, name: Option<string>) returns (events: seq<Outbound>)
      requires Valid()
      modifies Under(ToUpper(typed))`players, Under(ToUpper(typed))`order
      ensures Valid()
      ensures ToUpper(typed) !in rooms ==> events == [ToCaller(ErrorMsg(RoomNotFoundText))]
      ensures ToUpper(typed) in rooms ==>
        var room := rooms[ToUpper(typed)];
        if old(room.started) && caller !in old(room.players) then
          events == [ToCaller(ErrorMsg(GameStartedText))] && unchanged(room)
        else
          && room.players == old(room.players)[caller := Player(caller, NormalizeName(name), 0)]
          && room.order == old(room.order) + [caller]
          && events == [ToRoom(room.code, RoomUpdate(room.Public()))]
    {
      var code := ToUpper(typed);
      if code !in rooms {
        return [ToCaller(ErrorMsg(RoomNotFoundText))];
      }
      var room := rooms[code];
      events := room.Join(caller, name);
    }

    /** `startGame`, for the room filed under `code`. */
    method StartGame(caller: string, code: string, p: Option<int>, rng: seq<nat>) returns (events: seq<Outbound>, rest: seq<nat>)
      requires Valid()
      modifies Under(code)`pointsToWin, Under(code)`started, Under(code)`hands, Under(code)`answerDeck,
               Under(code)`round, Under(code)`judgeIndex, Under(code)`promptDeck, Under(code)`promptsDiscard,
               Under(code)`currentPrompt
      ensures Valid()
      ensures code !in rooms ==> events == [] && rest == rng
      ensures code in rooms ==>
        var room := rooms[code];
        AnswerPool(room.answerDeck, room.answersDiscard, room.hands, room.submissions)
        == old(AnswerPool(room.answerDeck, room.answersDiscard, room.hands, room.submissions))
      ensures code in rooms ==>
        var room := rooms[code];
        if caller == old(room.hostId) && !old(room.started) then room.Launched(p, rng, events, rest)
        else events == [] && rest == rng && unchanged(room)
    {
      if code !in rooms {
        return [], rng;
      }
      var room := rooms[code];
      events, rest := room.StartGame(caller, p, rng);
    }

    /** `submitAnswer`, for the room filed under `code`. */
    method SubmitAnswer(caller: string, code: string, cardId: string) returns (events: seq<Outbound>)
      requires Valid()
      modifies Under(code)`hands, Under(code)`submissions
      ensures Valid()
      ensures code !in rooms ==> events == []
      ensures code in rooms ==>
        var room := rooms[code];
        AnswerPool(room.answerDeck, room.answersDiscard, room.hands, room.submissions)
        == old(AnswerPool(room.answerDeck, room.answersDiscard, room.hands, room.submissions))
      ensures code in rooms ==>
        var room := rooms[code];
        var found := FirstIndexOf(HandOf(old(room.hands), caller), cardId);
        if old(room.started) && caller != JudgeOf(old(room.order), old(room.judgeIndex)) && found.Some? then
          room.Laid(caller, found.value, events)
        else events == [] && unchanged(room)
    {
      if code !in rooms {
        return [];
      }
      var room := rooms[code];
      events := room.SubmitAnswer(caller, cardId);
    }

    /** `pickWinner`, for the room filed under `code`; `nextRound` says
        whether the handler schedules the next round. */
    method PickWinner(caller: string, code: string, playerId: string, rng: seq<nat>)
      returns (events: seq<Outbound>, nextRound: bool, rest: seq<nat>)
      requires Valid()
      modifies Under(code)`players, Under(code)`answersDiscard, Under(code)`hands, Under(code)`answerDeck,
               Under(code)`submissions, Under(code)`started
      ensures Valid()
      ensures code !in rooms ==> events == [] && !nextRound && rest == rng
      ensures code in rooms ==>
        var room := rooms[code];
        AnswerPool(room.answerDeck, room.answersDiscard, room.hands, room.submissions)
        == old(AnswerPool(room.answerDeck, room.answersDiscard, room.hands, room.submissions))
      ensures code in rooms ==>
        var room := rooms[code];
        if old(room.started) && caller == JudgeOf(old(room.order), old(room.judgeIndex)) && playerId in old(room.players) then
          room.Awarded(playerId, rng, events, nextRound, rest)
        else events == [] && !nextRound && rest == rng && unchanged(room)
    {
      if code !in rooms {
        return [], false, rng;
      }
      var room := rooms[code];
      events, nextRound, rest := room.PickWinner(caller, playerId, rng);
    }

    /** `changeMode`, for the room filed under `code`. */
    method ChangeMode(caller: string, code: string, newMode: string) returns (events: seq<Outbound>)
      requires Valid()
      modifies Under(code)`mode
      ensures Valid()
      ensures code !in rooms ==> events == []
      ensures code in rooms ==>
        var room := rooms[code];
        if caller == old(room.hostId) then
          room.mode == (if newMode == "open" then Open else Office) && events == [ToRoom(code, RoomUpdate(room.Public()))]
        else events == [] && unchanged(room)
    {
      if code !in rooms {
        return [];
      }
      var room := rooms[code];
      events := room.ChangeMode(caller, newMode);
    }

    /** The delayed `startRound` that `pickWinner` schedules, for the room
        filed under `code`. */
    method NextRound(code: string, rng: seq<nat>) returns (events: seq<Outbound>, rest: seq<nat>)
      requires Valid()
      modifies Under(code)`round, Under(code)`judgeIndex, Under(code)`promptDeck, Under(code)`promptsDiscard,
               Under(code)`currentPrompt
      ensures Valid()
      ensures code !in rooms ==> events == [] && rest == rng
      ensures code in rooms ==>
        var room := rooms[code];
        && Turn(room.round, room.judgeIndex, room.promptDeck, room.promptsDiscard, room.currentPrompt, rest)
           == NextTurn(old(room.round), old(room.judgeIndex), |room.order|, old(room.promptDeck), old(room.promptsDiscard), rng)
        && events == [ToRoom(code, NewRound(room.round, room.order[room.judgeIndex], room.currentPrompt)),
                      ToRoom(code, SubmissionsCount(0))]
    {
      if code !in rooms {
        return [], rng;
      }
      var room := rooms[code];
      events, rest := room.StartRound(rng);
    }

    /** One pass of the `disconnecting` loop, for the code `code`: the caller
        leaves the room filed there; a room left empty is removed, any other
        is shown its new state. */
    method LeaveRoom(caller: string, code: string) returns (events: seq<Outbound>)
      requires Valid()
      modifies this, Under(code)`players, Under(code)`order, Under(code)`hostId
      ensures Valid()
      ensures forall c :: c in rooms ==> c in old(rooms) && rooms[c] == old(rooms[c])
      ensures forall c :: c in old(rooms) && c != code ==> unchanged(old(rooms[c]))
      ensures code !in old(rooms) ==> events == [] && rooms == old(rooms)
      ensures code in old(rooms) ==>
        var room := old(rooms[code]);
        && room.Members() == Depart(old(room.Members()), caller)
        && (room.order == [] ==> rooms == old(rooms) - {code} && events == [])
        && (room.order != [] ==> rooms == old(rooms) && events == [ToRoom(code, RoomUpdate(room.Public()))])
    {
      if code !in rooms {
        return [];
      }
      var room := rooms[code];
      assert forall c :: c in rooms && c != code ==> rooms[c] != room;
      room.Leave(caller);
      events := Settle(code);
    }

    /** The table holds exactly the codes of `t`, and the room under each
        code has the membership `t` gives it. */
    ghost predicate Shows(t: map<string, Membership>)
      reads this, rooms.Values
    {
      && (forall c :: c in rooms <==> c in t)
      && (forall c :: c in rooms ==> rooms[c].Members() == t[c])
    }

    /** One pass of the `disconnecting` loop, seen on the table of
        memberships: it is `LeaveAt`. */
    method LeaveNext(caller: string, code: string, ghost t: map<string, Membership>) returns (events: seq<Outbound>)
      requires Valid() && Shows(t)
      modifies this, Under(code)`players, Under(code)`order, Under(code)`hostId
      ensures Valid()
      ensures forall c :: c in rooms ==> c in old(rooms) && rooms[c] == old(rooms[c])
      ensures Shows(LeaveAt(t, caller, code))
    {
      events := LeaveRoom(caller, code);
      LeaveAtSpec(t, caller, code);
    }

    /** `disconnecting`: the caller leaves every room it joined, in the order
        of `joined` (the codes of the socket's rooms); rooms it leaves empty
        are removed. Only the memberships change, as `LeaveAll` says. */
    method Disconnecting(caller: string, joined: seq<string>) returns (events: seq<Outbound>)
      requires Valid()
      modifies this, rooms.Values`players, rooms.Values`order, rooms.Values`hostId
      ensures Valid()
      ensures forall c :: c in rooms ==> c in old(rooms) && rooms[c] == old(rooms[c])
      ensures Shows(LeaveAll(old(Memberships()), caller, joined))
      ensures forall c :: c in rooms <==> c in old(rooms) && (c in joined ==> Depart(old(rooms[c].Members()), caller).order != [])
      ensures forall c :: c in rooms ==> rooms[c].Members() == if c in joined then Depart(old(rooms[c].Members()), caller) else old(rooms[c].Members())
    {
      events := [];
      ghost var t0 := Memberships();
      var i := 0;
      while i < |joined|
        invariant 0 <= i <= |joined|
        invariant Valid()
        invariant forall c :: c in rooms ==> c in old(rooms) && rooms[c] == old(rooms[c])
        invariant Shows(LeaveAll(t0, caller, joined[..i]))
      {
        var more := LeaveNext(caller, joined[i], LeaveAll(t0, caller, joined[..i]));
        assert joined[..i + 1][..i] == joined[..i];
        events := events + more;
        i := i + 1;
      }
      assert joined[..|joined|] == joined;
      LeaveAllSpec(t0, caller, joined);
    }

    /** The end of one `disconnecting` pass: the room under `code`, which the
        caller has just left, is removed if it is empty and shown its new
        state otherwise. */
    method Settle(code: string) returns (events: seq<Outbound>)
      requires code in rooms && rooms[code].code == code && IsRoomCode(code) && rooms[code].Valid()
      requires forall c :: c in rooms && c != code ==> Filed(c)
      modifies this
      ensures Valid()
      ensures old(rooms[code]).order == [] ==> rooms == old(rooms) - {code} && events == []
      ensures old(rooms[code]).order != [] ==> rooms == old(rooms) && events == [ToRoom(code, RoomUpdate(rooms[code].Public()))]
    {
      var room := rooms[code];
      if room.order == [] {
        rooms := rooms - {code};
        events := [];
      } else {
        events := [ToRoom(code, RoomUpdate(room.Public()))];
      }
    }

    /** The `/hand` endpoint: the hand of `sid` in the room filed under
        `code`; an unknown room or an empty id gives an empty list. */
    function HandView(code: string, sid: string): (r: seq<Card>)
      reads this, rooms.Values
      ensures code !in rooms || sid == "" ==> r == []
      ensures code in rooms && sid != "" ==> r == HandOf(rooms[code].hands, sid)
      ensures Valid() ==> |r| <= HandSize
    {
      if code !in rooms || sid == "" then [] else HandOf(rooms[code].hands, sid)
    }

    /** The `/submissions` endpoint: the cards laid in the current round of
        the room filed under `code`, each with who laid it; an unknown room
        gives an empty list. */
    function SubmissionsView(code: string): (r: seq<Submission>)
      reads this, rooms.Values
      ensures code !in rooms ==> r == []
      ensures code in rooms ==> r == rooms[code].submissions
    {
      if code !in rooms then [] else rooms[code].submissions
    }
  }

  /** A registered code is found again when its user types it in lower case,
      since `joinRoom` upper-cases what it is given. */
  lemma JoinFindsTypedCode(reg: Registry, c: string)
    requires reg.Valid() && c in reg.rooms
    ensures ToUpper(c) in reg.rooms && reg.rooms[ToUpper(c)] == reg.rooms[c]
    ensures ToUpper(LowerAscii(c)) in reg.rooms && reg.rooms[ToUpper(LowerAscii(c))] == reg.rooms[c]
  {
    RoomCodeIsUpper(c);
    UpperOfLowerCode(c);
  }
}

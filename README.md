# A verified model of the room and round engine of "Prompts against Mediocrity"

The server of this party card game keeps one mutable record per game room in
a table keyed by a four-character room code (`ROOMS`). Socket handlers change
that record in place. Players create and join rooms. The host starts the game,
which deals every player up to seven answer cards, as far as the deck lasts. Each round has a judge and a
prompt card; the other players lay answer cards; the judge picks a winner, who
scores a point; the laid cards go to the discard pile and hands are topped up
again. The game ends once someone reaches the target score. A player who
disconnects leaves every room they were in; a room with nobody left is
dropped.

The model is written in Dafny, one module per concern:

- `Wrappers`: the `Option` type (JavaScript's `null`/`undefined`).
- `Text`: `trim`, the 20-character name cut with its "Gast" default,
  `toUpperCase` as far as room codes need it, and the room-code format.
- `Deck`: cards, `draw`, the top-up loop of `dealAnswers` as a function, and
  the multiset of cards held in a map of hands.
- `Game`: players, submissions, outbound events, the target clamp, the
  victory test, the deals to whole lists of players, the round rotation, and
  the answer-card pool (deck, discard pile, hands and submissions together).
- `Engine`: the class `Room`, with the fields of the room record, and one
  method per handler body. Each method changes the fields in place and
  returns the broadcasts as a list of `Outbound` events.
- `Lobby`: the class `Registry`, holding `ROOMS` as a `map<string, Room>`,
  and the handlers that look a room up before acting on it.

Every room keeps `Room.Valid`, and every handler preserves it:

- every player is in the turn order and every id in the order is a player;
- the host is in the turn order while the room has a member;
- the prompt discard pile is empty;
- the target score lies between 3 and 15;
- no hand holds more than seven cards.

The table keeps `Registry.Valid`: each room is filed under its own code, that
code has the generator's format, and the room still has a member.

The methods of `Room` state the whole new state of the fields they change.
The handlers of `Registry` frame their effect by field: each may change only
the fields of the room under its code that the corresponding `Room` method
changes, so every other field and every other room stays as it was. Their
gates read the room before the call. `createRoom` states the whole initial
record, and the leaving handlers state the new membership of every room they
touch, as the pure functions `Depart`, `LeaveAt` and `LeaveAll` of `Game`.

The answer-card multiset (deck, discard pile, hands and submissions) stays
the same, so no card is ever duplicated or lost. `Room.StartGame`,
`Room.SubmitAnswer`, `Room.Lay`, `Room.Replenish`, `Room.Award` and
`Room.PickWinner` state this, and so do the `Registry` handlers `StartGame`,
`SubmitAnswer` and `PickWinner`. The helpers `Launch`, `SetUp`,
`DealEveryone`, `Refill` and `DealAnswers` state their new state through
`DealOne`, `DealAll` and `NextTurn`, and lemmas of `Game` prove that these
keep the pool. `Score` and `CheckVictory` change no answer-card field:
`Score` may change only the players and `CheckVictory` only the running flag.

Randomness is a parameter. `rng` is the sequence of numbers `Math.random()`
will return, each scaled to a natural number. A draw from a pool of `n` cards
takes the next number modulo `n`, and every method returns what is left of the
sequence. The contracts therefore hold for every random outcome. The room code
that `nanoid` would produce is a parameter of `CreateRoom`. The card pools that
`loadDeck` reads from disk are parameters too.

Some behaviours of the code are modelled as written:

- A second join by the same socket resets that player's score to 0 and appends
  the id to the turn order again, so the order can hold duplicates.
- A player may submit several cards in one round. "All submitted" is
  announced whenever the count is at least the number of players minus one.
- `pickWinner` can be called again in the same round.
- Nothing ever puts a prompt on the prompt discard pile. Once the prompt deck
  is used up, rounds have no prompt.
- `changeMode` has no phase check.
- The submit and pick handlers name the judge `order[judgeIndex % n]`. The
  round broadcast uses `order[judgeIndex]`, which `startRound` has just brought
  below `n`.
- Players who leave keep their hands in the `hands` map.
- `gameOver` names the winner of the last round, whoever has the highest score.
- `currentPrompt` is absent until the first round.
- Only `joinRoom` upper-cases the code it is given.
- `createRoom` replaces a room already filed under the same code.
- The `/hand` endpoint returns the stored hand; a player with no hand gets an empty one.

## Model

| member | source | states |
|---|---|---|
| Deck.Draw | server.js:27-32 | an empty pool gives no card and stays as it is; otherwise exactly the card at the picked position is removed, the rest keep their order, and card plus rest is a permutation of the pool |
| Deck.Pick | server.js:29 | the picked position lies inside a non-empty pool |
| Deck.TopUpKeepsCards | server.js:34-39 | topping a hand up only appends cards, and hand plus deck is the same multiset of cards before and after |
| Deck.TopUpLength | server.js:36-38 | a hand below `count` ends with `min(count, hand + deck)` cards, a hand at or above it keeps its length, and the loop stops only with a full hand or an empty deck |
| Deck.TopUp | server.js:36-38 | the `while` loop of `dealAnswers` as a recursive function; no ensures of its own: `TopUpKeepsCards`, `TopUpLength` and `TopUpIdle` state it |
| Deck.TopUpIdle | server.js:36 | a full hand or an empty deck leaves hand and deck unchanged |
| Deck.HandOf | server.js:35 | `hands[id] \|\| []` (also at lines 47 and 118); no ensures of its own: `HandOfAddsNothing` states it |
| Deck.HandOfAddsNothing | server.js:35 | reading a missing hand as empty (`hands[id] \|\| []`) and filing it adds no card to what the hands hold |
| Deck.FirstIndexOf | server.js:119 | `findIndex`: None exactly when no card has the id; otherwise the first position that holds it |
| Deck.HandCardsRemove | server.js:35 | the cards held across all hands split into one player's hand plus all the others |
| Deck.HandCardsUpdate | server.js:37 | replacing one hand changes the card sum by exactly the old and the new hand |
| Deck.HandCardsDeal | server.js:37 | moving cards from the deck into one hand keeps hands plus deck the same |
| Deck.HandCardsTake | server.js:121 | taking one card out of a hand lowers the card sum by exactly that card |
| Text.LeadingSpaces | server.js:81 | counts exactly the white space at the start |
| Text.TrailingSpaces | server.js:81 | counts exactly the white space at the end |
| Text.Trim | server.js:81 | the result is the middle of the input, neither end is white space, and it is empty exactly when the input is all white space |
| Text.TrimIdempotent | server.js:81 | trimming twice is trimming once |
| Text.NormalizeName | server.js:81 | the name is never empty and at most 20 characters; a missing or blank name gives "Gast"; otherwise it is the first `min(20, n)` characters of the trimmed name |
| Text.UpperChar | server.js:88 | ASCII lower-case letters become upper case and other ASCII characters are kept; one character gives one to three |
| Text.ToUpper | server.js:88 | `toUpperCase` never shortens a string, and on an ASCII string it works character by character, keeping the length |
| Text.CodeAlphabetChars | server.js:17 | every character of the code alphabet is an upper-case letter other than I and O, or a digit from 2 to 9 |
| Text.CodeCharIsUpper | server.js:17 | every alphabet character is such a character |
| Text.ToUpperKeepsUpper | server.js:88 | upper-casing a string of alphabet characters leaves it unchanged |
| Text.RoomCodeIsUpper | server.js:17 | a generated room code is its own upper-case form |
| Text.UpperOfLowerChar | server.js:88 | an alphabet character typed in lower case upper-cases back to itself |
| Text.UpperOfLowerCode | server.js:88 | a room code typed in lower case upper-cases back to the code |
| Game.ClampPoints | server.js:104 | the target always lies in [3, 15]; a missing or zero request gives 7; a request in range is kept; one below 3 gives 3 and one above 15 gives 15 |
| Game.ClampPointsIdempotent | server.js:104 | clamping an already clamped target changes nothing |
| Game.FirstSubmissionBy | server.js:139 | None exactly when the player submitted nothing; otherwise the first position of a submission by that player |
| Game.FirstSubmissionCard | server.js:139 | the winning card is None exactly when the winner submitted nothing; otherwise it is the card of their first submission |
| Game.RemoveAll | server.js:168 | the id is gone; every other id stays in exactly when it was in; each other id occurs as often as before |
| Game.RemoveAllConcat | server.js:168 | removing an id from a concatenation removes it from each part, so the remaining order keeps its relative sequence |
| Game.RemoveAllAbsent | server.js:168 | removing an id that is not there changes nothing |
| Game.RemoveAllIdempotent | server.js:168 | leaving a second time changes nothing |
| Game.MaxScoreExists | server.js:147 | a non-empty set of players has a highest score |
| Game.MaxScore | server.js:147 | `Math.max` of the scores: no player scores more, and some player scores exactly that |
| Game.ReachedTargetIsMaxScore | server.js:147-148 | the victory test holds exactly when the highest score is at least the target |
| Game.SubmittedCardsAppend | server.js:122 | appending a submission appends its card to the submitted cards |
| Game.PoolAfterDeal | server.js:37 | a deal that keeps hand plus deck keeps the answer-card pool |
| Game.PoolAfterSubmit | server.js:121-122 | moving a card from a hand to the submissions keeps the answer-card pool |
| Game.PoolAfterClear | server.js:142-145 | moving every submitted card to the discard pile and clearing the submissions keeps the pool |
| Game.JudgeOf | server.js:116 | the judge is a member of the order, and the player at `judgeIndex` when that is in range |
| Game.NextTurn | server.js:185 | the new judge index is always a valid position in the order |
| Game.NextTurnKeepsPrompts | server.js:187-190 | a round loses no prompt card: the drawn prompt plus both piles make the same multiset as before |
| Game.NextTurnPrompt | server.js:187-191 | a round has a prompt exactly when one of the piles has a card; it comes from the deck, or from the discard pile when the deck is empty, and one random number is used |
| Game.NextTurnRotates | server.js:183-185 | the round number rises by one and, while the order keeps its length, round `r + 1` is judged by position `r mod n`, starting with position 0 |
| Game.DealOne | server.js:34-39 | `dealAnswers` on values: the player's hand, or none, topped up by `TopUp`; no ensures of its own: `DealOneKeepsPool`, `DealOneBounded`, `DealOneGrows` and `DealOneFills` state it |
| Game.DealOneKeepsPool | server.js:34-39 | one deal keeps the answer-card pool |
| Game.DealOneBounded | server.js:34-39 | a deal to seven cards lets no hand grow past seven |
| Game.DealOneGrows | server.js:34-39 | a deal only appends cards to the dealt player's hand and leaves every other hand alone |
| Game.DealOneFills | server.js:34-39 | after a deal to seven the player has a full hand or the deck is empty, and every hand that was full stays full |
| Game.GrownTrans | server.js:37 | hands that grow in two steps grow overall |
| Game.SubmittersAppend | server.js:141-143 | appending a submission appends its player to the list of submitters |
| Game.DealAll | server.js:107-109 | `dealAnswers` for each id of a list in turn, as in the loops at lines 107-109 and 141-144; no ensures of its own: `DealAllBounded`, `DealAllGrows`, `DealAllFills`, `DealAllKeepsPool` and `DealAllKeys` state it |
| Game.DealAllBounded | server.js:107-109 | dealing to a list of players lets no hand grow past seven |
| Game.DealAllGrows | server.js:107-109 | dealing to a list only appends cards to hands and leaves the hand of everybody outside it alone |
| Game.DealAllFills | server.js:107-109 | after dealing to a list everybody in it has a full hand, unless the deck ran out |
| Game.DealAllKeepsPool | server.js:107-109 | dealing to a list keeps the answer-card pool |
| Game.DealAllKeys | server.js:141-144 | after dealing to a list, exactly the players who had a hand and those in the list have one |
| Game.Depart | server.js:166-173 | the caller is gone from players and order; the host stays unless it was the caller, and a departing host hands over to the first remaining player |
| Game.DepartKeepsAgreement | server.js:166-173 | if players, order and host agreed before a departure, they agree after it |
| Game.DepartIdempotent | server.js:166-173 | leaving a second time changes nothing |
| Game.LeaveAt | server.js:165-176 | one pass of the `disconnecting` loop on a table of memberships; no ensures of its own: `LeaveAtSpec` states it |
| Game.LeaveAll | server.js:164-178 | the whole `disconnecting` loop, pass after pass in the order of the codes; no ensures of its own: `LeaveAllSpec` states it |
| Game.LeaveAtSpec | server.js:165-175 | one pass over the table of memberships: the code's room is dropped exactly when its order becomes empty, otherwise it holds the departed membership, and every other room is kept |
| Game.LeaveAllSpec | server.js:164-177 | after all passes a room survives exactly when it was there and, if the caller was in it, someone is left; a surviving joined room holds the departed membership and every other room its old one, even when a code is listed twice |
| Game.ReplenishKeepsPool | server.js:141-145 | the replenishing loop with the clearing of the submissions keeps the answer-card pool |
| Engine.Room.constructor | server.js:63-82 | the initial record: the creator is host, only player and whole order, with a normalised name and score 0; round 0, judge index 0, not started, target 7, office mode, no prompt, empty hands, submissions and discard piles, and the decks copied from the card pools |
| Engine.Room.Public | server.js:201-211 | the projection carries code, host, players, started, target and mode; in a valid room its players are exactly the order's ids and include the host |
| Engine.Room.DealAnswers | server.js:34-39 | the new hands, deck and random source are those of `DealOne`, for every random outcome |
| Engine.Room.StartRound | server.js:182-199 | the new round number, judge index, prompt piles and prompt are those of `NextTurn`; `newRound` and `submissionsCount(0)` are announced |
| Engine.Room.DealEveryone | server.js:107-109 | the new hands and deck are those of `DealAll` over the order, and no hand grows past seven |
| Engine.Room.StartGame | server.js:102-110 | a non-host or a running game changes nothing and announces nothing; otherwise the target is clamped, the room runs, everybody is dealt in turn order and the first round starts; the answer-card pool is kept |
| Engine.Room.SetUp | server.js:104-109 | the target is clamped, the room runs, and hands and deck are those of `DealAll` over the order |
| Engine.Room.Launch | server.js:104-110 | the target is clamped, everybody is dealt and the first round is started and announced, with the invariant kept |
| Engine.Room.SubmitAnswer | server.js:115-128 | nothing changes unless the room runs, the caller is not `order[judgeIndex % n]` and the hand holds the card; otherwise exactly that card moves from the hand to the end of the submissions, the count is announced, and "all submitted" exactly when the count is at least the order's length minus one; the pool is kept |
| Engine.Room.Lay | server.js:121-128 | the card at the found position leaves the hand and is appended to the submissions under the caller's id; the pool is kept |
| Engine.Room.Replenish | server.js:141-145 | every submitted card is appended to the discard pile in order, the submitters are dealt as by `DealAll`, the submissions are emptied, and the answer-card pool is kept |
| Engine.Room.Refill | server.js:141-145 | the loop itself: discard pile, hands and deck after it are those of appending the submitted cards and of `DealAll` over the submitters, and no hand grows past seven |
| Engine.Room.PickWinner | server.js:133-153 | nothing changes unless the room runs, the caller is the judge and the named player exists; otherwise exactly the winner's score rises by one, cards are discarded and hands replenished, the game stops exactly when the highest score reaches the target, and a next round is due exactly when it goes on; the answer-card pool is kept |
| Engine.Room.Award | server.js:138-153 | scoring, replenishing and the victory check, with the result announced before any `gameOver`; the answer-card pool is kept |
| Engine.Room.Score | server.js:138-139 | only the winner's record changes, by one point; the result names the winner, their first submitted card and the prompt |
| Engine.Room.CheckVictory | server.js:147-153 | the room stops exactly when the highest score is at least the target; then `gameOver` names the winner, otherwise the next round is due |
| Engine.Room.ChangeMode | server.js:158-160 | a non-host changes nothing; the host sets open mode for "open" and office mode for anything else, and the room state is broadcast |
| Engine.Room.Join | server.js:90-96 | a newcomer to a running game is refused with "Spiel hat bereits begonnen." and nothing changes; anybody else gets a fresh record with score 0 and a normalised name, is appended to the order, and the room state is broadcast |
| Engine.Room.Leave | server.js:166-173 | the new players, order and host are `Depart` of the old ones, and the room invariant is kept |
| Lobby.Registry.constructor | server.js:19 | the server starts with no rooms |
| Lobby.Registry.CreateRoom | server.js:60-85 | a fresh room is filed under the generated code and nothing else in the table changes; it holds the whole initial record (creator as host, only player and whole order, score 0, round 0, not started, target 7, office mode, empty hands, submissions and piles, decks copied from the pools), its answer-card pool is the answer pool, and its state is broadcast |
| Lobby.Registry.JoinRoom | server.js:87-97 | the code is upper-cased; an unknown code answers "Raum nicht gefunden." to the caller alone and changes nothing; a newcomer to a game that was running is refused and nothing changes; otherwise the caller gets a fresh record with a normalised name and score 0 and is appended to the order; only the players and order of that room may change |
| Lobby.JoinFindsTypedCode | server.js:88 | a filed code, typed as it is or in lower case, finds its own room |
| Lobby.Registry.StartGame | server.js:99-111 | an unknown code changes nothing; for a filed room the game is launched exactly when the caller was the host and it was not running, and otherwise nothing changes; the answer-card pool is kept; only the fields the start changes, of that room, may change |
| Lobby.Registry.SubmitAnswer | server.js:113-129 | an unknown code changes nothing; a card is laid exactly when the room was running, the caller was not the judge and their hand held the card, and otherwise nothing changes; the pool is kept; only hands and submissions of that room may change |
| Lobby.Registry.PickWinner | server.js:131-154 | an unknown code changes nothing and schedules nothing; the round is awarded exactly when the room was running, the caller was the judge and the named player existed, and otherwise nothing changes; the pool is kept; only the fields the award changes, of that room, may change |
| Lobby.Registry.ChangeMode | server.js:156-161 | an unknown code changes nothing; the host of the room sets open mode for "open" and office mode otherwise and the state is broadcast, anybody else changes nothing; only the mode of that room may change |
| Lobby.Registry.NextRound | server.js:153 | the delayed `startRound` for the room filed under the code acts as `NextTurn` on the old round state and announces the round; only the round fields of that room may change |
| Lobby.Registry.LeaveRoom | server.js:164-177 | an unknown code changes nothing; for a filed code the room's membership becomes `Depart` of the old one, and the room is removed exactly when its order is empty, otherwise its state is broadcast; no room is added and every other room is unchanged |
| Lobby.Registry.LeaveNext | server.js:164-177 | one pass of the loop, on the table of memberships: if the table showed `t` before, it shows `LeaveAt(t, caller, code)` after |
| Lobby.Registry.Settle | server.js:169-176 | a room with an empty order is removed and nothing is announced; otherwise it stays and its state is broadcast |
| Lobby.Registry.Disconnecting | server.js:163-179 | the table shows `LeaveAll` of the old memberships: a room survives exactly when it was filed and, if it was joined, someone is left after the caller's departure; a surviving joined room holds `Depart` of its old membership (players, order and host); a room not joined keeps its membership; no room is added |
| Lobby.Registry.HandView | server.js:42-49 | an unknown room or an empty socket id gives no cards; otherwise the player's hand, or none; never more than seven cards |
| Lobby.Registry.SubmissionsView | server.js:51-56 | an unknown room gives no submissions; otherwise the room's submissions as they are |

## Left out

- Transport is left out: the Express app, static files, `httpServer.listen`, the socket.io connection and `socket.join`. `io.to(code).emit` and `socket.emit` are returned `Outbound` events.
- `loadDeck` reads files; the prompt and answer pools are parameters.
- `nanoid` is a foreign library; the code is a parameter that must have the generator's format.
- `Math.random` is the `rng` parameter. A number is reduced modulo the pool size rather than scaled as a floating-point fraction, and a source that has run dry gives position 0.
- `setTimeout` is left out: `pickWinner` returns `nextRound`, and `Registry.NextRound` is the delayed call. It advances whatever room is filed under the code when it runs. The original keeps a reference to the room object, so it would also advance a room that has since been removed or replaced.
- The players of `publicRoom` are a map, so the `Object.values` order is not modelled.
- `Text.ToUpper` maps only ASCII letters and the characters whose full upper-case form is ASCII; every other character is kept. This cannot change which room a typed code finds, since room codes are ASCII.
- `slice(0, 20)` counts characters, not UTF-16 code units.
- `pointsToWin` is an optional integer; non-integer, NaN and string values a client might send are not modelled.
- The `String(code || "")` conversion of a non-string code is not modelled; codes are strings.
- Game.NextTurnRotates: judges rotate in turn order only while the order keeps its length, since a leave shifts positions without adjusting `judgeIndex`, and a second join during a running game appends the id to the order again and lengthens it.
- Lobby.Registry.Disconnecting: does not state the events it returns; the events of each pass are those of `Lobby.Registry.LeaveRoom`.
- `players` is a plain JavaScript object, so a `playerId` such as "toString", "constructor" or "__proto__" passes the existence test of `pickWinner`: the winner is then no player, the result names no player, the point goes to the prototype ("__proto__" sets a `score` on `Object.prototype`), and the round is replenished and continued. The model's maps hold only real players, so such an id is unknown and changes nothing.
- A `name` that is not a string makes `name?.trim()` throw in `createRoom` after the room has been filed, which leaves a room with no player in the table; names are modelled as optional strings, so this case and the room it leaves behind are not modelled.
- `socket.rooms` is the parameter `joined`; the socket's own private room, which has no table entry, is skipped like any other unknown code.

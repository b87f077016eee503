# Skull King scorekeeper — scoring engine, score table and game state in Dafny

This project models the game logic of a scorekeeper for the card game Skull King. The logic has
two front ends, a React Native mobile app (`App.js`) and a browser page (`app.js`), and both
carry it almost word for word. The model covers:

- **The scoring engine** (`scoring.dfy`, module `Scoring`). It holds `clampNumber`,
  `calculateRoundScore` and `totalScore`, defined once because both files have the same code.
  A round's score is the bonus plus the stake when the bid is made, and the bonus minus the stake
  when it is missed. A nil bid is made exactly when no trick is taken. A nil bid stakes ten per
  round number, a made bid twenty per trick, and a missed bid ten per trick of difference.
  The total is defined by walking the rounds in ascending order, the order `Object.entries`
  gives for non-negative integer keys. A lemma then shows that a `reduce` over any listing of the entries
  gives the same total.
- **The score table** (`game_data.dfy`, module `GameData`). It holds players and cards,
  `ensureScoreEntry` expressed on a score map, the `find` and `filter` by player id that both
  front ends use, the `Pirate <n>` names and the default card catalogue.
- **The mobile game state** (`mobile_app.dfy`, module `MobileApp`). The component state
  `{players, rounds, currentRound, roundPhase, cards}` is a record, and each handler is a pure
  transition on it. This follows the source, where every update goes through a
  `setPlayers`/`setCards` updater that builds new arrays. Bids can be entered only in the bids
  phase; tricks and bonus only in the results phase. The render-time `ensureScoreEntry`, which
  writes into a live player object, is the method `PlayerRecord.EnsureScoreEntry`.
- **The browser game state** (`browser_app.dfy`, module `BrowserApp`). The global `state`
  object is the class `ScoreKeeper`, and each event handler is a method that updates its fields
  in place. The reset's `forEach` is a loop with invariants. There is no phase gate here.
  Removing a player is guarded only by disabling the button, so `RemovePlayer` requires more
  than two players.

The two front ends differ in small ways, and the model keeps each one's behaviour:

- The mobile load defaults a missing `rounds` to 10. The browser load keeps the current count
  instead, and then lowers `currentRound` to the count. The mobile load does not do that
  (`LoadMayExceedRounds`).
- The mobile key for the phase is `roundPhase`, in both save and load.
- A mobile bonus card is added to the current round of the focused player. A browser bonus card
  goes to the entry the focused input belongs to: that entry's round is fixed when the input
  gets focus.

Inputs that come from outside the logic are parameters:

- Parsed numbers are `Option<int>`, with `None` standing for NaN.
- Fresh player ids are passed in and must be distinct from the existing ids.
- A confirmation dialog is a boolean.
- The stored snapshot is an already-parsed `Option` record with optional fields.

A consequence worth knowing, stated in `GameData.EnsuredScoresTotal`: creating the zero entry of
round N adds 10·N to that player's total. A zero entry is a made nil bid. Both front ends create
it for every player as soon as round N is shown.

## Model

| member | source | states |
|---|---|---|
| `Scoring.ClampNumber` | App.js:85-89 | NaN gives `min`. When `min <= max` the result lies in [min, max]. An in-range value is returned unchanged, and a value outside is moved to the nearer bound. When `max < min` the result is `max`. |
| `Scoring.CalculateRoundScore` | App.js:98-108 | The score is the bonus plus the stake when the tricks equal the bid, and the bonus minus the stake otherwise. Stake: 10·N for a nil bid, 20·bid for a made bid, 10·\|bid − tricks\| for a missed one. Total over all integers. |
| `Scoring.NilBidScore` | App.js:100-103 | Bid 0: N·10 + bonus with no tricks, −N·10 + bonus otherwise. |
| `Scoring.NonNilBidScore` | App.js:104-107 | Bid ≠ 0: bid·20 + bonus when met, −\|bid − tricks\|·10 + bonus otherwise. The round number has no effect. |
| `Scoring.ScoreBeatsBonusIffMade` | App.js:100-107 | For round ≥ 1 and bid ≥ 0, the score is above the bonus exactly when the bid is made. |
| `Scoring.BonusIsAdditive` | App.js:102-107 | Changing the bonus shifts the score by exactly that amount. |
| `Scoring.ScoreExamples` | app.js:126-136 | Round 1 with 0/0 scores 10, round 1 with 0/1 scores −10, round 5 with 3/3 and bonus 20 scores 80, round 5 with 3/1 scores −20. |
| `Scoring.TotalScore` | App.js:110-114 | Sum of round scores over the sheet, each key as its own multiplier. An empty sheet totals 0. |
| `Scoring.TotalScoreRemove` | App.js:111-113 | Any round's score can be taken out of the total first. |
| `Scoring.TotalScoreUpdate` | App.js:110-114 | Replacing or adding one round's entry moves the total by exactly that round's change. |
| `Scoring.ReduceEntries` | app.js:138-142 | The `reduce` over one listing of the entries, starting from 0. |
| `Scoring.ReduceEntriesAppend` | app.js:138-142 | Reducing two listings one after the other adds their reduces. |
| `Scoring.ReduceIsOrderFree` | app.js:138-142 | The `reduce` over any listing that has each entry exactly once equals the total. |
| `Scoring.ReduceAgreesAcrossOrders` | App.js:111-113 | Two listings of the same sheet reduce to the same total. |
| `GameData.NumberOr` | App.js:391 | `Number(text) \|\| d`: NaN and 0 give `d`, any other number is kept. |
| `GameData.NameOrMystery` | App.js:272 | An empty name becomes the placeholder, any other name is kept. The result is never empty. |
| `GameData.EnsuredScores` | App.js:91-96 | The round gets a zero entry only when it has none. An existing entry and all other rounds are untouched, and the keys grow by that round alone. |
| `GameData.EntryOf` | app.js:118-124 | The returned entry is the existing one, or zero when there was none. |
| `GameData.EnsuredScoresIdempotent` | app.js:118-124 | A second call changes nothing and returns the same entry. |
| `GameData.EnsuredScoresTotal` | App.js:352 | Creating a round-N zero entry raises the total by 10·N, and an existing entry leaves it unchanged. |
| `GameData.FindPlayer` | app.js:119 | Gives the first index with the id, or none exactly when no player has it. |
| `GameData.WithoutPlayer` | App.js:201 | The filter is no longer than the roster, and no player it keeps has the id. |
| `GameData.WithoutPlayerMembers` | app.js:167 | A player is kept exactly when it was in the roster with another id. |
| `GameData.WithoutPlayerAppend` | App.js:201 | The filter distributes over concatenation, so the order is kept. |
| `GameData.WithoutAbsentPlayer` | app.js:167 | An id nobody has removes nothing. |
| `GameData.WithoutOnePlayer` | app.js:165-170 | Removing the single player with the id from `a + [p] + b` leaves `a + b`. |
| `GameData.WithoutPlayerLength` | App.js:199-202 | With distinct ids, exactly one player is removed when the id is present, and none otherwise. |
| `GameData.WithoutPlayerDistinct` | App.js:201 | The filter keeps ids distinct. |
| `GameData.ClearedScores` | App.js:211 | Every player keeps its id and name, and every score sheet is empty. |
| `GameData.PirateName` | App.js:193 | The name is `Pirate ` followed by exactly `DecimalString(n)`, the decimal rendering of `n`. |
| `GameData.DecimalString` | App.js:193 | Gives a non-empty string of decimal digits with no leading zero when it has more than one digit; a single-digit `n` is written as that one digit. |
| `GameData.DecimalStringValue` | App.js:193 | The digits written for `n` denote `n`. |
| `GameData.DecimalStringInjective` | app.js:321 | Different player counts give different default names. |
| `GameData.NewPlayer` | App.js:190-195 | The new player has the fresh id, the name `Pirate <n+1>` and no scores. |
| `GameData.SetCardValue` | App.js:455-457 | Cards with the id get value `Number(text) \|\| 0` and keep everything else. The other cards are unchanged. |
| `MobileApp.InitialGame` | App.js:116-127 | The players are exactly Capitaine Anne, Barbe Noire and Mousse Jack with the fresh ids `a`, `b`, `c` and no scores; 10 rounds, round 1, bids phase, default cards. The state is well formed. |
| `MobileApp.Merge` | App.js:178 | Fields carried by the update replace the entry's, and the others are kept. |
| `MobileApp.WriteScore` | App.js:176-178 | After the copy-ensure-merge, only the round's entry differs, and it is the merge over the old or zero entry. |
| `MobileApp.UpdateScore` | App.js:172-182 | Only players with the id change, only in the current round's entry, which becomes the merge over the old or default entry. Ids are unchanged. |
| `MobileApp.UpdateScoreTotal` | App.js:172-182 | The updated player's total moves by that round's score change alone. |
| `MobileApp.UpdatePlayer` | App.js:166-170 | Players with the id take the name and keep their scores. The others are unchanged. |
| `MobileApp.RenamePlayer` | App.js:272 | Only names change, and the state stays well formed. |
| `MobileApp.EnterBid` | App.js:357-366 | Outside the bids phase nothing changes. In it, the stored bid is the clamped input, within [0, currentRound]. The state stays well formed. |
| `MobileApp.EnterTricks` | App.js:370-382 | Outside the results phase nothing changes. In it, the stored tricks are the clamped input, within [0, currentRound]. |
| `MobileApp.EnterBonus` | App.js:383-396 | Outside the results phase nothing changes. In it, the stored bonus is `Number(text) \|\| 0`, and NaN gives 0. |
| `MobileApp.ActiveBonusValue` | App.js:422-424 | The first matching player's current-round bonus, or 0 when there is no such player or entry. |
| `MobileApp.ApplyBonusCard` | App.js:416-426 | No active field, or an empty id, changes nothing. Otherwise the players become the score update of the active id's current round with bonus = old bonus + card value, so nobody else and nothing else changes. An unknown player changes nothing. |
| `MobileApp.EditCardValue` | App.js:453-458 | Only the card catalogue changes. |
| `MobileApp.AddPlayer` | App.js:184-197 | At 8 or more players nothing changes. Otherwise exactly one `Pirate <n+1>` with no scores is appended. The count stays ≤ 8, and the state stays well formed. |
| `MobileApp.RemovePlayer` | App.js:199-202 | At ≤ 2 players nothing changes. Otherwise it is the order-keeping filter. With distinct ids the count stays ≥ 2. |
| `MobileApp.ResetGame` | App.js:204-217 | Cancelling changes nothing. Confirming empties all scores (every total becomes 0 before the next render), keeps ids and names, and sets round 1 and the bids phase. |
| `MobileApp.TogglePhase` | App.js:219-221 | Always gives the other phase. |
| `MobileApp.TogglePhaseTwice` | App.js:219-221 | Toggling twice gives back the original phase. |
| `MobileApp.CompleteRound` | App.js:223-234 | Unless in the results phase with currentRound < rounds, nothing changes. Otherwise the round goes up by exactly 1 and the phase becomes bids. |
| `MobileApp.SelectRound` | App.js:302-305 | The round becomes current and the phase becomes bids. A round in [1, rounds] keeps the state well formed. |
| `MobileApp.SetMaxRounds` | App.js:319-325 | `rounds` becomes the count, and a larger current round is lowered to it with the phase reset to bids. Afterwards currentRound ≤ rounds. |
| `MobileApp.LoadState` | App.js:141-156 | Nothing stored, a parse failure, or a missing `players`/`cards` leaves the state unchanged. Otherwise the snapshot is adopted with defaults 10 / 1 / bids. |
| `MobileApp.SaveState` | App.js:130-139 | The payload carries the values of players, rounds, current round, phase (under `roundPhase`) and cards. |
| `MobileApp.LoadSavedState` | App.js:130-156 | Loading a saved payload restores exactly the saved state. |
| `MobileApp.LoadMayExceedRounds` | App.js:146-149 | A snapshot can load a current round beyond the round count, because the mobile load does not clamp it. |
| `MobileApp.PlayerRecord.EnsureScoreEntry` | App.js:91-96 | In place: the sheet becomes the ensured sheet, and the returned entry is the old or zero entry. |
| `BrowserApp.Decode` | app.js:102-116 | An absent or unparsable snapshot, or one without `players`/`cards`, keeps the state. Otherwise it is adopted: a missing `rounds` keeps the current count, a missing `currentRound` becomes 1. |
| `BrowserApp.Encode` | app.js:98-100 | The payload carries all four persisted fields. |
| `BrowserApp.DecodeEncode` | app.js:98-116 | Loading a saved payload restores it. |
| `BrowserApp.ScoreKeeper.constructor` | app.js:70-79 | The three default players have no scores; 10 rounds, round 1, default cards, no focused bonus. The state is well formed. |
| `BrowserApp.ScoreKeeper.LoadState` | app.js:102-116 | The persisted fields become the decode of the old ones. |
| `BrowserApp.ScoreKeeper.ClampCurrentRound` | app.js:355-357 | Afterwards currentRound ≤ rounds, lowered only when it was larger. |
| `BrowserApp.ScoreKeeper.Start` | app.js:354-357 | After the load and the clamp, currentRound ≤ rounds. |
| `BrowserApp.ScoreKeeper.EnsureScoreEntry` | app.js:118-124 | Only the first player with the id changes, to its ensured sheet. It returns the old or zero entry, and ids are unchanged. |
| `BrowserApp.ScoreKeeper.SetBid` | app.js:215-218 | Only that player's current-round bid changes, to the clamped input, within [0, currentRound]. |
| `BrowserApp.ScoreKeeper.SetTricks` | app.js:225-228 | Only that player's current-round tricks change, to the clamped input, within [0, currentRound]. |
| `BrowserApp.ScoreKeeper.SetBonus` | app.js:234-237 | Only that player's current-round bonus changes, to `Number(value) \|\| 0`. |
| `BrowserApp.ScoreKeeper.FocusBonus` | app.js:238-240 | The focused target becomes that player's current-round entry. |
| `BrowserApp.ScoreKeeper.ApplyBonusCard` | app.js:264-272 | With no focused field, or its player gone, nothing changes. Otherwise the target entry's bonus becomes current + card value. |
| `BrowserApp.ScoreKeeper.Rename` | app.js:152-156 | The player of the edited row takes the name, or the placeholder when the name is empty; nobody else changes. |
| `BrowserApp.ScoreKeeper.EditCardValue` | app.js:289-292 | That card's value becomes `Number(value) \|\| 0`. |
| `BrowserApp.ScoreKeeper.AddPlayer` | app.js:314-326 | Refused with the list unchanged at ≥ 8. Otherwise exactly one player with no scores is pushed and the others are untouched. The state stays well formed. |
| `BrowserApp.ScoreKeeper.RemovePlayer` | app.js:165-170 | Requires more than 2 players. The players with the id are filtered out in order. With distinct ids the crew stays in [2, 8]. |
| `BrowserApp.ScoreKeeper.Reset` | app.js:328-333 | After confirming, every score sheet is emptied in a loop, ids and names are kept, and currentRound is set to 1. The player count is unchanged. The `renderAll` that follows is `RenderScoreboard`. |
| `BrowserApp.ScoreKeeper.RenderScoreboard` | app.js:196-199 | The loop calling `ensureScoreEntry(player.id, currentRound)` for each player leaves exactly `RenderedRoster` of the old roster: the first player with each id gets its ensured sheet. Well-formedness is kept. |
| `BrowserApp.ResetThenRender` | app.js:328-336 | After a confirmed reset and its render, each player has one zero round-1 entry and a total of 10. |
| `GameData.RenderedRoster` | app.js:196-199 | Ids and names are kept; the first player with each id gets its ensured sheet and every other player is unchanged. |
| `GameData.EnsuredRoster` | App.js:351-352 | Ids and names are kept and every player's sheet is its ensured sheet. |
| `GameData.EnsuredFor` | app.js:118-124 | The roster after one `ensureScoreEntry`, of the same length. |
| `GameData.RenderedRosterDistinct` | app.js:196-199 | With distinct ids the browser render equals the mobile render: every player gets an entry. |
| `GameData.EnsuredRosterIdempotent` | App.js:351-352 | Rendering a second time changes nothing. |
| `GameData.ClearedThenRendered` | App.js:351-352 | Rendering cleared sheets leaves each with only a zero entry for the round, whose total is ten times the round. |
| `GameData.FindOwnId` | app.js:119 | With distinct ids, `find` by a player's own id returns that player. |
| `GameData.FindPlayerSameIds` | app.js:119 | `find` depends only on the ids. |
| `GameData.RenderStep` | app.js:198-199 | One loop step of the render keeps the prefix invariant: the next id's `ensureScoreEntry` reaches its first holder. |
| `MobileApp.RenderEntries` | App.js:351-352 | The render gives every player an entry for the current round and changes nothing else; well-formedness is kept. |
| `MobileApp.ResetThenRender` | App.js:204-217 | After a confirmed reset and its render, each player has one zero round-1 entry and a total of 10. |
| `BrowserApp.ScoreKeeper.SelectRound` | app.js:338-342 | currentRound is set to `Number(value) \|\| 1`, so NaN gives 1. |
| `BrowserApp.ScoreKeeper.SetRoundCount` | app.js:344-352 | `rounds` is set to `Number(value) \|\| 10`. A larger current round is lowered to it, so afterwards currentRound ≤ rounds. |

## Left out

- Rendering: the JSX layout and `StyleSheet` of the mobile app, and the DOM building and event
  wiring of the browser page. These are presentation only, except for the entries the render
  creates, which the model has (`MobileApp.RenderEntries`, `BrowserApp.ScoreKeeper.RenderScoreboard`).
- The handler contracts describe the state a handler leaves before its render. In the browser,
  `renderScoreboard` runs at the end of every handler that changes the players or the current
  round (app.js:154, 168, 301, 324, 334, 340, 350); the card-value and bonus-focus listeners
  (app.js:289-293, 238-240) do not render the scoreboard, so the contracts of
  `ScoreKeeper.EditCardValue` and `ScoreKeeper.FocusBonus` give the final state. In the mobile
  app the entries are created on every render (App.js:351-352). It gives each player a zero entry for
  the current round when there is none. So the state saved after a reset holds a zero round-1
  entry per player, each total 10 (`ResetThenRender`); selecting round N adds 10·N to every
  player without an entry; and a new player gets its zero entry at once. The handler methods do
  not call the render themselves.
- Storage: `AsyncStorage`, `localStorage`, `JSON.stringify` and `JSON.parse`. A load is a decode
  of an already-parsed optional snapshot, and an unparsable value is `None`. A stored value of
  the wrong JSON type, or a `roundPhase` other than the two phases, is not representable.
- The ordering of the asynchronous load and save effects in the mobile app. This is event-loop
  plumbing.
- `BrowserApp.ScoreKeeper.EnsureScoreEntry`: requires a known id. The source throws a
  `TypeError` on an unknown one (app.js:119-120), but its only caller (app.js:199) passes ids
  taken from `state.players`, so the requirement always holds there.
- `crypto.randomUUID`: fresh ids are parameters, required to differ from the existing ids.
- `Alert.alert`, `alert` and `confirm`: a refusal leaves the state unchanged, and a confirmation
  is a boolean input.
- `Number` / `parseInt` coercion: inputs are `Option<int>`, with `None` for NaN. Fractional
  bonus and card values, which `Number` can give, are not modelled.
- JavaScript numbers are IEEE doubles, while the model's integers are unbounded. Sums past
  2^53 round in the source (a bonus of 2^53 plus a card worth 1 stays 2^53) but are exact in
  the model. `Number` can also give `Infinity`, which `|| 0` keeps; no `Option<int>` stands for it.
- Focus tracking is data, not a UI object. The mobile active field is `Option<PlayerId>`. The
  browser focused input is `Option<BonusTarget>`.
- Display timing in the mobile app: the in-place `ensureScoreEntry` during render schedules no
  re-render, and the total shown at App.js:274 is computed earlier in the same render than the
  ensure at App.js:352, so the displayed total can lag by one render. Only the state update is
  modelled.
- `BrowserApp.ScoreKeeper.ApplyBonusCard`: the current value is the stored bonus of the target
  entry, not the text shown in the detached input element. This is weaker where the two could
  differ.
- The browser focused input after a reset or after its player's removal writes into an entry
  that is no longer in the state. The model clears the target instead, which leaves the state
  just as unchanged.
- With duplicate ids, the browser score handlers act on the first matching player, as the `find`
  in `ensureScoreEntry` does, while the browser name field renames its own row. The mobile
  updaters act on every matching player, as `map` does. Ids are distinct unless a stored
  snapshot brings duplicates.
- The card field `label` is named `caption`, because `label` is a reserved word in Dafny.

/** The mobile front end (`App.js`): the component state as one record, each handler as a pure
    transition on it, and the live player object that `ensureScoreEntry` updates in place. */
module MobileApp {
  import opened Wrappers
  import opened Scoring
  import opened GameData

  /** `roundPhase`: bids are entered in `Bids`, tricks and bonus in `Results`. */
  datatype Phase = Bids | Results

  /** The component state `{players, rounds, currentRound, roundPhase, cards}`. */
  datatype Game = Game(players: seq<Player>, rounds: int, currentRound: int, phase: Phase, cards: seq<Card>)

  /** A saved snapshot after parsing: every key may be missing. */
  datatype Snapshot = Snapshot(
    players: Option<seq<Player>>,
    rounds: Option<int>,
    currentRound: Option<int>,
    roundPhase: Option<Phase>,
    cards: Option<seq<Card>>)

  /** The partial entries `{bid}`, `{tricks}`, `{bonus}` that `updateScore` spreads over an entry. */
  datatype ScoreUpdate = ScoreUpdate(bid: Option<int>, tricks: Option<int>, bonus: Option<int>)

  /** The initial and the load-time default for `rounds`. */
  const DefaultRounds := 10

  /** The state the game keeps: a crew of 2 to 8 with distinct ids, and a current round within
      the configured count. */
  ghost predicate WellFormed(g: Game) {
    && MinPlayers <= |g.players| <= MaxPlayers
    && DistinctIds(g.players)
    && 1 <= g.currentRound <= g.rounds
  }

  /** The first render's state, with three fresh ids for the default crew. */
  function InitialGame(a: PlayerId, b: PlayerId, c: PlayerId): (g: Game)
    requires a != b && a != c && b != c
    ensures WellFormed(g)
    ensures g.players == [Player(a, "Capitaine Anne", map[]), Player(b, "Barbe Noire", map[]),
                          Player(c, "Mousse Jack", map[])]
    ensures g.rounds == DefaultRounds && g.currentRound == 1 && g.phase == Bids && g.cards == DefaultCards
  {
    Game([Player(a, "Capitaine Anne", map[]), Player(b, "Barbe Noire", map[]), Player(c, "Mousse Jack", map[])],
         DefaultRounds, 1, Bids, DefaultCards)
  }

  /** `{ ...entry, ...updates }`: the fields the update carries replace the entry's. */
  function Merge(e: RoundScore, u: ScoreUpdate): (r: RoundScore)
    ensures u == ScoreUpdate(None, None, None) ==> r == e
    ensures u.bid.Some? ==> r.bid == u.bid.value
    ensures u.bid.None? ==> r.bid == e.bid
    ensures u.tricks.Some? ==> r.tricks == u.tricks.value
    ensures u.tricks.None? ==> r.tricks == e.tricks
    ensures u.bonus.Some? ==> r.bonus == u.bonus.value
    ensures u.bonus.None? ==> r.bonus == e.bonus
  {
    RoundScore(u.bid.GetOr(e.bid), u.tricks.GetOr(e.tricks), u.bonus.GetOr(e.bonus))
  }

  /** One player's copy in `updateScore`: its sheet is copied, the round's entry is ensured on
      the copy, then replaced by the merge. Only that round's entry differs afterwards. */
  function WriteScore(p: Player, round: int, u: ScoreUpdate): (q: Player)
    ensures q.id == p.id && q.name == p.name
    ensures q.scores == p.scores[round := Merge(EntryOf(p.scores, round), u)]
  {
    var scores := EnsuredScores(p.scores, round);
    p.(scores := scores[round := Merge(scores[round], u)])
  }

  /** `updateScore(id, updates)` at round `round`: every player with the id gets its `round`
      entry replaced by the merge of the updates over the old (or zero) entry; nobody and
      nothing else changes. */
  function UpdateScore(ps: seq<Player>, round: int, id: PlayerId, u: ScoreUpdate): (r: seq<Player>)
    ensures SameIds(ps, r)
    ensures forall i :: 0 <= i < |ps| && ps[i].id != id ==> r[i] == ps[i]
    ensures forall i :: 0 <= i < |ps| && ps[i].id == id ==>
              r[i].name == ps[i].name &&
              r[i].scores == ps[i].scores[round := Merge(EntryOf(ps[i].scores, round), u)]
  {
    seq(|ps|, i requires 0 <= i < |ps| => if ps[i].id == id then WriteScore(ps[i], round, u) else ps[i])
  }

  /** The first player with the id carries the merged entry for the round. */
  lemma UpdateScoreFound(ps: seq<Player>, round: int, id: PlayerId, u: ScoreUpdate)
    ensures FindPlayer(ps, id).Some? ==>
              var i := FindPlayer(ps, id).value;
              round in UpdateScore(ps, round, id, u)[i].scores &&
              UpdateScore(ps, round, id, u)[i].scores[round] == Merge(EntryOf(ps[i].scores, round), u)
  {
  }

  /** A score update for an id nobody has changes nothing. */
  lemma UpdateScoreAbsent(ps: seq<Player>, round: int, id: PlayerId, u: ScoreUpdate)
    ensures !HasId(ps, id) ==> UpdateScore(ps, round, id, u) == ps
  {
    if !HasId(ps, id) {
      var r := UpdateScore(ps, round, id, u);
      assert forall i :: 0 <= i < |ps| ==> r[i] == ps[i];
    }
  }

  /** A score update moves the updated player's total by the change in that round alone. */
  lemma UpdateScoreTotal(ps: seq<Player>, round: int, id: PlayerId, u: ScoreUpdate, i: int)
    requires 0 <= i < |ps| && ps[i].id == id
    ensures TotalScore(UpdateScore(ps, round, id, u)[i].scores) ==
            TotalScore(ps[i].scores)
            - (if round in ps[i].scores then CalculateRoundScore(ps[i].scores[round], round) else 0)
            + CalculateRoundScore(Merge(EntryOf(ps[i].scores, round), u), round)
  {
    TotalScoreUpdate(ps[i].scores, round, Merge(EntryOf(ps[i].scores, round), u));
  }

  /** `updatePlayer(id, { name })`: every player with the id takes the name; nothing else changes. */
  function UpdatePlayer(ps: seq<Player>, id: PlayerId, name: string): (r: seq<Player>)
    ensures SameIds(ps, r)
    ensures forall i :: 0 <= i < |ps| && ps[i].id != id ==> r[i] == ps[i]
    ensures forall i :: 0 <= i < |ps| && ps[i].id == id ==> r[i].name == name && r[i].scores == ps[i].scores
  {
    seq(|ps|, i requires 0 <= i < |ps| => if ps[i].id == id then ps[i].(name := name) else ps[i])
  }

  /** The name field's handler: a cleared name becomes the placeholder. */
  function RenamePlayer(g: Game, id: PlayerId, text: string): (r: Game)
    ensures r.players == UpdatePlayer(g.players, id, NameOrMystery(text))
    ensures r.(players := g.players) == g
    ensures WellFormed(g) ==> WellFormed(r)
  {
    SameIdsDistinct(g.players, UpdatePlayer(g.players, id, NameOrMystery(text)));
    g.(players := UpdatePlayer(g.players, id, NameOrMystery(text)))
  }

  /** The bid field's handler. The field is editable only in the bids phase; the entered text
      (`parsed`, None for NaN) is clamped to [0, currentRound]. */
  function EnterBid(g: Game, id: PlayerId, parsed: Option<int>): (r: Game)
    ensures g.phase != Bids ==> r == g
    ensures g.phase == Bids ==>
              r == g.(players := UpdateScore(g.players, g.currentRound, id,
                                            ScoreUpdate(Some(ClampNumber(parsed, 0, g.currentRound)), None, None)))
    ensures g.phase == Bids && g.currentRound >= 0 ==>
              forall i :: 0 <= i < |r.players| && r.players[i].id == id ==>
                0 <= r.players[i].scores[g.currentRound].bid <= g.currentRound
    ensures WellFormed(g) ==> WellFormed(r)
  {
    if g.phase != Bids then g
    else
      var ps := UpdateScore(g.players, g.currentRound, id,
                            ScoreUpdate(Some(ClampNumber(parsed, 0, g.currentRound)), None, None));
      SameIdsDistinct(g.players, ps);
      g.(players := ps)
  }

  /** The tricks field's handler: editable only in the results phase, clamped to [0, currentRound]. */
  function EnterTricks(g: Game, id: PlayerId, parsed: Option<int>): (r: Game)
    ensures g.phase != Results ==> r == g
    ensures g.phase == Results ==>
              r == g.(players := UpdateScore(g.players, g.currentRound, id,
                                            ScoreUpdate(None, Some(ClampNumber(parsed, 0, g.currentRound)), None)))
    ensures g.phase == Results && g.currentRound >= 0 ==>
              forall i :: 0 <= i < |r.players| && r.players[i].id == id ==>
                0 <= r.players[i].scores[g.currentRound].tricks <= g.currentRound
    ensures WellFormed(g) ==> WellFormed(r)
  {
    if g.phase != Results then g
    else
      var ps := UpdateScore(g.players, g.currentRound, id,
                            ScoreUpdate(None, Some(ClampNumber(parsed, 0, g.currentRound)), None));
      SameIdsDistinct(g.players, ps);
      g.(players := ps)
  }

  /** The bonus field's handler: editable only in the results phase; `Number(text) || 0`, with
      no bound on sign or size. */
  function EnterBonus(g: Game, id: PlayerId, parsed: Option<int>): (r: Game)
    ensures g.phase != Results ==> r == g
    ensures g.phase == Results ==>
              r == g.(players := UpdateScore(g.players, g.currentRound, id, ScoreUpdate(None, None, Some(NumberOr(parsed, 0)))))
    ensures g.phase == Results && parsed.None? ==>
              forall i :: 0 <= i < |r.players| && r.players[i].id == id ==> r.players[i].scores[g.currentRound].bonus == 0
    ensures WellFormed(g) ==> WellFormed(r)
  {
    if g.phase != Results then g
    else
      var ps := UpdateScore(g.players, g.currentRound, id, ScoreUpdate(None, None, Some(NumberOr(parsed, 0))));
      SameIdsDistinct(g.players, ps);
      g.(players := ps)
  }

  /** The bonus the active player has for the current round: `?.bonus || 0`. */
  function ActiveBonusValue(g: Game, pid: PlayerId): (b: int)
    ensures FindPlayer(g.players, pid).None? ==> b == 0
    ensures FindPlayer(g.players, pid).Some? ==>
              b == EntryOf(g.players[FindPlayer(g.players, pid).value].scores, g.currentRound).bonus
  {
    match FindPlayer(g.players, pid)
    case None => 0
    case Some(i) =>
      var scores := g.players[i].scores;
      if g.currentRound in scores then scores[g.currentRound].bonus else 0
  }

  /** A bonus-card press. Without an active bonus field (or with an empty id) nothing changes.
      Otherwise the active player's current-round bonus becomes its current value plus the
      card's value, in either phase. */
  function ApplyBonusCard(g: Game, active: Option<PlayerId>, card: Card): (r: Game)
    ensures active.None? || active == Some("") ==> r == g
    ensures active.Some? && active.value != "" ==>
              r.(players := g.players) == g && SameIds(g.players, r.players)
    ensures active.Some? && active.value != "" ==>
              r.players == UpdateScore(g.players, g.currentRound, active.value,
                                       ScoreUpdate(None, None, Some(ActiveBonusValue(g, active.value) + card.value)))
    ensures active.Some? && active.value != "" && FindPlayer(g.players, active.value).Some? ==>
              var i := FindPlayer(g.players, active.value).value;
              g.currentRound in r.players[i].scores &&
              r.players[i].scores[g.currentRound].bonus ==
                EntryOf(g.players[i].scores, g.currentRound).bonus + card.value
    ensures active.Some? && !HasId(g.players, active.value) ==> r == g
    ensures WellFormed(g) ==> WellFormed(r)
  {
    if active.None? || active.value == "" then g
    else
      var pid := active.value;
      var u := ScoreUpdate(None, None, Some(ActiveBonusValue(g, pid) + card.value));
      var ps := UpdateScore(g.players, g.currentRound, pid, u);
      SameIdsDistinct(g.players, ps);
      UpdateScoreAbsent(g.players, g.currentRound, pid, u);
      UpdateScoreFound(g.players, g.currentRound, pid, u);
      g.(players := ps)
  }

  /** The card-value field's handler. */
  function EditCardValue(g: Game, cardId: string, parsed: Option<int>): (r: Game)
    ensures r.cards == SetCardValue(g.cards, cardId, parsed)
    ensures r.(cards := g.cards) == g
  {
    g.(cards := SetCardValue(g.cards, cardId, parsed))
  }

  /** `addPlayer`: refused with nothing changed when the crew is full (8 or more); otherwise
      exactly one player is appended, named `Pirate <n+1>`, with no scores. */
  function AddPlayer(g: Game, freshId: PlayerId): (r: Game)
    requires !HasId(g.players, freshId)
    ensures |g.players| >= MaxPlayers ==> r == g
    ensures |g.players| < MaxPlayers ==>
              r == g.(players := g.players + [NewPlayer(freshId, |g.players|)])
    ensures |g.players| <= MaxPlayers ==> |r.players| <= MaxPlayers
    ensures WellFormed(g) ==> WellFormed(r)
  {
    if |g.players| >= MaxPlayers then g
    else g.(players := g.players + [NewPlayer(freshId, |g.players|)])
  }

  /** `removePlayer(id)`: does nothing at 2 or fewer players; otherwise drops the players with
      the id and keeps the rest in order. With distinct ids that is at most one player, so the
      crew never drops below 2. */
  function RemovePlayer(g: Game, id: PlayerId): (r: Game)
    ensures |g.players| <= MinPlayers ==> r == g
    ensures |g.players| > MinPlayers ==> r == g.(players := WithoutPlayer(g.players, id))
    ensures DistinctIds(g.players) && |g.players| >= MinPlayers ==> |r.players| >= MinPlayers
    ensures WellFormed(g) ==> WellFormed(r)
  {
    if |g.players| <= MinPlayers then g
    else
      if DistinctIds(g.players) then
        WithoutPlayerLength(g.players, id);
        WithoutPlayerDistinct(g.players, id);
        g.(players := WithoutPlayer(g.players, id))
      else g.(players := WithoutPlayer(g.players, id))
  }

  /** The reset's confirmed action: every player keeps its id and name and loses its scores; the
      game goes back to round 1, bids phase. Cancelling changes nothing. */
  function ResetGame(g: Game, confirmed: bool): (r: Game)
    ensures !confirmed ==> r == g
    ensures confirmed ==> r.players == ClearedScores(g.players) && r.currentRound == 1 && r.phase == Bids
    ensures confirmed ==> r.rounds == g.rounds && r.cards == g.cards
    ensures confirmed ==> forall i :: 0 <= i < |r.players| ==> TotalScore(r.players[i].scores) == 0
    ensures WellFormed(g) ==> WellFormed(r)
  {
    if !confirmed then g
    else
      if DistinctIds(g.players) then
        ClearedScoresDistinct(g.players);
        g.(players := ClearedScores(g.players), currentRound := 1, phase := Bids)
      else g.(players := ClearedScores(g.players), currentRound := 1, phase := Bids)
  }
  /** The render's `ensureScoreEntry(player, currentRound)` on every player object: each player
      gets a zero entry for the current round when it has none; nothing else changes. */
  function RenderEntries(g: Game): (r: Game)
    ensures r.(players := g.players) == g
    ensures r.players == EnsuredRoster(g.players, g.currentRound)
    ensures WellFormed(g) ==> WellFormed(r)
  {
    var ps := EnsuredRoster(g.players, g.currentRound);
    SameIdsDistinct(g.players, ps);
    g.(players := ps)
  }

  /** A confirmed reset followed by its render leaves each player with a zero round-1 entry, so
      every total is 10, not 0. */
  lemma ResetThenRender(g: Game)
    ensures var r := RenderEntries(ResetGame(g, true));
            forall i :: 0 <= i < |r.players| ==>
              r.players[i].scores == map[1 := ZeroEntry] && TotalScore(r.players[i].scores) == 10
  {
    ClearedThenRendered(g.players, 1);
  }


  /** `togglePhase`. */
  function TogglePhase(p: Phase): (r: Phase)
    ensures r != p
  {
    if p == Bids then Results else Bids
  }

  /** Toggling twice gives back the phase. */
  lemma TogglePhaseTwice(p: Phase)
    ensures TogglePhase(TogglePhase(p)) == p
  {
  }

  /** `completeRound`: refused unless in the results phase with rounds left; otherwise moves on
      exactly one round and back to bids. */
  function CompleteRound(g: Game): (r: Game)
    ensures g.phase != Results || g.currentRound >= g.rounds ==> r == g
    ensures g.phase == Results && g.currentRound < g.rounds ==>
              r.currentRound == g.currentRound + 1 && r.phase == Bids &&
              r.(currentRound := g.currentRound, phase := g.phase) == g
    ensures r.currentRound <= g.rounds || r == g
    ensures WellFormed(g) ==> WellFormed(r)
  {
    if g.phase != Results then g
    else if g.currentRound >= g.rounds then g
    else g.(currentRound := g.currentRound + 1, phase := Bids)
  }

  /** A round badge press: that round becomes current, in the bids phase. The badges offer 1 to
      `rounds`. */
  function SelectRound(g: Game, round: int): (r: Game)
    ensures r.currentRound == round && r.phase == Bids
    ensures r.(currentRound := g.currentRound, phase := g.phase) == g
    ensures WellFormed(g) && 1 <= round <= g.rounds ==> WellFormed(r)
  {
    g.(currentRound := round, phase := Bids)
  }

  /** A max-round badge press (offered: 5 to 14): the count is set, and a current round beyond it
      is lowered to it, back in the bids phase. */
  function SetMaxRounds(g: Game, count: int): (r: Game)
    ensures r.rounds == count
    ensures r.currentRound <= r.rounds
    ensures g.currentRound <= count ==> r == g.(rounds := count)
    ensures g.currentRound > count ==> r == g.(rounds := count, currentRound := count, phase := Bids)
    ensures WellFormed(g) && count >= 1 ==> WellFormed(r)
  {
    if g.currentRound > count then g.(rounds := count, currentRound := count, phase := Bids)
    else g.(rounds := count)
  }

  /** The `loadState` decode. No stored value or an unparsable one (None), or a snapshot without
      `players` or `cards`, leaves the state as it is; otherwise the snapshot is adopted, a
      missing `rounds` becoming 10, `currentRound` 1 and `roundPhase` bids. */
  function LoadState(g: Game, saved: Option<Snapshot>): (r: Game)
    ensures saved.None? ==> r == g
    ensures saved.Some? && (saved.value.players.None? || saved.value.cards.None?) ==> r == g
    ensures saved.Some? && saved.value.players.Some? && saved.value.cards.Some? ==>
              && r.players == saved.value.players.value
              && r.cards == saved.value.cards.value
              && (saved.value.rounds.None? ==> r.rounds == DefaultRounds)
              && (saved.value.rounds.Some? ==> r.rounds == saved.value.rounds.value)
              && (saved.value.currentRound.None? ==> r.currentRound == 1)
              && (saved.value.currentRound.Some? ==> r.currentRound == saved.value.currentRound.value)
              && (saved.value.roundPhase.None? ==> r.phase == Bids)
              && (saved.value.roundPhase.Some? ==> r.phase == saved.value.roundPhase.value)
  {
    match saved
    case None => g
    case Some(s) =>
      if s.players.Some? && s.cards.Some? then
        Game(s.players.value, s.rounds.GetOr(DefaultRounds), s.currentRound.GetOr(1),
             s.roundPhase.GetOr(Bids), s.cards.value)
      else g
  }

  /** The payload `saveState` writes. */
  function SaveState(g: Game): (s: Snapshot)
    ensures s.players == Some(g.players) && s.cards == Some(g.cards)
    ensures s.rounds == Some(g.rounds) && s.currentRound == Some(g.currentRound)
    ensures s.roundPhase == Some(g.phase)
  {
    Snapshot(Some(g.players), Some(g.rounds), Some(g.currentRound), Some(g.phase), Some(g.cards))
  }

  /** Loading what was saved restores the saved state, whatever the state before the load. */
  lemma LoadSavedState(before: Game, g: Game)
    ensures LoadState(before, Some(SaveState(g))) == g
  {
  }

  /** The mobile load does not re-clamp the current round: a snapshot can bring in a current
      round beyond the round count. */
  lemma LoadMayExceedRounds(before: Game)
    ensures var r := LoadState(before, Some(Snapshot(Some([]), Some(5), Some(9), None, Some([]))));
            r.currentRound > r.rounds
  {
  }

  /** A live player object: during rendering `ensureScoreEntry` updates its score sheet in place. */
  class PlayerRecord {
    const id: PlayerId
    var name: string
    var scores: Scores

    /** The player's value. */
    function Value(): Player
      reads this
    {
      Player(id, name, scores)
    }

    constructor (p: Player)
      ensures Value() == p
    {
      id, name, scores := p.id, p.name, p.scores;
    }

    /** `ensureScoreEntry(player, round)`: inserts a zero entry when the round has none and
        returns the round's entry. */
    method EnsureScoreEntry(round: int) returns (entry: RoundScore)
      modifies this
      ensures scores == EnsuredScores(old(scores), round)
      ensures name == old(name)
      ensures entry == scores[round] && entry == EntryOf(old(scores), round)
    {
      if round !in scores {
        scores := scores[round := ZeroEntry];
      }
      entry := scores[round];
    }
  }
}

/** The browser front end (`app.js`): one global state object whose fields the event handlers
    update in place, modelled as a class with a method per handler. */
module BrowserApp {
  import opened Wrappers
  import opened Scoring
  import opened GameData

  /** A saved snapshot after parsing: `JSON.stringify(state)` writes these keys; each may be missing. */
  datatype Snapshot = Snapshot(
    players: Option<seq<Player>>,
    rounds: Option<int>,
    currentRound: Option<int>,
    cards: Option<seq<Card>>)

  /** The persisted part of the state. */
  datatype Persisted = Persisted(players: seq<Player>, rounds: int, currentRound: int, cards: seq<Card>)

  /** The score entry a focused bonus input writes to: that player's entry for the round the
      input was rendered for. */
  datatype BonusTarget = BonusTarget(playerId: PlayerId, round: int)

  /** The initial `rounds`, and the round count used when the count field reads as 0 or NaN. */
  const DefaultRounds := 10

  /** The `loadState` decode. Nothing stored or an unparsable value (None), or a snapshot without
      `players` or `cards`, keeps the current state; otherwise the snapshot is adopted, a missing
      `rounds` keeping the current count and a missing `currentRound` becoming 1. */
  function Decode(current: Persisted, saved: Option<Snapshot>): (r: Persisted)
    ensures saved.None? ==> r == current
    ensures saved.Some? && (saved.value.players.None? || saved.value.cards.None?) ==> r == current
    ensures saved.Some? && saved.value.players.Some? && saved.value.cards.Some? ==>
              && r.players == saved.value.players.value
              && r.cards == saved.value.cards.value
              && (saved.value.rounds.None? ==> r.rounds == current.rounds)
              && (saved.value.rounds.Some? ==> r.rounds == saved.value.rounds.value)
              && (saved.value.currentRound.None? ==> r.currentRound == 1)
              && (saved.value.currentRound.Some? ==> r.currentRound == saved.value.currentRound.value)
  {
    match saved
    case None => current
    case Some(s) =>
      if s.players.Some? && s.cards.Some? then
        Persisted(s.players.value, s.rounds.GetOr(current.rounds), s.currentRound.GetOr(1), s.cards.value)
      else current
  }

  /** What `saveState` writes. */
  function Encode(p: Persisted): (s: Snapshot)
    ensures s.players == Some(p.players) && s.cards == Some(p.cards)
    ensures s.rounds == Some(p.rounds) && s.currentRound == Some(p.currentRound)
  {
    Snapshot(Some(p.players), Some(p.rounds), Some(p.currentRound), Some(p.cards))
  }

  /** A confirmed reset followed by its `renderAll` leaves each player of a roster with distinct
      ids with a zero round-1 entry, so every total is 10, not 0. */
  lemma ResetThenRender(ps: seq<Player>)
    requires DistinctIds(ps)
    ensures forall i :: 0 <= i < |ps| ==>
              RenderedRoster(ClearedScores(ps), 1)[i].scores == map[1 := ZeroEntry] &&
              TotalScore(RenderedRoster(ClearedScores(ps), 1)[i].scores) == 10
  {
    ClearedScoresDistinct(ps);
    RenderedRosterDistinct(ClearedScores(ps), 1);
    ClearedThenRendered(ps, 1);
  }

  /** Loading what was saved restores it, whatever the state before the load. */
  lemma DecodeEncode(current: Persisted, p: Persisted)
    ensures Decode(current, Some(Encode(p))) == p
  {
  }

  /** The roster with player `i`'s entry for `round` set to `e`; everything else as it was. */
  function WithEntry(ps: seq<Player>, i: nat, round: int, e: RoundScore): (r: seq<Player>)
    requires i < |ps|
    ensures |r| == |ps|
    ensures forall j :: 0 <= j < |ps| && j != i ==> r[j] == ps[j]
    ensures r[i].id == ps[i].id && r[i].name == ps[i].name && r[i].scores == ps[i].scores[round := e]
  {
    ps[i := ps[i].(scores := ps[i].scores[round := e])]
  }

  /** The global `state` together with `activeBonusInput`. */
  class ScoreKeeper {
    var players: seq<Player>
    var rounds: int
    var currentRound: int
    var cards: seq<Card>
    var activeBonus: Option<BonusTarget>

    /** The part of the state that `saveState` writes. */
    function Saved(): Persisted
      reads this
    {
      Persisted(players, rounds, currentRound, cards)
    }

    /** A crew of 2 to 8 with distinct ids and a current round within the round count. */
    ghost predicate WellFormed()
      reads this
    {
      && MinPlayers <= |players| <= MaxPlayers
      && DistinctIds(players)
      && 1 <= currentRound <= rounds
    }

    /** The initial `state`, with three fresh ids for the default crew. */
    constructor (a: PlayerId, b: PlayerId, c: PlayerId)
      requires a != b && a != c && b != c
      ensures WellFormed()
      ensures players == [Player(a, "Capitaine Anne", map[]), Player(b, "Barbe Noire", map[]), Player(c, "Mousse Jack", map[])]
      ensures rounds == DefaultRounds && currentRound == 1 && cards == DefaultCards && activeBonus == None
    {
      players := [Player(a, "Capitaine Anne", map[]), Player(b, "Barbe Noire", map[]), Player(c, "Mousse Jack", map[])];
      rounds := DefaultRounds;
      currentRound := 1;
      cards := DefaultCards;
      activeBonus := None;
    }

    /** `loadState()`. */
    method LoadState(saved: Option<Snapshot>)
      modifies this
      ensures Saved() == Decode(old(Saved()), saved)
      ensures activeBonus == old(activeBonus)
    {
      var p := Decode(Saved(), saved);
      players, rounds, currentRound, cards := p.players, p.rounds, p.currentRound, p.cards;
    }

    /** The clamp after loading: a current round beyond the round count is lowered to it. */
    method ClampCurrentRound()
      modifies this`currentRound
      ensures currentRound <= rounds
      ensures old(currentRound) <= rounds ==> currentRound == old(currentRound)
      ensures old(currentRound) > rounds ==> currentRound == rounds
    {
      if currentRound > rounds {
        currentRound := rounds;
      }
    }

    /** Start-up: load, then clamp the current round, so that it never exceeds the count. */
    method Start(saved: Option<Snapshot>)
      modifies this
      ensures currentRound <= rounds
      ensures Saved() == var d := Decode(old(Saved()), saved);
                         d.(currentRound := if d.currentRound > d.rounds then d.rounds else d.currentRound)
      ensures activeBonus == old(activeBonus)
    {
      LoadState(saved);
      ClampCurrentRound();
    }

    /** `ensureScoreEntry(playerId, round)`: the first player with the id gets a zero entry for
        the round when it has none; the round's entry is returned. An unknown id is a crash in
        the source, so it is excluded. */
    method EnsureScoreEntry(playerId: PlayerId, round: int) returns (entry: RoundScore)
      requires HasId(players, playerId)
      modifies this`players
      ensures var i := FindPlayer(old(players), playerId).value;
              && |players| == |old(players)|
              && (forall j :: 0 <= j < |players| && j != i ==> players[j] == old(players)[j])
              && players[i] == old(players)[i].(scores := EnsuredScores(old(players)[i].scores, round))
              && entry == EntryOf(old(players)[i].scores, round)
      ensures round in players[FindPlayer(old(players), playerId).value].scores
      ensures players == EnsuredFor(old(players), playerId, round)
      ensures SameIdsAs(old(players))
    {
      var i := FindPlayer(players, playerId).value;
      var p := players[i];
      if round !in p.scores {
        players := players[i := p.(scores := p.scores[round := ZeroEntry])];
      }
      entry := players[i].scores[round];
    }

    /** The entries `renderScoreboard` creates: `ensureScoreEntry(player.id, currentRound)` for
        each player in turn. The rest of the render only draws. */
    method RenderScoreboard()
      modifies this`players
      ensures players == RenderedRoster(old(players), currentRound)
      ensures old(WellFormed()) ==> WellFormed()
    {
      ghost var ps := players;
      var k := 0;
      while k < |players|
        invariant RenderedUpTo(players, ps, currentRound, k)
      {
        RenderStep(players, ps, currentRound, k);
        assert players[k] == ps[k];
        var _ := EnsureScoreEntry(players[k].id, currentRound);
        k := k + 1;
      }
      assert players == RenderedRoster(ps, currentRound);
      if old(WellFormed()) {
        RenderedRosterKeepsDistinct(ps, currentRound);
      }
    }

    /** The roster lists the same ids as `ps`, in the same order. */
    ghost predicate SameIdsAs(ps: seq<Player>)
      reads this
    {
      SameIds(ps, players)
    }

    /** The bid field's handler: the current-round bid becomes the entered number clamped to
        [0, currentRound]; the tricks and bonus of that entry, and every other entry, are kept. */
    method SetBid(playerId: PlayerId, parsed: Option<int>)
      requires HasId(players, playerId)
      modifies this`players
      ensures var i := FindPlayer(old(players), playerId).value;
              players == WithEntry(old(players), i, currentRound,
                                   EntryOf(old(players)[i].scores, currentRound).(bid := ClampNumber(parsed, 0, currentRound)))
      ensures currentRound >= 0 ==>
                var i := FindPlayer(old(players), playerId).value;
                0 <= players[i].scores[currentRound].bid <= currentRound
      ensures SameIdsAs(old(players))
    {
      var i := FindPlayer(players, playerId).value;
      var entry := EnsureScoreEntry(playerId, currentRound);
      ghost var p := old(players)[i];
      assert EnsuredScores(p.scores, currentRound)[currentRound := entry.(bid := ClampNumber(parsed, 0, currentRound))]
          == p.scores[currentRound := entry.(bid := ClampNumber(parsed, 0, currentRound))];
      players := WithEntry(players, i, currentRound, entry.(bid := ClampNumber(parsed, 0, currentRound)));
    }

    /** The tricks field's handler, clamped like the bid. */
    method SetTricks(playerId: PlayerId, parsed: Option<int>)
      requires HasId(players, playerId)
      modifies this`players
      ensures var i := FindPlayer(old(players), playerId).value;
              players == WithEntry(old(players), i, currentRound,
                                   EntryOf(old(players)[i].scores, currentRound).(tricks := ClampNumber(parsed, 0, currentRound)))
      ensures currentRound >= 0 ==>
                var i := FindPlayer(old(players), playerId).value;
                0 <= players[i].scores[currentRound].tricks <= currentRound
      ensures SameIdsAs(old(players))
    {
      var i := FindPlayer(players, playerId).value;
      var entry := EnsureScoreEntry(playerId, currentRound);
      ghost var p := old(players)[i];
      assert EnsuredScores(p.scores, currentRound)[currentRound := entry.(tricks := ClampNumber(parsed, 0, currentRound))]
          == p.scores[currentRound := entry.(tricks := ClampNumber(parsed, 0, currentRound))];
      players := WithEntry(players, i, currentRound, entry.(tricks := ClampNumber(parsed, 0, currentRound)));
    }

    /** The bonus field's handler: `Number(value) || 0`, unbounded. */
    method SetBonus(playerId: PlayerId, parsed: Option<int>)
      requires HasId(players, playerId)
      modifies this`players
      ensures var i := FindPlayer(old(players), playerId).value;
              players == WithEntry(old(players), i, currentRound,
                                   EntryOf(old(players)[i].scores, currentRound).(bonus := NumberOr(parsed, 0)))
      ensures SameIdsAs(old(players))
    {
      var i := FindPlayer(players, playerId).value;
      var entry := EnsureScoreEntry(playerId, currentRound);
      ghost var p := old(players)[i];
      assert EnsuredScores(p.scores, currentRound)[currentRound := entry.(bonus := NumberOr(parsed, 0))]
          == p.scores[currentRound := entry.(bonus := NumberOr(parsed, 0))];
      players := WithEntry(players, i, currentRound, entry.(bonus := NumberOr(parsed, 0)));
    }

    /** Focusing a bonus input makes its entry (that player, the current round) the target. */
    method FocusBonus(playerId: PlayerId)
      modifies this`activeBonus
      ensures activeBonus == Some(BonusTarget(playerId, currentRound))
    {
      activeBonus := Some(BonusTarget(playerId, currentRound));
    }

    /** A bonus-card click. Without a focused bonus input nothing changes; nor when the focused
        input's entry has left the state. Otherwise the target entry's bonus becomes its current
        value plus the card's value. */
    method ApplyBonusCard(card: Card)
      modifies this`players
      ensures activeBonus.None? ==> players == old(players)
      ensures activeBonus.Some? && !HasId(old(players), activeBonus.value.playerId) ==> players == old(players)
      ensures activeBonus.Some? && HasId(old(players), activeBonus.value.playerId) ==>
                var t := activeBonus.value;
                var i := FindPlayer(old(players), t.playerId).value;
                var e := EntryOf(old(players)[i].scores, t.round);
                players == WithEntry(old(players), i, t.round, e.(bonus := e.bonus + card.value))
      ensures SameIdsAs(old(players))
    {
      if activeBonus.None? {
        return;
      }
      var t := activeBonus.value;
      if !HasId(players, t.playerId) {
        return;
      }
      var i := FindPlayer(players, t.playerId).value;
      var e := EntryOf(players[i].scores, t.round);
      players := WithEntry(players, i, t.round, e.(bonus := e.bonus + card.value));
    }

    /** The name field's handler on the player of row `index`: an emptied name becomes the
        placeholder. */
    method Rename(index: nat, text: string)
      requires index < |players|
      modifies this`players
      ensures players == old(players)[index := old(players)[index].(name := NameOrMystery(text))]
      ensures SameIdsAs(old(players))
    {
      players := players[index := players[index].(name := NameOrMystery(text))];
    }

    /** A card-value field's handler: `card.value = Number(value) || 0` on the card at `index`. */
    method EditCardValue(index: nat, parsed: Option<int>)
      requires index < |cards|
      modifies this`cards
      ensures cards == old(cards)[index := old(cards)[index].(value := NumberOr(parsed, 0))]
    {
      cards := cards[index := cards[index].(value := NumberOr(parsed, 0))];
    }

    /** The add-player button: refused with nothing changed at 8 players or more; otherwise one
        player with no scores is pushed and the others are untouched. */
    method AddPlayer(freshId: PlayerId) returns (added: bool)
      requires !HasId(players, freshId)
      modifies this`players
      ensures added <==> |old(players)| < MaxPlayers
      ensures !added ==> players == old(players)
      ensures added ==> players == old(players) + [NewPlayer(freshId, |old(players)|)]
      ensures old(WellFormed()) ==> WellFormed()
    {
      if |players| >= MaxPlayers {
        added := false;
        return;
      }
      players := players + [NewPlayer(freshId, |players|)];
      added := true;
    }

    /** A remove button: offered only above 2 players. Drops the players with the id, keeping the
        rest in order; a bonus input of the removed player no longer reaches the state. */
    method RemovePlayer(id: PlayerId)
      requires |players| > MinPlayers
      modifies this`players, this`activeBonus
      ensures players == WithoutPlayer(old(players), id)
      ensures activeBonus == if old(activeBonus).Some? && old(activeBonus).value.playerId == id then None else old(activeBonus)
      ensures old(WellFormed()) ==> WellFormed()
    {
      if DistinctIds(players) {
        WithoutPlayerLength(players, id);
        WithoutPlayerDistinct(players, id);
      }
      players := WithoutPlayer(players, id);
      if activeBonus.Some? && activeBonus.value.playerId == id {
        activeBonus := None;
      }
    }

    /** The reset button, once confirmed: every player's scores are emptied in turn, ids and names
        kept, and the game goes back to round 1. The focused bonus input's old entry is gone. */
    method Reset(confirmed: bool)
      modifies this`players, this`currentRound, this`activeBonus
      ensures !confirmed ==> players == old(players) && currentRound == old(currentRound) && activeBonus == old(activeBonus)
      ensures confirmed ==> players == ClearedScores(old(players)) && currentRound == 1 && activeBonus == None
      ensures old(WellFormed()) ==> WellFormed()
    {
      if !confirmed {
        return;
      }
      var i := 0;
      while i < |players|
        invariant 0 <= i <= |players| == |old(players)|
        invariant forall j :: 0 <= j < i ==> players[j] == old(players)[j].(scores := map[])
        invariant forall j :: i <= j < |players| ==> players[j] == old(players)[j]
      {
        players := players[i := players[i].(scores := map[])];
        i := i + 1;
      }
      currentRound := 1;
      activeBonus := None;
      if old(WellFormed()) {
        ClearedScoresDistinct(old(players));
      }
    }

    /** The round selector: `Number(value) || 1`, so NaN selects round 1. */
    method SelectRound(parsed: Option<int>)
      modifies this`currentRound
      ensures currentRound == NumberOr(parsed, 1)
      ensures parsed.None? ==> currentRound == 1
      ensures old(WellFormed()) && 1 <= currentRound <= rounds ==> WellFormed()
    {
      currentRound := NumberOr(parsed, 1);
    }

    /** The round-count selector: `Number(value) || 10`, then a current round beyond the count is
        lowered to it. */
    method SetRoundCount(parsed: Option<int>)
      modifies this`rounds, this`currentRound
      ensures rounds == NumberOr(parsed, DefaultRounds)
      ensures currentRound <= rounds
      ensures old(currentRound) <= rounds ==> currentRound == old(currentRound)
      ensures old(currentRound) > rounds ==> currentRound == rounds
      ensures old(WellFormed()) && rounds >= 1 ==> WellFormed()
    {
      rounds := NumberOr(parsed, DefaultRounds);
      if currentRound > rounds {
        currentRound := rounds;
      }
    }
  }
}

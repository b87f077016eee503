/** Entities shared by both front ends: players with their score sheets, bonus cards, and the
    helpers both use on them (lazy score entries, find by id, filter by id, default names). */
module GameData {
  import opened Wrappers
  import opened Scoring

  /** Player ids are opaque strings (`crypto.randomUUID()`). */
  type PlayerId = string

  datatype Player = Player(id: PlayerId, name: string, scores: Scores)

  /** A bonus card (`caption` is the source's `label`, a reserved word here). */
  datatype Card = Card(id: string, caption: string, description: string, value: int, group: string)

  /** `MAX_PLAYERS`. */
  const MaxPlayers := 8

  /** Removing a player is not possible at this many players or fewer. */
  const MinPlayers := 2

  /** The name a player gets when its name field is cleared. */
  const MysteryName := "Pirate myst\U{e8}re"

  /** `Number(text) || fallback`: NaN (None) and 0 both give the fallback. */
  function NumberOr(parsed: Option<int>, fallback: int): (r: int)
    ensures parsed.None? ==> r == fallback
    ensures parsed.Some? && parsed.value != 0 ==> r == parsed.value
    ensures parsed == Some(0) ==> r == fallback
  {
    match parsed
    case None => fallback
    case Some(v) => if v == 0 then fallback else v
  }

  /** `text || 'Pirate mystère'`: an empty name is replaced by the placeholder. */
  function NameOrMystery(text: string): (r: string)
    ensures r != ""
    ensures text != "" ==> r == text
  {
    if text == "" then MysteryName else text
  }

  /** The score sheet after `ensureScoreEntry(player, round)`: a zero entry is created only when
      the round has none; an existing entry and every other round are left as they are. */
  function EnsuredScores(scores: Scores, round: int): (r: Scores)
    ensures round in r
    ensures round in scores ==> r == scores
    ensures round !in scores ==> r[round] == ZeroEntry
    ensures r.Keys == scores.Keys + {round}
    ensures forall k :: k in scores ==> r[k] == scores[k]
  {
    if round in scores then scores else scores[round := ZeroEntry]
  }

  /** The entry `ensureScoreEntry` returns. */
  function EntryOf(scores: Scores, round: int): (e: RoundScore)
    ensures round in scores ==> e == scores[round]
    ensures round !in scores ==> e == ZeroEntry
  {
    EnsuredScores(scores, round)[round]
  }

  /** A second `ensureScoreEntry` for the same round changes nothing and returns the same entry. */
  lemma EnsuredScoresIdempotent(scores: Scores, round: int)
    ensures EnsuredScores(EnsuredScores(scores, round), round) == EnsuredScores(scores, round)
    ensures EntryOf(EnsuredScores(scores, round), round) == EntryOf(scores, round)
  {
  }

  /** Creating a zero entry raises the total by ten times the round number; an existing entry
      leaves it as it was. */
  lemma EnsuredScoresTotal(scores: Scores, round: int)
    ensures TotalScore(EnsuredScores(scores, round)) ==
            TotalScore(scores) + (if round in scores then 0 else round * 10)
  {
    if round !in scores {
      TotalScoreUpdate(scores, round, ZeroEntry);
    }
  }

  /** No two players share an id (fresh ids are drawn from `crypto.randomUUID()`). */
  predicate DistinctIds(ps: seq<Player>) {
    forall i, j :: 0 <= i < j < |ps| ==> ps[i].id != ps[j].id
  }

  /** Some player has this id. */
  predicate HasId(ps: seq<Player>, id: PlayerId) {
    exists i :: 0 <= i < |ps| && ps[i].id == id
  }

  /** `players.find((p) => p.id === id)`, as the index of the first player with that id. */
  function FindPlayer(ps: seq<Player>, id: PlayerId): (r: Option<nat>)
    ensures r.Some? ==> r.value < |ps| && ps[r.value].id == id
    ensures r.Some? ==> forall j :: 0 <= j < r.value ==> ps[j].id != id
    ensures r.None? <==> !HasId(ps, id)
  {
    if ps == [] then None
    else if ps[0].id == id then Some(0)
    else
      match FindPlayer(ps[1..], id)
      case None =>
        assert forall j :: 1 <= j < |ps| ==> ps[j].id == ps[1..][j - 1].id;
        None
      case Some(i) => Some(i + 1)
  }

  /** `players.filter((p) => p.id !== id)`. */
  function WithoutPlayer(ps: seq<Player>, id: PlayerId): (r: seq<Player>)
    ensures |r| <= |ps|
    ensures forall i :: 0 <= i < |r| ==> r[i].id != id
  {
    if ps == [] then []
    else (if ps[0].id == id then [] else [ps[0]]) + WithoutPlayer(ps[1..], id)
  }

  /** The filter keeps exactly the players whose id differs. */
  lemma {:induction false} WithoutPlayerMembers(ps: seq<Player>, id: PlayerId, p: Player)
    ensures p in WithoutPlayer(ps, id) <==> p in ps && p.id != id
  {
    if ps != [] {
      WithoutPlayerMembers(ps[1..], id, p);
      assert p in ps <==> p == ps[0] || p in ps[1..];
    }
  }

  /** Filtering distributes over concatenation, so the players kept stay in their order. */
  lemma {:induction false} WithoutPlayerAppend(a: seq<Player>, b: seq<Player>, id: PlayerId)
    ensures WithoutPlayer(a + b, id) == WithoutPlayer(a, id) + WithoutPlayer(b, id)
  {
    if a == [] {
      assert a + b == b;
    } else {
      assert (a + b)[1..] == a[1..] + b;
      WithoutPlayerAppend(a[1..], b, id);
    }
  }

  /** When no player has the id, the filter keeps everyone. */
  lemma {:induction false} WithoutAbsentPlayer(ps: seq<Player>, id: PlayerId)
    requires !HasId(ps, id)
    ensures WithoutPlayer(ps, id) == ps
  {
    if ps != [] {
      assert !HasId(ps[1..], id) by {
        forall i | 0 <= i < |ps[1..]| ensures ps[1..][i].id != id {
          assert ps[1..][i] == ps[i + 1];
        }
      }
      WithoutAbsentPlayer(ps[1..], id);
    }
  }

  /** Removing the one player with this id leaves the others, in order. */
  lemma {:induction false} WithoutOnePlayer(a: seq<Player>, p: Player, b: seq<Player>)
    requires !HasId(a, p.id) && !HasId(b, p.id)
    ensures WithoutPlayer(a + [p] + b, p.id) == a + b
  {
    WithoutPlayerAppend(a + [p], b, p.id);
    WithoutPlayerAppend(a, [p], p.id);
    WithoutAbsentPlayer(a, p.id);
    WithoutAbsentPlayer(b, p.id);
    assert WithoutPlayer([p], p.id) == [];
  }

  /** Whether a non-empty roster has an id is decided by its head and its tail. */
  lemma HasIdCons(ps: seq<Player>, id: PlayerId)
    requires ps != []
    ensures HasId(ps, id) <==> ps[0].id == id || HasId(ps[1..], id)
  {
    if HasId(ps, id) && ps[0].id != id {
      var i :| 0 <= i < |ps| && ps[i].id == id;
      assert ps[1..][i - 1].id == id;
    }
    if HasId(ps[1..], id) {
      var i :| 0 <= i < |ps[1..]| && ps[1..][i].id == id;
      assert ps[i + 1].id == id;
    }
  }

  /** The tail of a roster with distinct ids has distinct ids, none equal to the head's. */
  lemma DistinctTail(ps: seq<Player>)
    requires ps != [] && DistinctIds(ps)
    ensures DistinctIds(ps[1..]) && !HasId(ps[1..], ps[0].id)
  {
    var tail := ps[1..];
    forall i, j | 0 <= i < j < |tail| ensures tail[i].id != tail[j].id {
      assert tail[i] == ps[i + 1] && tail[j] == ps[j + 1];
    }
    forall i | 0 <= i < |tail| ensures tail[i].id != ps[0].id {
      assert tail[i] == ps[i + 1];
    }
  }

  /** With distinct ids the filter removes exactly the player that has the id, if any. */
  lemma {:induction false} WithoutPlayerLength(ps: seq<Player>, id: PlayerId)
    requires DistinctIds(ps)
    ensures |WithoutPlayer(ps, id)| == if HasId(ps, id) then |ps| - 1 else |ps|
  {
    if ps != [] {
      DistinctTail(ps);
      HasIdCons(ps, id);
      WithoutPlayerLength(ps[1..], id);
      if ps[0].id == id {
        WithoutAbsentPlayer(ps[1..], id);
      }
    }
  }

  /** The filter keeps ids distinct. */
  lemma {:induction false} WithoutPlayerDistinct(ps: seq<Player>, id: PlayerId)
    requires DistinctIds(ps)
    ensures DistinctIds(WithoutPlayer(ps, id))
  {
    if ps != [] {
      var tail := ps[1..];
      DistinctTail(ps);
      WithoutPlayerDistinct(tail, id);
      if ps[0].id != id {
        var rt := WithoutPlayer(tail, id);
        var r := [ps[0]] + rt;
        forall i, j | 0 <= i < j < |r| ensures r[i].id != r[j].id {
          if i == 0 {
            var q := rt[j - 1];
            WithoutPlayerMembers(tail, id, q);
            var k :| 0 <= k < |tail| && tail[k] == q;
          } else {
            assert r[i] == rt[i - 1] && r[j] == rt[j - 1];
          }
        }
      }
    }
  }

  /** Every player's scores emptied, ids and names kept (the reset's player update). */
  function ClearedScores(ps: seq<Player>): (r: seq<Player>)
    ensures |r| == |ps|
    ensures forall i :: 0 <= i < |ps| ==> r[i].id == ps[i].id && r[i].name == ps[i].name
    ensures forall i :: 0 <= i < |ps| ==> r[i].scores == map[]
  {
    seq(|ps|, i requires 0 <= i < |ps| => ps[i].(scores := map[]))
  }

  /** Clearing keeps the ids distinct. */
  lemma ClearedScoresDistinct(ps: seq<Player>)
    requires DistinctIds(ps)
    ensures DistinctIds(ClearedScores(ps))
  {
  }

  /** Two rosters that list the same ids in the same order. */
  ghost predicate SameIds(ps: seq<Player>, qs: seq<Player>) {
    |ps| == |qs| && forall i :: 0 <= i < |ps| ==> ps[i].id == qs[i].id
  }

  lemma SameIdsDistinct(ps: seq<Player>, qs: seq<Player>)
    requires SameIds(ps, qs)
    ensures DistinctIds(ps) ==> DistinctIds(qs)
  {
  }

  /** With distinct ids, `find` by a player's own id reaches that player. */
  lemma FindOwnId(ps: seq<Player>, i: int)
    requires DistinctIds(ps) && 0 <= i < |ps|
    ensures FindPlayer(ps, ps[i].id) == Some(i)
  {
    assert HasId(ps, ps[i].id);
  }

  /** `find` looks only at the ids. */
  lemma {:induction false} FindPlayerSameIds(ps: seq<Player>, qs: seq<Player>, id: PlayerId)
    requires SameIds(ps, qs)
    ensures FindPlayer(ps, id) == FindPlayer(qs, id)
  {
    if ps != [] && ps[0].id != id {
      FindPlayerSameIds(ps[1..], qs[1..], id);
    }
  }

  /** The browser render's effect on the roster: `ensureScoreEntry(player.id, round)` for each
      player in turn, which reaches the first player with each id and no other. */
  function RenderedRoster(ps: seq<Player>, round: int): (r: seq<Player>)
    ensures |r| == |ps|
    ensures forall i :: 0 <= i < |ps| ==> r[i].id == ps[i].id && r[i].name == ps[i].name
    ensures forall i :: 0 <= i < |ps| ==>
              r[i].scores == if FindPlayer(ps, ps[i].id) == Some(i)
                             then EnsuredScores(ps[i].scores, round) else ps[i].scores
  {
    seq(|ps|, i requires 0 <= i < |ps| =>
      if FindPlayer(ps, ps[i].id) == Some(i) then ps[i].(scores := EnsuredScores(ps[i].scores, round))
      else ps[i])
  }

  /** `ensureScoreEntry(id, round)` on a roster: the first player with the id gets its ensured
      sheet. */
  function EnsuredFor(ps: seq<Player>, id: PlayerId, round: int): (r: seq<Player>)
    requires HasId(ps, id)
    ensures |r| == |ps|
  {
    var i := FindPlayer(ps, id).value;
    ps[i := ps[i].(scores := EnsuredScores(ps[i].scores, round))]
  }

  /** The roster after the render has reached the first `k` players. */
  ghost predicate RenderedUpTo(cur: seq<Player>, ps: seq<Player>, round: int, k: int) {
    && 0 <= k <= |ps| == |cur|
    && forall j :: 0 <= j < |ps| ==> cur[j] == if j < k then RenderedRoster(ps, round)[j] else ps[j]
  }

  /** One step of the render: ensuring the next player's id reaches the first player with that
      id, which is either that player or one already rendered. */
  lemma RenderStep(cur: seq<Player>, ps: seq<Player>, round: int, k: int)
    requires RenderedUpTo(cur, ps, round, k) && k < |ps|
    ensures HasId(cur, ps[k].id)
    ensures RenderedUpTo(EnsuredFor(cur, ps[k].id, round), ps, round, k + 1)
  {
    var id := ps[k].id;
    assert cur[k] == ps[k];
    FindPlayerSameIds(cur, ps, id);
    var f := FindPlayer(ps, id).value;
    var rendered := RenderedRoster(ps, round);
    assert rendered[f] == ps[f].(scores := EnsuredScores(ps[f].scores, round));
    EnsuredScoresIdempotent(ps[f].scores, round);
    var next := EnsuredFor(cur, id, round);
    assert next == cur[f := cur[f].(scores := EnsuredScores(cur[f].scores, round))];
    assert next[f] == rendered[f];
    forall j | 0 <= j < |ps|
      ensures next[j] == if j < k + 1 then rendered[j] else ps[j]
    {
      if j != f {
        assert next[j] == cur[j];
        if j == k {
          assert rendered[j].scores == ps[j].scores;
        }
      }
    }
  }

  /** The browser render keeps the ids distinct. */
  lemma RenderedRosterKeepsDistinct(ps: seq<Player>, round: int)
    requires DistinctIds(ps)
    ensures DistinctIds(RenderedRoster(ps, round))
  {
  }

  /** The mobile render's effect: `ensureScoreEntry(player, round)` on every player object. */
  function EnsuredRoster(ps: seq<Player>, round: int): (r: seq<Player>)
    ensures |r| == |ps|
    ensures forall i :: 0 <= i < |ps| ==> r[i].id == ps[i].id && r[i].name == ps[i].name
    ensures forall i :: 0 <= i < |ps| ==> r[i].scores == EnsuredScores(ps[i].scores, round)
  {
    seq(|ps|, i requires 0 <= i < |ps| => ps[i].(scores := EnsuredScores(ps[i].scores, round)))
  }

  /** With distinct ids the two renders agree: every player gets an entry for the round. */
  lemma RenderedRosterDistinct(ps: seq<Player>, round: int)
    requires DistinctIds(ps)
    ensures RenderedRoster(ps, round) == EnsuredRoster(ps, round)
  {
    forall i | 0 <= i < |ps| ensures RenderedRoster(ps, round)[i] == EnsuredRoster(ps, round)[i] {
      FindOwnId(ps, i);
    }
  }

  /** Rendering again changes nothing. */
  lemma EnsuredRosterIdempotent(ps: seq<Player>, round: int)
    ensures EnsuredRoster(EnsuredRoster(ps, round), round) == EnsuredRoster(ps, round)
  {
    forall i | 0 <= i < |ps|
      ensures EnsuredRoster(EnsuredRoster(ps, round), round)[i] == EnsuredRoster(ps, round)[i]
    {
      EnsuredScoresIdempotent(ps[i].scores, round);
    }
  }

  /** A render right after clearing the sheets leaves every player with one zero entry, for the
      current round, and so a total of ten times that round. */
  lemma ClearedThenRendered(ps: seq<Player>, round: int)
    ensures forall i :: 0 <= i < |ps| ==>
              EnsuredRoster(ClearedScores(ps), round)[i].scores == map[round := ZeroEntry] &&
              TotalScore(EnsuredRoster(ClearedScores(ps), round)[i].scores) == round * 10
  {
    EnsuredScoresTotal(map[], round);
    assert EnsuredScores(map[], round) == map[round := ZeroEntry];
  }

  function Digit(d: int): (c: char)
    requires 0 <= d < 10
    ensures '0' <= c <= '9' && DigitValue(c) == d
  {
    "0123456789"[d]
  }

  /** The number a digit character stands for. */
  function DigitValue(c: char): int {
    c as int - '0' as int
  }

  /** The number a string of decimal digits denotes, most significant digit first. */
  function DigitsValue(s: string): int {
    if s == [] then 0 else DigitsValue(s[..|s| - 1]) * 10 + DigitValue(s[|s| - 1])
  }

  /** The decimal digits of `n`, as template-string interpolation writes them: no leading zero
      except for `0` itself. */
  function DecimalString(n: nat): (s: string)
    ensures |s| >= 1
    ensures forall i :: 0 <= i < |s| ==> '0' <= s[i] <= '9'
    ensures |s| > 1 ==> s[0] != '0'
    ensures n < 10 ==> s == [Digit(n)]
  {
    if n < 10 then [Digit(n)] else DecimalString(n / 10) + [Digit(n % 10)]
  }

  /** The digits written for `n` denote `n`. */
  lemma {:induction false} DecimalStringValue(n: nat)
    ensures DigitsValue(DecimalString(n)) == n
  {
    if n >= 10 {
      var s := DecimalString(n);
      assert s[..|s| - 1] == DecimalString(n / 10);
      DecimalStringValue(n / 10);
    }
  }

  /** Different numbers are written differently. */
  lemma DecimalStringInjective(m: nat, n: nat)
    requires DecimalString(m) == DecimalString(n)
    ensures m == n
  {
    DecimalStringValue(m);
    DecimalStringValue(n);
  }

  /** `Pirate ${n}`, the name of a newly added player. */
  function PirateName(n: nat): (s: string)
    ensures |s| > 7 && s[..7] == "Pirate " && s[7..] == DecimalString(n)
  {
    "Pirate " + DecimalString(n)
  }

  /** A newly added player: the given fresh id, the next default name, no scores. */
  function NewPlayer(freshId: PlayerId, count: nat): (p: Player)
    ensures p.id == freshId && p.scores == map[]
    ensures p.name == PirateName(count + 1)
  {
    Player(freshId, PirateName(count + 1), map[])
  }

  /** `defaultCards`: the built-in bonus catalogue. */
  const DefaultCards: seq<Card> := [
    Card("pirate", "Pirate captur\U{e9}", "Bonus pour chaque pirate gagn\U{e9}", 20, "Base"),
    Card("mermaid", "Sir\U{e8}ne victorieuse", "Bonus si la sir\U{e8}ne bat le Skull King", 50, "Base"),
    Card("skull-king", "Skull King captur\U{e9}", "Bonus par Skull King gagn\U{e9}", 30, "Base"),
    Card("tigress-pirate", "Tigresse (mode pirate)", "Bonus si la Tigresse est jou\U{e9}e comme pirate", 20, "Base"),
    Card("tigress-escape", "Tigresse (mode fuite)", "Petit bonus si la Tigresse est jou\U{e9}e en fuite", 10, "Base"),
    Card("kraken", "Kraken", "Carte d'extension: annule la lev\U{e9}e, ajustez selon vos r\U{e8}gles.", 0, "Extension"),
    Card("whale", "Baleine", "Carte d'extension: bonus selon vos variantes.", 10, "Extension"),
    Card("white-whale", "Baleine blanche", "Carte d'extension: effets sp\U{e9}ciaux, bonus personnalisable.", 20, "Extension"),
    Card("loot", "Butin", "Carte d'extension: ajoutez un bonus maison.", 10, "Extension")
  ]

  /** The card-value edit: every card with this id gets the value `Number(text) || 0`; the rest
      of the catalogue is untouched. */
  function SetCardValue(cards: seq<Card>, cardId: string, text: Option<int>): (r: seq<Card>)
    ensures |r| == |cards|
    ensures forall i :: 0 <= i < |cards| && cards[i].id != cardId ==> r[i] == cards[i]
    ensures forall i :: 0 <= i < |cards| && cards[i].id == cardId ==>
              r[i].value == NumberOr(text, 0) && r[i].(value := cards[i].value) == cards[i]
  {
    seq(|cards|, i requires 0 <= i < |cards| =>
      if cards[i].id == cardId then cards[i].(value := NumberOr(text, 0)) else cards[i])
  }
}

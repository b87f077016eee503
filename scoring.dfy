/** The scoring engine shared verbatim by both front ends: input clamping, the score of one
    round, and a player's running total. */
module Scoring {
  import opened Wrappers

  /** One player's entry for one round. */
  datatype RoundScore = RoundScore(bid: int, tricks: int, bonus: int)

  /** The entry a round gets the first time it is touched. */
  const ZeroEntry := RoundScore(0, 0, 0)

  /** A player's score sheet: round number to entry. */
  type Scores = map<int, RoundScore>

  function Abs(x: int): (r: int)
    ensures r >= 0 && (r == x || r == -x)
  {
    if x < 0 then -x else x
  }

  /** `clampNumber(value, min, max)`: `parsed` is what `parseInt(value, 10)` gives, `None` for NaN.
      NaN gives `min`; otherwise the value is raised to `min`, then lowered to `max`. */
  function ClampNumber(parsed: Option<int>, min: int, max: int): (r: int)
    ensures parsed.None? ==> r == min
    ensures min <= max ==> min <= r <= max
    ensures parsed.Some? && min <= parsed.value <= max ==> r == parsed.value
    ensures parsed.Some? && min <= max && parsed.value < min ==> r == min
    ensures parsed.Some? && parsed.value > max ==> r == max
    ensures parsed.Some? && max < min ==> r == max
  {
    match parsed
    case None => min
    case Some(v) =>
      var raised := if v < min then min else v;
      if raised < max then raised else max
  }

  /** A round is won exactly when the tricks taken equal the bid (for a nil bid: no tricks). */
  predicate BidMade(s: RoundScore) {
    s.bid == s.tricks
  }

  /** What is at stake in a round, won or lost: ten per round number on a nil bid, twenty per
      trick on a made bid, ten per trick of difference on a missed one. */
  function Stake(s: RoundScore, roundNumber: int): int {
    if s.bid == 0 then roundNumber * 10
    else if BidMade(s) then s.bid * 20
    else Abs(s.bid - s.tricks) * 10
  }

  /** `calculateRoundScore(roundScore, roundNumber)`: the round number is the stake multiplier
      of a nil bid. The score is the bonus plus the stake when the bid is made, the bonus minus
      the stake when it is not. Total over all integers. */
  function CalculateRoundScore(s: RoundScore, roundNumber: int): (r: int)
    ensures BidMade(s) ==> r == s.bonus + Stake(s, roundNumber)
    ensures !BidMade(s) ==> r == s.bonus - Stake(s, roundNumber)
  {
    if s.bid == 0 then
      var value := roundNumber * 10;
      if s.tricks == 0 then value + s.bonus else -value + s.bonus
    else if s.bid == s.tricks then
      s.bid * 20 + s.bonus
    else
      -Abs(s.bid - s.tricks) * 10 + s.bonus
  }

  /** The nil-bid rows of the scoring rule. */
  lemma NilBidScore(s: RoundScore, n: int)
    requires s.bid == 0
    ensures s.tricks == 0 ==> CalculateRoundScore(s, n) == n * 10 + s.bonus
    ensures s.tricks != 0 ==> CalculateRoundScore(s, n) == -(n * 10) + s.bonus
  {
  }

  /** The non-nil rows of the scoring rule; the round number plays no part in them. */
  lemma NonNilBidScore(s: RoundScore, n: int, m: int)
    requires s.bid != 0
    ensures s.bid == s.tricks ==> CalculateRoundScore(s, n) == s.bid * 20 + s.bonus
    ensures s.bid != s.tricks ==> CalculateRoundScore(s, n) == -Abs(s.bid - s.tricks) * 10 + s.bonus
    ensures CalculateRoundScore(s, n) == CalculateRoundScore(s, m)
  {
  }

  /** With the bid and tricks a player can enter (non-negative) and a round number of at least 1,
      the score exceeds the bonus exactly when the bid is made. */
  lemma ScoreBeatsBonusIffMade(s: RoundScore, n: int)
    requires n >= 1 && s.bid >= 0
    ensures CalculateRoundScore(s, n) > s.bonus <==> BidMade(s)
  {
  }

  /** The bonus is added on top of the bid-and-tricks score, whatever it is. */
  lemma BonusIsAdditive(s: RoundScore, n: int, b: int)
    ensures CalculateRoundScore(s.(bonus := b), n) == CalculateRoundScore(s.(bonus := 0), n) + b
  {
  }

  /** The worked examples of the scoring rule. */
  lemma ScoreExamples()
    ensures CalculateRoundScore(RoundScore(0, 0, 0), 1) == 10
    ensures CalculateRoundScore(RoundScore(0, 1, 0), 1) == -10
    ensures CalculateRoundScore(RoundScore(3, 3, 20), 5) == 80
    ensures CalculateRoundScore(RoundScore(3, 1, 0), 5) == -20
  {
  }

  /** A finite set of round numbers with some element has a least element. */
  lemma {:induction false} LeastExists(s: set<int>)
    requires exists x :: x in s
    ensures exists k :: k in s && forall j :: j in s ==> k <= j
    decreases |s|
  {
    var x :| x in s;
    if exists y :: y in s && y != x {
      var rest := s - {x};
      var y :| y in s && y != x;
      assert y in rest;
      LeastExists(rest);
      var k :| k in rest && forall j :: j in rest ==> k <= j;
      var least := if x < k then x else k;
      forall j | j in s ensures least <= j {
        if j != x { assert j in rest; }
      }
      assert least in s;
    } else {
      assert forall j :: j in s ==> x <= j;
    }
  }

  /** The least round number on a score sheet with some entry. */
  function FirstRound(m: Scores): (k: int)
    requires exists j :: j in m
    ensures k in m && forall j :: j in m ==> k <= j
  {
    LeastExists(m.Keys);
    var k :| k in m.Keys && forall j :: j in m.Keys ==> k <= j;
    k
  }

  /** `totalScore(player)`: the sum of every entry's round score, the round number (the key) as
      the stake multiplier. `Object.entries` lists non-negative integer keys in ascending
      order, and so does this definition; ReduceIsOrderFree shows the order does not matter. */
  function TotalScore(m: Scores): (r: int)
    ensures m == map[] ==> r == 0
    decreases |m|
  {
    if exists j :: j in m then
      var k := FirstRound(m);
      assert |m - {k}| == |m| - 1 by { assert (m - {k}).Keys == m.Keys - {k}; }
      CalculateRoundScore(m[k], k) + TotalScore(m - {k})
    else 0
  }

  /** Any one round can be taken out of the total first: the total does not depend on which
      entry is added when. */
  lemma {:induction false} TotalScoreRemove(m: Scores, k: int)
    requires k in m
    ensures TotalScore(m) == CalculateRoundScore(m[k], k) + TotalScore(m - {k})
    decreases |m|
  {
    var f := FirstRound(m);
    if f != k {
      var rest := m - {f};
      assert |rest| == |m| - 1 by { assert rest.Keys == m.Keys - {f}; }
      TotalScoreRemove(rest, k);
      var both := rest - {k};
      assert both == (m - {k}) - {f};
      assert f in m - {k};
      assert FirstRound(m - {k}) == f;
    }
  }

  /** Replacing or adding the entry of one round moves the total by exactly the change in that
      round's score. */
  lemma TotalScoreUpdate(m: Scores, k: int, e: RoundScore)
    ensures TotalScore(m[k := e]) ==
            TotalScore(m) - (if k in m then CalculateRoundScore(m[k], k) else 0) + CalculateRoundScore(e, k)
  {
    TotalScoreRemove(m[k := e], k);
    assert m[k := e] - {k} == m - {k};
    if k in m {
      TotalScoreRemove(m, k);
    } else {
      assert m - {k} == m;
    }
  }

  /** `Object.entries(scores).reduce((total, [round, entry]) => total + score, 0)` over one
      particular listing of the entries. */
  function ReduceEntries(es: seq<(int, RoundScore)>): (r: int)
    ensures es == [] ==> r == 0
  {
    if es == [] then 0
    else ReduceEntries(es[..|es| - 1]) + CalculateRoundScore(es[|es| - 1].1, es[|es| - 1].0)
  }

  /** The reduce over two listings one after the other is the sum of the two reduces. */
  lemma {:induction false} ReduceEntriesAppend(a: seq<(int, RoundScore)>, b: seq<(int, RoundScore)>)
    ensures ReduceEntries(a + b) == ReduceEntries(a) + ReduceEntries(b)
  {
    if b == [] {
      assert a + b == a;
    } else {
      var n := |b| - 1;
      assert (a + b)[..|a + b| - 1] == a + b[..n];
      ReduceEntriesAppend(a, b[..n]);
    }
  }

  /** The score sheet a listing of entries describes. */
  function ListedSheet(es: seq<(int, RoundScore)>): Scores {
    if es == [] then map[] else ListedSheet(es[..|es| - 1])[es[|es| - 1].0 := es[|es| - 1].1]
  }

  /** No round is listed twice. */
  predicate DistinctRounds(es: seq<(int, RoundScore)>) {
    forall i, j :: 0 <= i < j < |es| ==> es[i].0 != es[j].0
  }

  /** A round is on the described sheet exactly when the listing has it. */
  lemma {:induction false} ListedRounds(es: seq<(int, RoundScore)>, k: int)
    ensures k in ListedSheet(es) <==> exists i :: 0 <= i < |es| && es[i].0 == k
  {
    if es != [] {
      var n := |es| - 1;
      ListedRounds(es[..n], k);
      if k in ListedSheet(es[..n]) {
        var i :| 0 <= i < n && es[..n][i].0 == k;
        assert es[i].0 == k;
      }
      if exists i :: 0 <= i < |es| && es[i].0 == k {
        var i :| 0 <= i < |es| && es[i].0 == k;
        if i < n { assert es[..n][i].0 == k; }
      }
    }
  }

  /** A listing of the entries of `m` of the kind `Object.entries` gives: each round once. */
  ghost predicate EnumeratesEntries(es: seq<(int, RoundScore)>, m: Scores) {
    DistinctRounds(es) && ListedSheet(es) == m
  }

  /** Summing the entries in any order gives the total. */
  lemma {:induction false} ReduceIsOrderFree(es: seq<(int, RoundScore)>, m: Scores)
    requires EnumeratesEntries(es, m)
    ensures ReduceEntries(es) == TotalScore(m)
  {
    if es != [] {
      var n := |es| - 1;
      var k := es[n].0;
      var init := es[..n];
      var rest := ListedSheet(init);
      assert DistinctRounds(init) by {
        forall i, j | 0 <= i < j < |init| ensures init[i].0 != init[j].0 {
          assert init[i] == es[i] && init[j] == es[j];
        }
      }
      assert k !in rest by {
        ListedRounds(init, k);
        forall i | 0 <= i < |init| ensures init[i].0 != k {
          assert init[i] == es[i];
        }
      }
      ReduceIsOrderFree(init, rest);
      TotalScoreRemove(m, k);
      assert m - {k} == rest;
    }
  }

  /** Two listings of the same score sheet reduce to the same total. */
  lemma ReduceAgreesAcrossOrders(es1: seq<(int, RoundScore)>, es2: seq<(int, RoundScore)>, m: Scores)
    requires EnumeratesEntries(es1, m) && EnumeratesEntries(es2, m)
    ensures ReduceEntries(es1) == ReduceEntries(es2)
  {
    ReduceIsOrderFree(es1, m);
    ReduceIsOrderFree(es2, m);
  }
}

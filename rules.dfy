/**
 * The arithmetic of the Urnings rule engine (Game_Type.py) on plain values:
 * score proposals with and without stakes, the Metropolis correction and the
 * acceptance probability, the second-order, urn-size and stake rules, the
 * rejection sampler of `draw_rule` and the candidate choice of the paired
 * update. The class GameTypes.GameType applies these rules to the entities it
 * changes in place.
 */
module GameRules {
  import opened Numerics
  import opened Bins

  /** `alg_type`. */
  datatype AlgType = Urnings1 | Urnings2

  /** `adaptivity`: "n_adaptive" or "adaptive". */
  datatype Adaptivity = NonAdaptive | Adaptive

  /** `adaptive_urn_type`; NoUrnType stands for None. */
  datatype UrnType =
    | NoUrnType
    | Permutation
    | SecondOrderUrnings
    | StakesPermutation
    | StakesSecondOrderUrnings
    | FixedStakes

  /** The pair of proposed scores (player, item) an updating rule returns. */
  datatype Proposal = Proposal(player: int, item: int)

  /** An urn: `score` green balls out of `size`. */
  datatype Urn = Urn(score: int, size: int)

  /** The two range checks of the updating rules, in the source's order: cap at `size`, then floor at 0. */
  function Clamp(x: int, size: int): (r: int)
    ensures 0 <= r
    ensures 0 <= size ==> r <= size
    ensures 0 <= x <= size ==> r == x
    ensures 0 <= size < x ==> r == size
    ensures x < 0 ==> r == 0
  {
    var capped := if x > size then size else x;
    if capped < 0 then 0 else capped
  }

  /**
   * `updating_rule` for "one_dim": the player gains `result - expected` balls,
   * the item the opposite amount, each proposal kept inside its urn.
   */
  function UpdatingRule(playerScore: int, playerUrn: int, itemScore: int, itemUrn: int,
                        result: Bit, expected: Bit): (r: Proposal)
    ensures 0 <= r.player && (0 <= playerUrn ==> r.player <= playerUrn)
    ensures 0 <= r.item && (0 <= itemUrn ==> r.item <= itemUrn)
    ensures 0 <= playerScore + result - expected <= playerUrn ==> r.player == playerScore + result - expected
    ensures 0 <= itemScore - (result - expected) <= itemUrn ==> r.item == itemScore - (result - expected)
    ensures result == expected && 0 <= playerScore <= playerUrn && 0 <= itemScore <= itemUrn
            ==> r == Proposal(playerScore, itemScore)
  {
    Proposal(Clamp(playerScore + result - expected, playerUrn),
             Clamp(itemScore + (1 - result) - (1 - expected), itemUrn))
  }

  /** Within valid urns a proposal moves each score by at most one ball, the player and the item in opposite directions. */
  lemma UpdatingRuleMovesOneBall(playerScore: int, playerUrn: int, itemScore: int, itemUrn: int,
                                 result: Bit, expected: Bit)
    requires 0 <= playerScore <= playerUrn && 0 <= itemScore <= itemUrn
    ensures var r := UpdatingRule(playerScore, playerUrn, itemScore, itemUrn, result, expected);
      -1 <= r.player - playerScore <= 1 && -1 <= r.item - itemScore <= 1 &&
      (r.player - playerScore) * (result - expected) >= 0 &&
      (r.item - itemScore) * (result - expected) <= 0
  {
  }

  /** True when `score ± stake` leaves [0, size]. */
  predicate OutOfBounds(score: int, size: int, stake: int)
  {
    score + stake > size || score - stake < 0
  }

  /**
   * `updating_with_stakes`: when the full stake fits both urns the player
   * moves by `stake·(result − expected)` and the item by the opposite amount;
   * otherwise both fall back to the unstaked rule.
   */
  function UpdatingWithStakes(playerScore: int, playerUrn: int, itemScore: int, itemUrn: int,
                              result: Bit, expected: Bit, stake: int): (r: Proposal)
    ensures 0 <= r.player && (0 <= playerUrn ==> r.player <= playerUrn)
    ensures 0 <= r.item && (0 <= itemUrn ==> r.item <= itemUrn)
    ensures OutOfBounds(playerScore, playerUrn, stake) || OutOfBounds(itemScore, itemUrn, stake)
            ==> r == UpdatingRule(playerScore, playerUrn, itemScore, itemUrn, result, expected)
    ensures !OutOfBounds(playerScore, playerUrn, stake) && !OutOfBounds(itemScore, itemUrn, stake) && 0 <= stake
            ==> r == Proposal(playerScore + stake * (result - expected), itemScore - stake * (result - expected))
  {
    if OutOfBounds(playerScore, playerUrn, stake) || OutOfBounds(itemScore, itemUrn, stake) then
      UpdatingRule(playerScore, playerUrn, itemScore, itemUrn, result, expected)
    else
      assert 0 <= stake ==> -stake <= stake * (result - expected) <= stake;
      Proposal(Clamp(playerScore + stake * (result - expected), playerUrn),
               Clamp(itemScore + stake * ((1 - result) - (1 - expected)), itemUrn))
  }

  /**
   * The weight `a·(na − b) + (nb − a)·b` of a (player, item) configuration in
   * the Urnings1 correction: player score a of na, item score b of nb.
   */
  function PairWeight(a: int, na: int, b: int, nb: int): int
  {
    a * (na - b) + (nb - a) * b
  }

  /**
   * `metropolis_correction`: 1 under Urnings2; under Urnings1 the ratio of the
   * current configuration's weight to the proposed one's. None stands for the
   * ZeroDivisionError Python raises when the proposed weight is 0.
   */
  function MetropolisCorrection(alg: AlgType, playerScore: int, playerUrn: int, itemScore: int, itemUrn: int,
                                playerProposal: int, itemProposal: int): (r: Option<real>)
    ensures alg == Urnings2 ==> r == Some(1.0)
    ensures alg == Urnings1 ==> (r.None? <==> PairWeight(playerProposal, playerUrn, itemProposal, itemUrn) == 0)
    ensures alg == Urnings1 && r.Some? ==>
      r.value * PairWeight(playerProposal, playerUrn, itemProposal, itemUrn) as real
        == PairWeight(playerScore, playerUrn, itemScore, itemUrn) as real
  {
    match alg
    case Urnings2 => Some(1.0)
    case Urnings1 =>
      var before := PairWeight(playerScore, playerUrn, itemScore, itemUrn);
      var after := PairWeight(playerProposal, playerUrn, itemProposal, itemUrn);
      if after == 0 then None else Some(before as real / after as real)
  }

  /** A proposal that keeps both scores gives a correction of exactly 1 when the weight is not 0. */
  lemma MetropolisNoOp(alg: AlgType, playerScore: int, playerUrn: int, itemScore: int, itemUrn: int)
    requires PairWeight(playerScore, playerUrn, itemScore, itemUrn) != 0
    ensures MetropolisCorrection(alg, playerScore, playerUrn, itemScore, itemUrn, playerScore, itemScore) == Some(1.0)
  {
    var w := PairWeight(playerScore, playerUrn, itemScore, itemUrn) as real;
    assert w / w == 1.0;
  }

  /**
   * With both urns of size n, the Urnings1 weight of a valid configuration is
   * never negative, and it is 0 (the correction divides by zero) exactly when
   * both urns are empty or both are full.
   */
  lemma {:induction false} PairWeightZero(a: int, b: int, n: int)
    requires 0 < n && 0 <= a <= n && 0 <= b <= n
    ensures PairWeight(a, n, b, n) >= 0
    ensures PairWeight(a, n, b, n) == 0 <==> (a == 0 && b == 0) || (a == n && b == n)
  {
    var left, right := a * (n - b), (n - a) * b;
    NonNegativeProduct(a, n - b);
    NonNegativeProduct(n - a, b);
    if left == 0 && right == 0 {
      ZeroProduct(a, n - b);
      ZeroProduct(n - a, b);
    }
  }

  lemma NonNegativeProduct(x: int, y: int)
    requires 0 <= x && 0 <= y
    ensures 0 <= x * y
  {
  }

  lemma ZeroProduct(x: int, y: int)
    requires x * y == 0
    ensures x == 0 || y == 0
  {
  }

  /**
   * `acceptance = min(1, metropolis · adaptivity)` of urnings_game, where a
   * Metropolis correction that raised (None) has been replaced by 1. An
   * undefined adaptivity factor (None) stands for numpy's inf or nan, and
   * Python's `min(1, inf)` and `min(1, nan)` are both 1.
   */
  function Acceptance(metropolis: Option<real>, adaptivity: Option<real>): (a: real)
    ensures a <= 1.0
    ensures adaptivity.None? ==> a == 1.0
    ensures adaptivity.Some? ==> a <= (if metropolis.Some? then metropolis.value else 1.0) * adaptivity.value
    ensures adaptivity.Some? ==>
      a == 1.0 || a == (if metropolis.Some? then metropolis.value else 1.0) * adaptivity.value
  {
    if adaptivity.None? then 1.0
    else
      var corrector := if metropolis.Some? then metropolis.value else 1.0;
      var product := corrector * adaptivity.value;
      if product < 1.0 then product else 1.0
  }

  /**
   * A correction that raised does not reject on its own: with an adaptivity
   * factor of at least 1, or an undefined one, every uniform draw accepts.
   */
  lemma CaughtDivisionAccepts(adaptivity: Option<real>, u: real)
    requires (adaptivity.None? || adaptivity.value >= 1.0) && u < 1.0
    ensures u < Acceptance(None, adaptivity)
  {
  }

  /** The clamping of a score difference into {-1, 0, 1} in urnings_game. */
  function ClampDiff(d: int): (r: int)
    ensures -1 <= r <= 1
    ensures r == 0 <==> d == 0
    ensures r > 0 <==> d > 0
    ensures -1 <= d <= 1 ==> r == d
  {
    if d > 1 then 1 else if d < -1 then -1 else d
  }

  /**
   * The stake rule of "stakes_permutation" in calculate_stakes: once the
   * difference history holds a full window, a significant test resets the stake
   * to `maxStakes`, otherwise a stake other than 1 is halved (rounded down).
   */
  function PermutationStake(stake: int, historyLength: int, window: int, significant: bool, maxStakes: int): (r: int)
    ensures historyLength < window ==> r == stake
    ensures historyLength >= window && significant ==> r == maxStakes
    ensures historyLength >= window && !significant && stake >= 1 ==> (r == 1 && stake == 1) || 2 * r <= stake < 2 * r + 2
    ensures 1 <= stake && 1 <= maxStakes ==> 1 <= r
    ensures 1 <= stake && !significant ==> r <= stake
  {
    if historyLength >= window then
      if significant then maxStakes
      else if stake != 1 then TruncDiv(stake, 2)
      else stake
    else stake
  }

  /** A history of `n` records has just completed a window: it is a non-empty multiple of `window` long. */
  predicate AtWindow(n: int, window: int)
    requires window > 0
  {
    n >= window && n % window == 0
  }

  /**
   * The stake rule of "stakes_second_order_urnings" in calculate_stakes: every
   * `window` second-order records, unanimous control draws reset a stake above
   * `minStakes` to `maxStakes`; otherwise a stake other than 1 drops by one.
   */
  function SecondOrderStake(stake: int, soHistoryLength: int, window: int, unanimous: bool,
                             minStakes: int, maxStakes: int): (r: int)
    requires window > 0
    ensures !AtWindow(soHistoryLength, window) ==> r == stake
    ensures AtWindow(soHistoryLength, window) && unanimous && stake > minStakes ==> r == maxStakes
    ensures AtWindow(soHistoryLength, window) && !(unanimous && stake > minStakes) && stake != 1 ==> r == stake - 1
    ensures AtWindow(soHistoryLength, window) && !(unanimous && stake > minStakes) && stake == 1 ==> r == 1
    ensures 1 <= stake && 1 <= maxStakes ==> 1 <= r
  {
    if AtWindow(soHistoryLength, window) then
      if unanimous && stake > minStakes then maxStakes
      else if stake != 1 then stake - 1
      else stake
    else stake
  }

  /**
   * `second_order_urnings`: a decrease of the main score counts as no change;
   * the second-order score gains the difference and loses the expected draw.
   */
  function SecondOrderStep(soScore: int, playerDiff: int, expected: Bit): (r: int)
    ensures -1 <= playerDiff <= 1 ==> soScore - 1 <= r <= soScore + 1
    ensures -1 <= playerDiff <= 0 ==> r == soScore - expected
    ensures playerDiff == 1 ==> r == soScore + 1 - expected
  {
    var soDiff := if playerDiff == -1 then 0 else playerDiff;
    soScore + soDiff - expected
  }

  /**
   * When the expected value is a Bernoulli(soScore/soUrn) draw, the
   * second-order score never leaves [0, soUrn].
   */
  lemma SecondOrderStaysInUrn(soScore: int, soUrn: int, playerDiff: int, u: real)
    requires 0 < soUrn && 0 <= soScore <= soUrn && -1 <= playerDiff <= 1 && 0.0 <= u < 1.0
    ensures 0 <= SecondOrderStep(soScore, playerDiff, Bernoulli(Ratio(soScore, soUrn), u)) <= soUrn
  {
    var expected := Bernoulli(Ratio(soScore, soUrn), u);
    if expected == 1 {
      assert soScore != 0;
    } else {
      assert soScore != soUrn;
    }
  }

  /**
   * The shrink of the urn-size rules: the urn becomes `minUrn` balls and the
   * score is `round(score / (size / minUrn))`, rounded half to even, so the
   * estimate moves by at most half a ball of the new urn.
   */
  function Shrink(score: int, size: int, minUrn: int): (u: Urn)
    requires size > 0 && minUrn > 0
    ensures u.size == minUrn
    ensures 0 <= score <= size ==> 0 <= u.score <= minUrn
    ensures size * (2 * u.score - 1) <= 2 * (score * minUrn) <= size * (2 * u.score + 1)
  {
    ShrinkInRange(score, size, minUrn);
    Urn(RoundHalfEven(score * minUrn, size), minUrn)
  }

  lemma ShrinkInRange(score: int, size: int, minUrn: int)
    requires size > 0 && minUrn > 0
    ensures 0 <= score <= size ==> 0 <= RoundHalfEven(score * minUrn, size) <= minUrn
  {
    if 0 <= score <= size {
      PositiveFactor(minUrn, score, size);
      assert score * minUrn <= minUrn * size;
      RoundHalfEvenBetween(score * minUrn, size, minUrn);
    }
  }

  /** The grow of the urn-size rules: score and size both double, the estimate is exactly kept. */
  function Grow(score: int, size: int): (u: Urn)
    ensures u.size == 2 * size
    ensures size != 0 ==> Ratio(u.score, u.size) == Ratio(score, size)
    ensures 0 <= score <= size ==> 0 <= u.score <= u.size
  {
    Urn(2 * score, 2 * size)
  }

  /** The sum of the last `window` entries of a history. */
  function WindowSum(history: seq<int>, window: nat): int
    requires window <= |history|
  {
    Sum(history[|history| - window..])
  }

  /**
   * The "permutation" branch of adaptive_urn_change. It acts only when the
   * difference history is a non-empty multiple of `window` long. Without the
   * permutation test a winning streak (window sum at least `bound`) shrinks a
   * urn above `minUrn`, else every `freqChange` records a urn below `maxUrn`
   * grows; with the test a significant result shrinks, else the urn grows
   * while below `maxUrn`.
   */
  function PermutationUrnChange(current: Urn, differentials: seq<int>, window: int, bound: int, freqChange: int,
                                minUrn: int, maxUrn: int, permutationTest: bool, significant: bool): (u: Urn)
    requires current.size > 0 && minUrn > 0 && window > 0 && (!permutationTest ==> freqChange > 0)
    ensures !AtWindow(|differentials|, window) ==> u == current
    ensures AtWindow(|differentials|, window) && !permutationTest ==>
      if WindowSum(differentials, window) >= bound && current.size > minUrn then
        u == Shrink(current.score, current.size, minUrn)
      else if |differentials| % freqChange == 0 && current.size < maxUrn then u == Grow(current.score, current.size)
      else u == current
    ensures AtWindow(|differentials|, window) && permutationTest ==>
      if significant then u == Shrink(current.score, current.size, minUrn)
      else if current.size < maxUrn then u == Grow(current.score, current.size)
      else u == current
    ensures u == current || u == Shrink(current.score, current.size, minUrn) || u == Grow(current.score, current.size)
    ensures 0 <= current.score <= current.size ==> 0 <= u.score <= u.size && 0 < u.size
  {
    var n := |differentials|;
    if AtWindow(n, window) then
      if !permutationTest then
        if WindowSum(differentials, window) >= bound && current.size > minUrn then
          Shrink(current.score, current.size, minUrn)
        else if n % freqChange == 0 && current.size < maxUrn then
          Grow(current.score, current.size)
        else current
      else if significant then
        Shrink(current.score, current.size, minUrn)
      else if current.size < maxUrn then
        Grow(current.score, current.size)
      else current
    else current
  }

  /**
   * A winning streak of four on a 40-ball urn with `minUrn` 10 (window 4,
   * bound 4, a history of eight records) rescales the score by a factor 4,
   * rounding halves to even: 30 becomes 8 and 26 becomes 6.
   */
  lemma WinStreakShrinksByFour()
    ensures PermutationUrnChange(Urn(30, 40), [0, 0, 1, 0, 1, 1, 1, 1], 4, 4, 10, 10, 80, false, false) == Urn(8, 10)
    ensures PermutationUrnChange(Urn(26, 40), [0, 0, 1, 0, 1, 1, 1, 1], 4, 4, 10, 10, 80, false, false) == Urn(6, 10)
  {
    assert [0, 0, 1, 0, 1, 1, 1, 1][4..] == [1, 1, 1, 1];
    assert Sum([1, 1, 1, 1]) == 4 by {
      assert [1, 1, 1, 1][..3] == [1, 1, 1];
      assert [1, 1, 1][..2] == [1, 1];
      assert [1, 1][..1] == [1];
      assert [1][..0] == [];
    }
    RoundHalfEvenUnique(300, 40, 8);
    RoundHalfEvenUnique(260, 40, 6);
  }

  /**
   * The "second_order_urnings" branch of adaptive_urn_change. Every `window`
   * second-order records, unanimous control draws shrink a urn whose last
   * recorded size exceeds `minUrn`; otherwise a urn whose last recorded size is
   * below `maxUrn` becomes twice that size, with the score doubled.
   */
  function SecondOrderUrnChange(current: Urn, lastUrn: int, soHistoryLength: int, window: int, unanimous: bool,
                                minUrn: int, maxUrn: int): (u: Urn)
    requires current.size > 0 && minUrn > 0 && window > 0
    ensures !AtWindow(soHistoryLength, window) ==> u == current
    ensures AtWindow(soHistoryLength, window) && unanimous && lastUrn > minUrn ==>
      u == Shrink(current.score, current.size, minUrn)
    ensures AtWindow(soHistoryLength, window) && !(unanimous && lastUrn > minUrn) && lastUrn < maxUrn ==>
      u.score == 2 * current.score && u.size == 2 * lastUrn
    ensures AtWindow(soHistoryLength, window) && !(unanimous && lastUrn > minUrn) && lastUrn >= maxUrn ==>
      u == current
    ensures lastUrn == current.size ==>
      u == current || u == Shrink(current.score, current.size, minUrn) || u == Grow(current.score, current.size)
    ensures 0 <= current.score <= current.size && lastUrn == current.size ==> 0 <= u.score <= u.size && 0 < u.size
  {
    if AtWindow(soHistoryLength, window) then
      if unanimous && lastUrn > minUrn then Shrink(current.score, current.size, minUrn)
      else if lastUrn < maxUrn then Urn(2 * current.score, 2 * lastUrn)
      else current
    else current
  }

  /**
   * The rejection loop of draw_rule, `while a == b (and the budget lasts):
   * a, b = draw(p), draw(q)`, run on a finite stream of uniform pairs. Some(x):
   * the loop stopped with the player's value x. None: the stream ran out first
   * (the source would go on drawing).
   */
  function DrawUntilDiffer(p: real, q: real, a: int, b: int, draws: seq<(real, real)>, budget: Option<nat>)
    : (r: Option<int>)
    ensures a != b || budget == Some(0) ==> r == Some(a)
    ensures r.None? ==> a == b && (budget.None? || |draws| < budget.value)
    ensures 0 <= a <= 1 && r.Some? ==> 0 <= r.value <= 1
    decreases |draws|
  {
    if a != b || budget == Some(0) then Some(a)
    else if draws == [] then None
    else
      DrawUntilDiffer(p, q, Bernoulli(p, draws[0].0), Bernoulli(q, draws[0].1), draws[1..],
                      if budget.Some? then Some(budget.value - 1) else None)
  }

  /** The number of leading pairs of the stream on which the two draws agree. */
  function Agreeing(p: real, q: real, draws: seq<(real, real)>): (k: nat)
    ensures k <= |draws|
    ensures forall j :: 0 <= j < k ==> Bernoulli(p, draws[j].0) == Bernoulli(q, draws[j].1)
    ensures k < |draws| ==> Bernoulli(p, draws[k].0) != Bernoulli(q, draws[k].1)
  {
    if draws == [] || Bernoulli(p, draws[0].0) != Bernoulli(q, draws[0].1) then 0
    else 1 + Agreeing(p, q, draws[1..])
  }

  /**
   * Without a budget, starting from equal values, the sampler returns exactly
   * when some pair of draws disagrees, and then returns the player's draw of
   * the first disagreeing pair; the item's draw there is the other bit.
   */
  lemma {:induction false} UncappedSample(p: real, q: real, a: int, draws: seq<(real, real)>)
    ensures var r := DrawUntilDiffer(p, q, a, a, draws, None);
      var k := Agreeing(p, q, draws);
      (r.Some? <==> k < |draws|) &&
      (r.Some? ==> r.value == Bernoulli(p, draws[k].0) && r.value == 1 - Bernoulli(q, draws[k].1))
    decreases |draws|
  {
    if draws != [] {
      var x, y := Bernoulli(p, draws[0].0), Bernoulli(q, draws[0].1);
      if x == y {
        UncappedSample(p, q, x, draws[1..]);
      }
    }
  }

  /**
   * With a budget of `cap` rounds (1000 in Urnings1), the sampler returns the
   * player's draw of the first disagreeing pair when it comes within the
   * budget; when the first `cap` pairs all agree it returns their last common
   * value, so the "expected" result then equals the item's draw.
   */
  lemma {:induction false} CappedSample(p: real, q: real, a: int, draws: seq<(real, real)>, cap: nat)
    requires cap > 0
    ensures var r := DrawUntilDiffer(p, q, a, a, draws, Some(cap));
      var k := Agreeing(p, q, draws);
      (k < |draws| && k < cap ==> r == Some(Bernoulli(p, draws[k].0))) &&
      (cap <= k ==> r == Some(Bernoulli(p, draws[cap - 1].0)) &&
                    Bernoulli(p, draws[cap - 1].0) == Bernoulli(q, draws[cap - 1].1)) &&
      (k == |draws| < cap ==> r.None?)
    decreases |draws|
  {
    if draws != [] {
      var x, y := Bernoulli(p, draws[0].0), Bernoulli(q, draws[0].1);
      if x == y && cap > 1 {
        CappedSample(p, q, x, draws[1..], cap - 1);
      }
    }
  }

  /** No queue entry is pending: `all(i == 0 for i in queue.values())`. */
  predicate AllZero(queue: map<string, int>)
  {
    forall id :: id in queue ==> queue[id] == 0
  }

  /**
   * `after` keeps the ids of `before` and differs from it in at most one
   * entry, which was either incremented or reset to 0.
   */
  predicate OneEntryChanged(before: map<string, int>, after: map<string, int>)
  {
    after == before ||
    exists id :: id in before && id in after && after == before[id := after[id]] &&
                 (after[id] == before[id] + 1 || after[id] == 0)
  }

  /** A one-entry change keeps the keys, and a queue of non-negative counts stays non-negative. */
  lemma OneEntryKeepsKeys(before: map<string, int>, after: map<string, int>)
    requires OneEntryChanged(before, after)
    ensures forall id :: id in after <==> id in before
    ensures (forall id :: id in before ==> before[id] >= 0) ==> forall id :: id in after ==> after[id] >= 0
  {
    if after != before {
      var id :| id in before && id in after && after == before[id := after[id]] &&
                (after[id] == before[id] + 1 || after[id] == 0);
    }
  }

  /**
   * The ids of `{k: v for k, v in queue.items() if v >= 1}` listed in the
   * queue's key order `order`.
   */
  function Candidates(order: seq<string>, queue: map<string, int>): (c: seq<string>)
    ensures forall id :: id in c <==> id in order && id in queue && queue[id] >= 1
    ensures |c| <= |order|
  {
    if order == [] then []
    else
      var m := |order| - 1;
      Candidates(order[..m], queue) + (if order[m] in queue && queue[order[m]] >= 1 then [order[m]] else [])
  }

  /** A queue over the roster ids with no negative count has a candidate as soon as it is not all zero. */
  lemma CandidatesExist(order: seq<string>, queue: map<string, int>)
    requires forall id :: id in queue <==> id in order
    requires forall id :: id in queue ==> queue[id] >= 0
    requires !AllZero(queue)
    ensures |Candidates(order, queue)| > 0
  {
    var id :| id in queue && queue[id] != 0;
    assert id in Candidates(order, queue);
  }

  /** The number of redraws after which the retry loop of paired_update gives up. */
  const RetryCap: nat := 100

  /**
   * The candidate the retry loop of paired_update settles on, from draw `k`
   * on: the first drawn candidate that is not blocked, or the candidate drawn
   * when the counter passes RetryCap, blocked or not.
   */
  function RetryChoice(candidates: seq<string>, picks: seq<real>, blocked: set<string>, k: nat): (c: string)
    requires |candidates| > 0 && k <= RetryCap + 1 && |picks| > RetryCap + 1
    requires forall j :: 0 <= j < |picks| ==> 0.0 <= picks[j] < 1.0
    ensures c in candidates
    decreases RetryCap + 1 - k
  {
    var drawn := candidates[PickIndex(picks[k], |candidates|)];
    if drawn !in blocked || k == RetryCap + 1 then drawn
    else RetryChoice(candidates, picks, blocked, k + 1)
  }

  /** The loop settles on a blocked candidate only when every draw, the first and all 101 redraws, was blocked. */
  lemma {:induction false} RetryBlockedOnlyAtCap(candidates: seq<string>, picks: seq<real>, blocked: set<string>, k: nat)
    requires |candidates| > 0 && k <= RetryCap + 1 && |picks| > RetryCap + 1
    requires forall j :: 0 <= j < |picks| ==> 0.0 <= picks[j] < 1.0
    requires RetryChoice(candidates, picks, blocked, k) in blocked
    ensures forall j :: k <= j <= RetryCap + 1 ==> candidates[PickIndex(picks[j], |candidates|)] in blocked
    decreases RetryCap + 1 - k
  {
    if k < RetryCap + 1 {
      RetryBlockedOnlyAtCap(candidates, picks, blocked, k + 1);
    }
  }

  /**
   * The bin counts adaptivity_correction builds for the proposed state: one
   * item leaves bin `from` and enters bin `to`; the total is unchanged.
   */
  function ProposedBinCounts(counts: seq<int>, from: nat, to: nat): (c: seq<int>)
    requires from < |counts| && to < |counts|
    ensures |c| == |counts|
    ensures Sum(c) == Sum(counts)
    ensures from == to ==> c == counts
    ensures from != to ==> c[from] == counts[from] - 1 && c[to] == counts[to] + 1
    ensures forall b :: 0 <= b < |c| && b != from && b != to ==> c[b] == counts[b]
  {
    var left := counts[from := counts[from] - 1];
    SumUpdate(counts, from, counts[from] - 1);
    SumUpdate(left, to, left[to] + 1);
    left[to := left[to] + 1]
  }

  /**
   * The selection weight of a whole roster, `sum(row * counts)`: bin b holds
   * `counts[b]` items, each of weight `row[b]`.
   */
  function WeightedTotal(row: seq<real>, counts: seq<int>): real
    requires |row| == |counts|
  {
    if row == [] then 0.0
    else WeightedTotal(row[..|row| - 1], counts[..|counts| - 1]) + row[|row| - 1] * counts[|counts| - 1] as real
  }

  /** Adding `k` items to bin `b` adds their weight, k · row[b], to the total. */
  lemma {:induction false} WeightedTotalShift(row: seq<real>, counts: seq<int>, b: nat, k: int)
    requires |row| == |counts| && b < |counts|
    ensures WeightedTotal(row, counts[b := counts[b] + k]) == WeightedTotal(row, counts) + row[b] * k as real
  {
    var n := |row| - 1;
    var shifted := counts[b := counts[b] + k];
    if b == n {
      assert shifted[..n] == counts[..n];
      assert row[n] * shifted[n] as real == row[n] * counts[n] as real + row[n] * k as real;
    } else {
      assert shifted[..n] == counts[..n][b := counts[..n][b] + k];
      WeightedTotalShift(row[..n], counts[..n], b, k);
    }
  }

  /** One item fewer in bin `b` takes its weight off the total. */
  lemma WeightedTotalRemove(row: seq<real>, counts: seq<int>, b: nat)
    requires |row| == |counts| && b < |counts|
    ensures WeightedTotal(row, counts[b := counts[b] - 1]) == WeightedTotal(row, counts) - row[b]
  {
    WeightedTotalShift(row, counts, b, -1);
    assert counts[b := counts[b] + -1] == counts[b := counts[b] - 1];
  }

  /** One item more in bin `b` adds its weight to the total. */
  lemma WeightedTotalAdd(row: seq<real>, counts: seq<int>, b: nat)
    requires |row| == |counts| && b < |counts|
    ensures WeightedTotal(row, counts[b := counts[b] + 1]) == WeightedTotal(row, counts) + row[b]
  {
    WeightedTotalShift(row, counts, b, 1);
  }

  /** An item moving from bin `from` to bin `to` takes its weight along: the total loses row[from] and gains row[to]. */
  lemma MovedTotal(row: seq<real>, counts: seq<int>, from: nat, to: nat)
    requires |row| == |counts| && from < |counts| && to < |counts|
    ensures WeightedTotal(row, ProposedBinCounts(counts, from, to)) == WeightedTotal(row, counts) - row[from] + row[to]
  {
    var moved := ProposedBinCounts(counts, from, to);
    if from == to {
      assert moved == counts;
    } else {
      var left := counts[from := counts[from] - 1];
      assert moved == left[to := left[to] + 1];
      WeightedTotalRemove(row, counts, from);
      WeightedTotalAdd(row, left, to);
    }
  }

  /** `w / total` as numpy divides selection weights: None when the total is 0 (numpy gives inf or nan). */
  function Share(w: real, total: real): (r: Option<real>)
    ensures r.Some? <==> total != 0.0
  {
    if total == 0.0 then None else Some(w / total)
  }

  /** A share multiplied back by its total is the weight it was taken of. */
  lemma ShareTimesTotal(w: real, total: real)
    requires total != 0.0
    ensures Share(w, total).value * total == w
  {
  }

  /**
   * The probability that adaptive selection picks one given item of score
   * `score` for a player of scaled score `p`: the item's weight
   * `matrix[p][score]` as a share of the weight of the whole roster. None
   * when the indices fall outside the matrix or the roster weighs 0.
   */
  function SelectionProb(matrix: seq<seq<real>>, counts: seq<int>, p: int, score: int): (r: Option<real>)
    ensures r.Some? <==>
      0 <= p < |matrix| && |matrix[p]| == |counts| && 0 <= score < |counts| && WeightedTotal(matrix[p], counts) != 0.0
  {
    if 0 <= p < |matrix| && |matrix[p]| == |counts| && 0 <= score < |counts| then
      Share(matrix[p][score], WeightedTotal(matrix[p], counts))
    else None
  }

  /** A defined selection probability times the roster weight is the item's weight. */
  lemma SelectionProbTimesTotal(matrix: seq<seq<real>>, counts: seq<int>, p: int, score: int)
    requires SelectionProb(matrix, counts, p, score).Some?
    ensures 0 <= p < |matrix| && |matrix[p]| == |counts| && 0 <= score < |counts|
    ensures SelectionProb(matrix, counts, p, score).value * WeightedTotal(matrix[p], counts) == matrix[p][score]
  {
    ShareTimesTotal(matrix[p][score], WeightedTotal(matrix[p], counts));
  }

  /**
   * `adaptivity_correction` in adaptive mode: the probability of selecting
   * the item after the proposal (the player at scaled score `q`, the item
   * moved from bin `score` to bin `proposal`) as a share of the probability
   * before it (the player at scaled score `p`). None when either probability
   * is undefined or the current one is 0.
   */
  function SelectionRatio(matrix: seq<seq<real>>, counts: seq<int>, p: int, q: int, score: int, proposal: int)
    : (r: Option<real>)
    ensures r.Some? ==>
      0 <= score < |counts| && 0 <= proposal < |counts| &&
      SelectionProb(matrix, counts, p, score).Some? && SelectionProb(matrix, counts, p, score).value != 0.0 &&
      SelectionProb(matrix, ProposedBinCounts(counts, score, proposal), q, proposal).Some?
  {
    var current := SelectionProb(matrix, counts, p, score);
    if current.None? || !(0 <= score < |counts| && 0 <= proposal < |counts|) then None
    else
      var proposed := SelectionProb(matrix, ProposedBinCounts(counts, score, proposal), q, proposal);
      if proposed.None? then None else Share(proposed.value, current.value)
  }

  /** A proposal that moves neither the player's scaled score nor the item leaves the selection probability as it is. */
  lemma SelectionRatioStill(matrix: seq<seq<real>>, counts: seq<int>, p: int, score: int)
    requires SelectionProb(matrix, counts, p, score).Some? && SelectionProb(matrix, counts, p, score).value != 0.0
    ensures SelectionRatio(matrix, counts, p, p, score, score) == Some(1.0)
  {
    var c := SelectionProb(matrix, counts, p, score).value;
    assert ProposedBinCounts(counts, score, score) == counts;
    assert c / c == 1.0;
  }

  /**
   * With the player's scaled score `p` kept, the probability of the item
   * after it moves from bin `score` to bin `proposal` is its new weight as a
   * share of the roster weight with that one item moved,
   * T − row[score] + row[proposal].
   */
  lemma MovedSelectionProb(matrix: seq<seq<real>>, counts: seq<int>, p: int, score: int, proposal: int)
    requires 0 <= p < |matrix| && |matrix[p]| == |counts| && 0 <= score < |counts| && 0 <= proposal < |counts|
    ensures SelectionProb(matrix, ProposedBinCounts(counts, score, proposal), p, proposal) ==
      Share(matrix[p][proposal], WeightedTotal(matrix[p], counts) - matrix[p][score] + matrix[p][proposal])
  {
    MovedTotal(matrix[p], counts, score, proposal);
  }
}

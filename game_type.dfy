/**
 * The rule engine of the Urnings system (Game_Type.py) acting on entities in
 * place: the rejection sampler of `draw_rule`, the paired update of the item
 * queues, the second-order urn, the urn-size change and the stake rules. Every
 * method is stated against the value-level rule of module GameRules it applies.
 */
module GameTypes {
  import opened Numerics
  import opened Bins
  import opened GameRules
  import opened Agents

  /** The number of rounds the Urnings1 expected-value loop may draw. */
  const ExpectedBudget: nat := 1000

  /** The observed result and the expected result `draw_rule` returns. */
  datatype Sampled = Sampled(result: int, expected: int)

  /** The ids of a roster, in roster order (ids never change, so this reads nothing). */
  function Ids(items: seq<Player>): (ids: seq<string>)
    ensures |ids| == |items|
    ensures forall k :: 0 <= k < |items| ==> ids[k] == items[k].userId
  {
    seq(|items|, k requires 0 <= k < |items| => items[k].userId)
  }

  /** Whether a paired move in direction `down` (a decrement) or up can take a ball from or add a ball to this urn. */
  ghost predicate Movable(it: Player, down: bool)
    reads it`score, it`urnSize
  {
    if down then it.score > 0 else it.score < it.urnSize
  }

  /** The ids the retry loop of paired_update redraws on: no ball to take (down) or no room for one (up). */
  ghost function Blocked(items: seq<Player>, down: bool): set<string>
    reads items`score, items`urnSize
  {
    set k | 0 <= k < |items| && !Movable(items[k], down) :: items[k].userId
  }

  /**
   * Between two states the item with id `id` gained `delta` balls and has the
   * estimate of its new urn (when it moved), and every other item kept its
   * score and estimate.
   */
  twostate predicate ShiftedOne(items: seq<Player>, id: string, delta: int)
    reads items
  {
    forall k :: 0 <= k < |items| ==>
      items[k].score == old(items[k].score) + (if items[k].userId == id then delta else 0) &&
      items[k].urnSize != 0 &&
      items[k].est == (if items[k].userId == id && delta != 0 then Ratio(items[k].score, items[k].urnSize)
                       else old(items[k].est))
  }

  /**
   * Between two states every entity of the roster kept its score with its
   * estimate, or holds the estimate of its new score.
   */
  twostate predicate ScoresMoved(items: seq<Player>)
    reads items
  {
    forall k :: 0 <= k < |items| ==>
      ((items[k].score == old(items[k].score) && items[k].est == old(items[k].est)) ||
       (items[k].urnSize != 0 && items[k].est == Ratio(items[k].score, items[k].urnSize)))
  }

  /**
   * The queue-empty branch of one direction of paired_update: the changed
   * item joins the opposite queue `bump` and moves itself by `step` when its
   * urn allows it.
   */
  twostate predicate SelfSpec(item: Player, items: seq<Player>, down: bool, bump: map<string, int>,
                              newBump: map<string, int>)
    reads items, item
  {
    item.userId in bump && newBump == bump[item.userId := bump[item.userId] + 1] &&
    ShiftedOne(items, item.userId, if old(Movable(item, down)) then (if down then -1 else 1) else 0)
  }

  /**
   * The other branch: the candidate the retry loop settles on among the ids
   * waiting in `watch` leaves that queue and moves by `step`, blocked or not.
   */
  twostate predicate CandidateSpec(items: seq<Player>, down: bool, watch: map<string, int>, picks: seq<real>,
                                   newWatch: map<string, int>)
    reads items
    requires |picks| > RetryCap + 1 && forall j :: 0 <= j < |picks| ==> 0.0 <= picks[j] < 1.0
  {
    var candidates := Candidates(Ids(items), watch);
    |candidates| > 0 &&
    (var c := RetryChoice(candidates, picks, old(Blocked(items, down)), 0);
     newWatch == watch[c := 0] && ShiftedOne(items, c, if down then -1 else 1))
  }

  /**
   * One direction of paired_update. `watch` is the queue of items waiting for
   * a move in this direction, `bump` the opposite queue.
   */
  twostate predicate SideSpec(item: Player, items: seq<Player>, down: bool, watch: map<string, int>,
                              bump: map<string, int>, picks: seq<real>,
                              newWatch: map<string, int>, newBump: map<string, int>)
    reads items, item
    requires |picks| > RetryCap + 1 && forall j :: 0 <= j < |picks| ==> 0.0 <= picks[j] < 1.0
  {
    if AllZero(watch) then newWatch == watch && SelfSpec(item, items, down, bump, newBump)
    else newBump == bump && CandidateSpec(items, down, watch, picks, newWatch)
  }

  /** In a roster without repeated ids, an item's id is blocked exactly when the item is. */
  lemma BlockedHolds(items: seq<Player>, down: bool, j: nat)
    requires Distinct(Ids(items)) && j < |items|
    ensures items[j].userId in Blocked(items, down) <==> !Movable(items[j], down)
  {
    if items[j].userId in Blocked(items, down) {
      var k :| 0 <= k < |items| && !Movable(items[k], down) && items[k].userId == items[j].userId;
      DistinctApart(Ids(items), k, j);
    }
  }

  /**
   * The lookup loop of paired_update, `for it in items: if it.user_id == id:
   * candidate_item = it`: an item of the roster carrying the id.
   */
  method FindItem(items: seq<Player>, id: string) returns (found: Player, ghost at: nat)
    requires id in Ids(items)
    ensures at < |items| && items[at] == found && found.userId == id
    ensures forall k :: 0 <= k < |items| && items[k].userId == id && Distinct(Ids(items)) ==> found == items[k]
  {
    var hit: Option<Player> := None;
    for k := 0 to |items|
      invariant hit.Some? <==> exists j :: 0 <= j < k && items[j].userId == id
      invariant hit.Some? ==> hit.value in items && hit.value.userId == id
    {
      if items[k].userId == id {
        hit := Some(items[k]);
      }
    }
    found := hit.value;
    at :| at < |items| && items[at] == found;
    forall k | 0 <= k < |items| && items[k].userId == id && Distinct(Ids(items))
      ensures found == items[k]
    {
      var j :| 0 <= j < |items| && items[j] == found;
      DistinctApart(Ids(items), j, k);
    }
  }

  /** The scratch field a draw of the given kind writes: `sim_true_y` for the true value, `sim_y` for the estimate. */
  function Scratch(p: Player, trueScoreLogic: bool): int
    reads p`simY, p`simTrueY
  {
    if trueScoreLogic then p.simTrueY else p.simY
  }

  /** The probability a draw of the given kind uses: the true value or the estimate. */
  function Chance(p: Player, trueScoreLogic: bool): real
    reads p`est
  {
    if trueScoreLogic then p.trueValue else p.est
  }

  /**
   * One rejection loop of draw_rule, `while player.<field> == item.<field>
   * (and counter < budget): player.draw(); item.draw()`, on the stream of
   * uniform pairs `draws`. The result is the player's scratch value when the
   * loop stops, as the sampler specification DrawUntilDiffer gives it, or None
   * when the stream ran out first. The other kind of scratch field is kept.
   */
  method DrawPairs(player: Player, item: Player, trueScoreLogic: bool, draws: seq<(real, real)>, budget: Option<nat>)
    returns (r: Option<int>)
    requires player != item
    modifies player`simY, player`simTrueY, item`simY, item`simTrueY
    ensures r == DrawUntilDiffer(Chance(player, trueScoreLogic), Chance(item, trueScoreLogic),
                                 old(Scratch(player, trueScoreLogic)), old(Scratch(item, trueScoreLogic)), draws, budget)
    ensures Scratch(player, !trueScoreLogic) == old(Scratch(player, !trueScoreLogic))
    ensures Scratch(item, !trueScoreLogic) == old(Scratch(item, !trueScoreLogic))
    ensures r.Some? ==> Scratch(player, trueScoreLogic) == r.value
    ensures r.Some? && old(Scratch(player, trueScoreLogic)) == old(Scratch(item, trueScoreLogic)) && budget != Some(0)
      ==> 0 <= r.value <= 1
  {
    var k := 0;
    ghost var spec := DrawUntilDiffer(Chance(player, trueScoreLogic), Chance(item, trueScoreLogic),
                                      Scratch(player, trueScoreLogic), Scratch(item, trueScoreLogic), draws, budget);
    while Scratch(player, trueScoreLogic) == Scratch(item, trueScoreLogic) && (budget.None? || k < budget.value)
          && k < |draws|
      invariant 0 <= k <= |draws| && (budget.Some? ==> k <= budget.value)
      invariant DrawUntilDiffer(Chance(player, trueScoreLogic), Chance(item, trueScoreLogic),
                                Scratch(player, trueScoreLogic), Scratch(item, trueScoreLogic), draws[k..],
                                if budget.Some? then Some(budget.value - k) else None) == spec
      invariant k > 0 ==> 0 <= Scratch(player, trueScoreLogic) <= 1
      invariant k == 0 ==>
        Scratch(player, trueScoreLogic) == old(Scratch(player, trueScoreLogic)) &&
        Scratch(item, trueScoreLogic) == old(Scratch(item, trueScoreLogic))
      invariant Scratch(player, !trueScoreLogic) == old(Scratch(player, !trueScoreLogic))
      invariant Scratch(item, !trueScoreLogic) == old(Scratch(item, !trueScoreLogic))
    {
      var a := player.Draw(draws[k].0, trueScoreLogic);
      var b := item.Draw(draws[k].1, trueScoreLogic);
      assert draws[k..][1..] == draws[k + 1..];
      k := k + 1;
    }
    if Scratch(player, trueScoreLogic) == Scratch(item, trueScoreLogic) && (budget.None? || k < budget.value) {
      return None;
    }
    r := Some(Scratch(player, trueScoreLogic));
  }

  /**
   * One draw of the candidate choice: the id the i-th uniform draw picks among
   * the candidates, and the item of the roster carrying it, which is blocked
   * exactly when its id is.
   */
  method DrawCandidate(items: seq<Player>, down: bool, candidates: seq<string>, picks: seq<real>, i: nat,
                       ghost blocked: set<string>)
    returns (id: string, candidate: Player)
    requires Distinct(Ids(items)) && blocked == Blocked(items, down)
    requires |candidates| > 0 && forall c :: c in candidates ==> c in Ids(items)
    requires i < |picks| && 0.0 <= picks[i] < 1.0
    ensures id == candidates[PickIndex(picks[i], |candidates|)]
    ensures candidate in items && candidate.userId == id
    ensures id in blocked <==> !Movable(candidate, down)
  {
    id := candidates[PickIndex(picks[i], |candidates|)];
    ghost var at;
    candidate, at := FindItem(items, id);
    BlockedHolds(items, down, at);
  }

  /**
   * The candidate choice of paired_update: draws a candidate of `watch` (the
   * ids with a positive count, in roster order) and redraws while the drawn
   * item is blocked, at most 101 more times; the item it settles on is the one
   * RetryChoice names. It changes nothing.
   */
  method RetryPick(items: seq<Player>, down: bool, candidates: seq<string>, picks: seq<real>) returns (candidate: Player)
    requires Distinct(Ids(items)) && |candidates| > 0 && forall c :: c in candidates ==> c in Ids(items)
    requires |picks| > RetryCap + 1 && forall j :: 0 <= j < |picks| ==> 0.0 <= picks[j] < 1.0
    ensures candidate in items
    ensures candidate.userId == RetryChoice(candidates, picks, Blocked(items, down), 0)
  {
    ghost var blocked := Blocked(items, down);
    var candidateId;
    candidateId, candidate := DrawCandidate(items, down, candidates, picks, 0, blocked);
    var counter := 0;
    ghost var target := RetryChoice(candidates, picks, blocked, 0);
    while if down then candidate.score <= 0 else candidate.score >= candidate.urnSize
      invariant 0 <= counter <= RetryCap
      invariant candidateId == candidates[PickIndex(picks[counter], |candidates|)]
      invariant candidate in items && candidate.userId == candidateId
      invariant candidateId in blocked <==> !Movable(candidate, down)
      invariant RetryChoice(candidates, picks, blocked, counter) == target
      invariant blocked == Blocked(items, down)
      decreases RetryCap - counter
    {
      candidateId, candidate := DrawCandidate(items, down, candidates, picks, counter + 1, blocked);
      counter := counter + 1;
      if counter > RetryCap {
        assert candidateId == target;
        break;
      }
    }
    assert candidateId == target;
  }

  /** `it.score += delta; it.est = it.score / it.urn_size` for an item of the roster. */
  method MoveBall(it: Player, items: seq<Player>, delta: int)
    requires it in items && Distinct(Ids(items)) && delta != 0
    requires forall k :: 0 <= k < |items| ==> items[k].urnSize != 0
    modifies it`score, it`est
    ensures ScoresMoved(items)
    ensures ShiftedOne(items, it.userId, delta)
  {
    it.score := it.score + delta;
    it.est := Ratio(it.score, it.urnSize);
    forall k | 0 <= k < |items| && items[k].userId == it.userId
      ensures items[k] == it
    {
      var j :| 0 <= j < |items| && items[j] == it;
      DistinctApart(Ids(items), j, k);
    }
  }

  /**
   * Between two states the entity's urn is kept with its estimate, or the
   * estimate is that of the new urn.
   */
  twostate predicate EstimateFollows(p: Player)
    reads p
  {
    (p.score == old(p.score) && p.urnSize == old(p.urnSize) && p.est == old(p.est)) ||
    (p.urnSize != 0 && p.est == Ratio(p.score, p.urnSize))
  }

  /** The shrink of adaptive_urn_change: the urn becomes `minUrn` balls with the score rescaled, and the estimate follows. */
  method ShrinkUrn(player: Player, minUrn: int)
    requires player.urnSize > 0 && minUrn > 0
    modifies player`score, player`urnSize, player`est
    ensures Urn(player.score, player.urnSize) == Shrink(old(player.score), old(player.urnSize), minUrn)
    ensures player.urnSize > 0 && player.est == Ratio(player.score, player.urnSize)
  {
    var shrunk := Shrink(player.score, player.urnSize, minUrn);
    player.score := shrunk.score;
    player.urnSize := minUrn;
    player.est := Ratio(player.score, player.urnSize);
  }

  /** The grow of adaptive_urn_change: the urn becomes twice `size`, the score doubles, and the estimate follows. */
  method GrowUrn(player: Player, size: int)
    requires size != 0
    modifies player`score, player`urnSize, player`est
    ensures player.urnSize == size * 2 && player.score == old(player.score) * 2
    ensures player.est == Ratio(player.score, player.urnSize)
  {
    player.urnSize := size * 2;
    player.score := player.score * 2;
    player.est := Ratio(player.score, player.urnSize);
  }

  class GameType {
    const adaptivity: Adaptivity
    const alg: AlgType
    const pairedUpdate: bool
    const adaptiveUrn: bool
    const urnType: UrnType
    const minUrn: int
    var maxUrn: int
    const minStakes: int
    const maxStakes: int
    const freqChange: int
    const window: int
    const bound: int
    const permutationTest: bool

    /**
     * The settings the selected rules divide by or rely on: a positive window,
     * a positive minimum urn where urns shrink, a positive change frequency
     * where it is used, and a positive maximum stake where stakes are reset to it.
     */
    predicate WellFormed()
    {
      window > 0 &&
      (adaptiveUrn && (urnType == Permutation || urnType == UrnType.SecondOrderUrnings) ==> minUrn > 0) &&
      (adaptiveUrn && urnType == Permutation && !permutationTest ==> freqChange > 0) &&
      (urnType == StakesPermutation || urnType == StakesSecondOrderUrnings ==> maxStakes >= 1)
    }

    /** `Game_Type(...)`: records the settings. */
    constructor (adaptivity: Adaptivity, alg: AlgType, pairedUpdate: bool, adaptiveUrn: bool, urnType: UrnType,
                 minUrn: int, maxUrn: int, minStakes: int, maxStakes: int, freqChange: int, window: int,
                 bound: int, permutationTest: bool)
      ensures this.adaptivity == adaptivity && this.alg == alg && this.pairedUpdate == pairedUpdate
      ensures this.adaptiveUrn == adaptiveUrn && this.urnType == urnType && this.minUrn == minUrn
      ensures this.maxUrn == maxUrn && this.minStakes == minStakes && this.maxStakes == maxStakes
      ensures this.freqChange == freqChange && this.window == window && this.bound == bound
      ensures this.permutationTest == permutationTest
    {
      this.adaptivity := adaptivity;
      this.alg := alg;
      this.pairedUpdate := pairedUpdate;
      this.adaptiveUrn := adaptiveUrn;
      this.urnType := urnType;
      this.minUrn := minUrn;
      this.maxUrn := maxUrn;
      this.minStakes := minStakes;
      this.maxStakes := maxStakes;
      this.freqChange := freqChange;
      this.window := window;
      this.bound := bound;
      this.permutationTest := permutationTest;
    }

    /**
     * `draw_rule`. The observed result is drawn from the true values until the
     * two draws differ. The expected result is drawn from the estimates until
     * they differ: under Urnings1 for at most 1000 rounds, under Urnings2 from
     * the estimates of the urns with the observed result already added, the
     * estimates being restored afterwards. The draws come from two finite
     * streams of uniform pairs; None means a stream ran out before its loop
     * stopped. On success the scratch fields are reset to Unset.
     */
    method DrawRule(player: Player, item: Player, outcomeDraws: seq<(real, real)>, expectedDraws: seq<(real, real)>)
      returns (r: Option<Sampled>)
      requires player != item
      requires alg == Urnings2 ==> player.urnSize !in {0, -1} && item.urnSize !in {0, -1}
      modifies player`simY, player`simTrueY, player`est, item`simY, item`simTrueY, item`est
      ensures var outcome := DrawUntilDiffer(player.trueValue, item.trueValue, old(player.simTrueY), old(item.simTrueY),
                                             outcomeDraws, None);
        var expected :=
          if alg == Urnings1 then
            DrawUntilDiffer(old(player.est), old(item.est), old(player.simY), old(item.simY), expectedDraws,
                            Some(ExpectedBudget))
          else if outcome.Some? then
            DrawUntilDiffer(Ratio(player.score + outcome.value, player.urnSize + 1),
                            Ratio(item.score + 1 - outcome.value, item.urnSize + 1),
                            old(player.simY), old(item.simY), expectedDraws, None)
          else None;
        (r.Some? <==> outcome.Some? && expected.Some?) &&
        (r.Some? ==> r.value == Sampled(outcome.value, expected.value))
      ensures r.Some? ==> player.simY == Unset && item.simY == Unset && player.simTrueY == Unset && item.simTrueY == Unset
      ensures r.Some? && alg == Urnings1 ==> player.est == old(player.est) && item.est == old(item.est)
      ensures r.Some? && alg == Urnings2 ==>
        player.est == Ratio(player.score, player.urnSize) && item.est == Ratio(item.score, item.urnSize)
      ensures r.Some? && old(player.simTrueY) == old(item.simTrueY) && old(player.simY) == old(item.simY) ==>
        0 <= r.value.result <= 1 && 0 <= r.value.expected <= 1
    {
      var outcome := DrawPairs(player, item, true, outcomeDraws, None);
      if outcome.None? {
        return None;
      }
      var result := outcome.value;
      player.simTrueY, item.simTrueY := Unset, Unset;
      var expected;
      if alg == Urnings1 {
        expected := DrawPairs(player, item, false, expectedDraws, Some(ExpectedBudget));
        if expected.None? {
          return None;
        }
        player.simY, item.simY := Unset, Unset;
      } else {
        player.est := Ratio(player.score + result, player.urnSize + 1);
        item.est := Ratio(item.score + 1 - result, item.urnSize + 1);
        expected := DrawPairs(player, item, false, expectedDraws, None);
        if expected.None? {
          return None;
        }
        player.simY, item.simY := Unset, Unset;
        player.est := Ratio(player.score, player.urnSize);
        item.est := Ratio(item.score, item.urnSize);
      }
      r := Some(Sampled(result, expected.value));
    }

    /**
     * `paired_update`: keeps the item pool's total of green balls by moving one
     * ball in the opposite direction. It acts only when paired updates are on
     * and the item's score changed by exactly one: a gain (1) is balanced by a
     * decrement, a loss (-1) by an increment. `picks` are the uniform numbers
     * deciding the candidate draws (the first draw and up to 101 redraws).
     */
    method PairedUpdate(item: Player, items: seq<Player>, itemDiff: int, queueNeg: map<string, int>,
                        queuePos: map<string, int>, picks: seq<real>)
      returns (newNeg: map<string, int>, newPos: map<string, int>)
      requires item in items && Distinct(Ids(items))
      requires forall id :: id in queueNeg <==> id in Ids(items)
      requires forall id :: id in queuePos <==> id in Ids(items)
      requires forall id :: id in queueNeg ==> queueNeg[id] >= 0
      requires forall id :: id in queuePos ==> queuePos[id] >= 0
      requires forall k :: 0 <= k < |items| ==> items[k].urnSize != 0
      requires |picks| > RetryCap + 1 && forall j :: 0 <= j < |picks| ==> 0.0 <= picks[j] < 1.0
      modifies items`score, items`est
      ensures ScoresMoved(items)
      ensures !pairedUpdate || (itemDiff != 1 && itemDiff != -1) ==>
        newNeg == queueNeg && newPos == queuePos && ShiftedOne(items, item.userId, 0)
      ensures pairedUpdate && itemDiff == 1 ==> SideSpec(item, items, true, queueNeg, queuePos, picks, newNeg, newPos)
      ensures pairedUpdate && itemDiff == -1 ==> SideSpec(item, items, false, queuePos, queueNeg, picks, newPos, newNeg)
      ensures OneEntryChanged(queueNeg, newNeg) && OneEntryChanged(queuePos, newPos)
      ensures newNeg == queueNeg || newPos == queuePos
    {
      if pairedUpdate && itemDiff == 1 {
        newNeg, newPos := PairedSide(item, items, true, queueNeg, queuePos, picks);
      } else if pairedUpdate && itemDiff == -1 {
        newPos, newNeg := PairedSide(item, items, false, queuePos, queueNeg, picks);
      } else {
        newNeg, newPos := queueNeg, queuePos;
      }
    }

    /** One direction of `paired_update`, the two branches of the source written once. */
    method PairedSide(item: Player, items: seq<Player>, down: bool, watch: map<string, int>, bump: map<string, int>,
                      picks: seq<real>)
      returns (newWatch: map<string, int>, newBump: map<string, int>)
      requires item in items && Distinct(Ids(items))
      requires forall id :: id in watch <==> id in Ids(items)
      requires forall id :: id in watch ==> watch[id] >= 0
      requires item.userId in bump
      requires forall k :: 0 <= k < |items| ==> items[k].urnSize != 0
      requires |picks| > RetryCap + 1 && forall j :: 0 <= j < |picks| ==> 0.0 <= picks[j] < 1.0
      modifies items`score, items`est
      ensures ScoresMoved(items)
      ensures SideSpec(item, items, down, watch, bump, picks, newWatch, newBump)
      ensures OneEntryChanged(watch, newWatch) && OneEntryChanged(bump, newBump)
      ensures newWatch == watch || newBump == bump
    {
      if AllZero(watch) {
        newWatch := watch;
        newBump := SettleSelf(item, items, down, bump);
      } else {
        newBump := bump;
        newWatch := SettleCandidate(items, down, watch, picks);
      }
    }

    /** The queue-empty branch of paired_update. */
    method SettleSelf(item: Player, items: seq<Player>, down: bool, bump: map<string, int>)
      returns (newBump: map<string, int>)
      requires item in items && Distinct(Ids(items))
      requires item.userId in bump
      requires forall k :: 0 <= k < |items| ==> items[k].urnSize != 0
      modifies item`score, item`est
      ensures ScoresMoved(items)
      ensures SelfSpec(item, items, down, bump, newBump)
    {
      newBump := bump[item.userId := bump[item.userId] + 1];
      if down && item.score > 0 {
        MoveBall(item, items, -1);
      } else if !down && item.score < item.urnSize {
        MoveBall(item, items, 1);
      }
    }

    /** The candidate branch of paired_update. */
    method SettleCandidate(items: seq<Player>, down: bool, watch: map<string, int>, picks: seq<real>)
      returns (newWatch: map<string, int>)
      requires Distinct(Ids(items)) && !AllZero(watch)
      requires forall id :: id in watch <==> id in Ids(items)
      requires forall id :: id in watch ==> watch[id] >= 0
      requires forall k :: 0 <= k < |items| ==> items[k].urnSize != 0
      requires |picks| > RetryCap + 1 && forall j :: 0 <= j < |picks| ==> 0.0 <= picks[j] < 1.0
      modifies items`score, items`est
      ensures ScoresMoved(items)
      ensures CandidateSpec(items, down, watch, picks, newWatch)
    {
      CandidatesExist(Ids(items), watch);
      ghost var candidates := Candidates(Ids(items), watch);
      ghost var target := RetryChoice(candidates, picks, Blocked(items, down), 0);
      var candidate := RetryPick(items, down, Candidates(Ids(items), watch), picks);
      assert candidate.userId == target;
      newWatch := watch[candidate.userId := 0];
      MoveBall(candidate, items, if down then -1 else 1);
      assert ShiftedOne(items, target, if down then -1 else 1);
    }

    /**
     * `second_order_urnings`: the second-order urn gains the (non-negative
     * part of the) score change and loses an expected draw from its own
     * estimate, decided by the uniform number `u`.
     */
    method SecondOrderUrnings(player: Player, playerDiff: int, u: real)
      requires player.soUrnSize != 0
      modifies player`soScore, player`soEst
      ensures player.soScore == SecondOrderStep(old(player.soScore), playerDiff, Bernoulli(old(player.soEst), u))
      ensures player.soEst == Ratio(player.soScore, player.soUrnSize)
    {
      var soDiff := playerDiff;
      if soDiff == -1 {
        soDiff := 0;
      }
      var expected := Bernoulli(player.soEst, u);
      player.soScore := player.soScore + soDiff - expected;
      player.soEst := Ratio(player.soScore, player.soUrnSize);
    }

    /**
     * The urn adaptive_urn_change gives an entity with urn `current`,
     * difference history `differentials`, urn-size history `urnHistory` and
     * `soHistoryLength` second-order records, `verdict` being the outcome of
     * the permutation test or of the control draws.
     */
    function UrnChange(current: Urn, differentials: seq<int>, urnHistory: seq<int>, soHistoryLength: int,
                       verdict: bool): (u: Urn)
      reads this`maxUrn
      requires current.size > 0 && WellFormed()
      requires adaptiveUrn && urnType == UrnType.SecondOrderUrnings ==> |urnHistory| > 0
      ensures !adaptiveUrn ==> u == current
      ensures adaptiveUrn && urnType == Permutation ==>
        u == PermutationUrnChange(current, differentials, window, bound, freqChange, minUrn, maxUrn, permutationTest,
                                  verdict)
      ensures adaptiveUrn && urnType == UrnType.SecondOrderUrnings ==>
        u == SecondOrderUrnChange(current, urnHistory[|urnHistory| - 1], soHistoryLength, window, verdict, minUrn,
                                  maxUrn)
      ensures urnType != Permutation && urnType != UrnType.SecondOrderUrnings ==> u == current
      ensures |urnHistory| > 0 && urnHistory[|urnHistory| - 1] == current.size ==>
        u == current || (minUrn > 0 && u == Shrink(current.score, current.size, minUrn)) ||
        u == Grow(current.score, current.size)
      ensures 0 <= current.score <= current.size && |urnHistory| > 0 && urnHistory[|urnHistory| - 1] == current.size
        ==> 0 <= u.score <= u.size && 0 < u.size
    {
      if !adaptiveUrn then current
      else if urnType == Permutation then
        PermutationUrnChange(current, differentials, window, bound, freqChange, minUrn, maxUrn, permutationTest, verdict)
      else if urnType == UrnType.SecondOrderUrnings then
        SecondOrderUrnChange(current, urnHistory[|urnHistory| - 1], soHistoryLength, window, verdict, minUrn, maxUrn)
      else current
    }

    /**
     * `adaptive_urn_change`: applies UrnChange to the entity's urn and, when
     * the urn changed, recomputes its estimate.
     */
    method AdaptiveUrnChange(player: Player, verdict: bool)
      requires WellFormed() && player.urnSize > 0
      requires adaptiveUrn && urnType == UrnType.SecondOrderUrnings ==>
        |player.urnContainer| > 0 && player.urnContainer[|player.urnContainer| - 1] != 0
      modifies player`score, player`urnSize, player`est
      ensures Urn(player.score, player.urnSize) ==
        UrnChange(Urn(old(player.score), old(player.urnSize)), player.differentialContainer, player.urnContainer,
                  |player.soContainer|, verdict)
      ensures EstimateFollows(player)
    {
      if adaptiveUrn {
        if urnType == Permutation {
          PermutationChange(player, verdict);
        } else if urnType == UrnType.SecondOrderUrnings {
          SecondOrderChange(player, verdict);
        }
      }
    }

    /** The "permutation" branch of adaptive_urn_change. */
    method PermutationChange(player: Player, verdict: bool)
      requires WellFormed() && adaptiveUrn && urnType == Permutation && player.urnSize > 0
      modifies player`score, player`urnSize, player`est
      ensures Urn(player.score, player.urnSize) ==
        PermutationUrnChange(Urn(old(player.score), old(player.urnSize)), player.differentialContainer, window, bound,
                             freqChange, minUrn, maxUrn, permutationTest, verdict)
      ensures EstimateFollows(player)
    {
      var n := |player.differentialContainer|;
      if n >= window && n % window == 0 {
        if !permutationTest {
          if WindowSum(player.differentialContainer, window) >= bound && player.urnSize > minUrn {
            ShrinkUrn(player, minUrn);
          } else if n % freqChange == 0 && player.urnSize < maxUrn {
            GrowUrn(player, player.urnSize);
          }
        } else {
          if verdict {
            ShrinkUrn(player, minUrn);
          } else if player.urnSize < maxUrn {
            GrowUrn(player, player.urnSize);
          }
        }
      }
    }

    /** The "second_order_urnings" branch of adaptive_urn_change. */
    method SecondOrderChange(player: Player, verdict: bool)
      requires WellFormed() && adaptiveUrn && urnType == UrnType.SecondOrderUrnings && player.urnSize > 0
      requires |player.urnContainer| > 0 && player.urnContainer[|player.urnContainer| - 1] != 0
      modifies player`score, player`urnSize, player`est
      ensures Urn(player.score, player.urnSize) ==
        SecondOrderUrnChange(Urn(old(player.score), old(player.urnSize)), player.urnContainer[|player.urnContainer| - 1],
                             |player.soContainer|, window, verdict, minUrn, maxUrn)
      ensures EstimateFollows(player)
    {
      var n := |player.soContainer|;
      if n >= window && n % window == 0 {
        var last := player.urnContainer[|player.urnContainer| - 1];
        if verdict && last > minUrn {
          ShrinkUrn(player, minUrn);
        } else if last < maxUrn {
          GrowUrn(player, last);
        }
      }
    }

    /**
     * `calculate_stakes`: in the two adaptive-stake modes, updates the
     * entity's stake by the mode's rule (`verdict` being the outcome of the
     * permutation test or of the control draws) and returns it; in every
     * other mode it changes nothing and returns None.
     */
    method CalculateStakes(player: Player, verdict: bool) returns (stake: Option<int>)
      requires WellFormed()
      modifies player`previousStake
      ensures urnType == StakesPermutation ==>
        player.previousStake == PermutationStake(old(player.previousStake), |player.differentialContainer|, window,
                                                  verdict, maxStakes)
      ensures urnType == StakesSecondOrderUrnings ==>
        player.previousStake == SecondOrderStake(old(player.previousStake), |player.soContainer|, window, verdict,
                                                  minStakes, maxStakes)
      ensures urnType == StakesPermutation || urnType == StakesSecondOrderUrnings ==> stake == Some(player.previousStake)
      ensures urnType != StakesPermutation && urnType != StakesSecondOrderUrnings ==>
        stake == None && player.previousStake == old(player.previousStake)
    {
      if urnType == StakesPermutation {
        if |player.differentialContainer| >= window {
          if verdict {
            player.previousStake := maxStakes;
          } else if player.previousStake != 1 {
            player.previousStake := TruncDiv(player.previousStake, 2);
          }
        }
        return Some(player.previousStake);
      } else if urnType == StakesSecondOrderUrnings {
        var n := |player.soContainer|;
        if n >= window && n % window == 0 {
          if verdict && player.previousStake > minStakes {
            player.previousStake := maxStakes;
          } else if player.previousStake != 1 {
            player.previousStake := player.previousStake - 1;
          }
        }
        return Some(player.previousStake);
      }
      return None;
    }

    /**
     * The stake urnings_game stakes on a match after calculate_stakes ran: the
     * rule of the stake mode in force, the stake as it was in every other mode.
     */
    function StakeInUse(stake: int, historyLength: int, soHistoryLength: int, verdict: bool): (r: int)
      requires WellFormed()
      ensures urnType != StakesPermutation && urnType != StakesSecondOrderUrnings ==> r == stake
      ensures 1 <= stake ==> 1 <= r
    {
      if urnType == StakesPermutation then PermutationStake(stake, historyLength, window, verdict, maxStakes)
      else if urnType == StakesSecondOrderUrnings then
        SecondOrderStake(stake, soHistoryLength, window, verdict, minStakes, maxStakes)
      else stake
    }

    /**
     * The factor adaptivity_correction returns: 1 without adaptive selection;
     * otherwise the selection probability of the item after the proposal as a
     * share of the one before, read from the selection matrix, the number of
     * items per bin `counts`, the player's scaled score and the scaled player
     * proposal `int(playerProposal * (maxUrn / playerUrn))`. Where either
     * probability is undefined (a zero denominator, which numpy turns into
     * inf or nan) the factor is None.
     */
    function AdaptivityFactor(matrix: seq<seq<real>>, counts: seq<int>, scaledScore: int, playerProposal: int,
                              playerUrn: int, itemScore: int, itemProposal: int): (c: Option<real>)
      reads this`maxUrn
      requires playerUrn > 0
      ensures adaptivity == NonAdaptive ==> c == Some(1.0)
      ensures adaptivity == Adaptive ==>
        c == SelectionRatio(matrix, counts, scaledScore, TruncDiv(playerProposal * maxUrn, playerUrn), itemScore,
                            itemProposal)
      ensures TruncDiv(playerProposal * maxUrn, playerUrn) == scaledScore && itemProposal == itemScore &&
              SelectionProb(matrix, counts, scaledScore, itemScore).Some? &&
              SelectionProb(matrix, counts, scaledScore, itemScore).value != 0.0 ==>
        c == Some(1.0)
    {
      if adaptivity == NonAdaptive then Some(1.0)
      else
        var q := TruncDiv(playerProposal * maxUrn, playerUrn);
        var ratio := SelectionRatio(matrix, counts, scaledScore, q, itemScore, itemProposal);
        if ratio.Some? && q == scaledScore && itemProposal == itemScore then
          SelectionRatioStill(matrix, counts, scaledScore, itemScore);
          ratio
        else ratio
    }
}
}

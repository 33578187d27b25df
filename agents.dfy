/**
 * The entity of the Urnings system (Agents.py): a player or an item holding
 * `score` green balls in an urn of `urnSize`, a small second-order urn, a
 * stake, the scratch fields of its draws and six append-only histories.
 */
module Agents {
  import opened Numerics

  /** The value a scratch draw field holds when no draw is pending. */
  const Unset: int := 8

  /** The exceptions construction raises. */
  datatype InitError = ValueError | ZeroDivisionError

  /**
   * What construction raises, in the order the source meets it: ValueError
   * when the score exceeds the urn (its only explicit check), then the
   * ZeroDivisionError of computing an estimate over an empty urn. A negative
   * score or a negative urn passes.
   */
  function InitCheck(score: int, urnSize: int, soUrnSize: int): (e: Option<InitError>)
    ensures e == Some(ValueError) <==> score > urnSize
    ensures e == Some(ZeroDivisionError) <==> score <= urnSize && (urnSize == 0 || soUrnSize == 0)
    ensures e == None <==> score <= urnSize && urnSize != 0 && soUrnSize != 0
  {
    if score > urnSize then Some(ValueError)
    else if urnSize == 0 || soUrnSize == 0 then Some(ZeroDivisionError)
    else None
  }

  /** The second-order urn starts half full, `round(soUrnSize / 2)` rounded half to even. */
  lemma SecondOrderSeed(soUrnSize: int)
    requires soUrnSize > 0
    ensures 0 <= RoundHalfEven(soUrnSize, 2) <= soUrnSize
    ensures soUrnSize % 2 == 0 ==> 2 * RoundHalfEven(soUrnSize, 2) == soUrnSize
    ensures soUrnSize % 2 == 1 ==> 2 * RoundHalfEven(soUrnSize, 2) == soUrnSize + (if soUrnSize % 4 == 1 then -1 else 1)
  {
    RoundHalfEvenBetween(soUrnSize, 2, soUrnSize);
    if soUrnSize % 2 == 0 {
      RoundHalfEvenExact(soUrnSize / 2, 2);
    } else {
      var h := soUrnSize / 2;
      if soUrnSize % 4 == 1 {
        assert h % 2 == 0;
        RoundHalfEvenUnique(soUrnSize, 2, h);
      } else {
        assert (h + 1) % 2 == 0;
        RoundHalfEvenUnique(soUrnSize, 2, h + 1);
      }
    }
  }

  /**
   * The six append-only histories of an entity, one record per match: the
   * score, the estimate, the clamped score difference and the urn size after
   * the match, and, for players only, the second-order estimate and the stake.
   */
  datatype History = History(scores: seq<int>, estimates: seq<real>, differentials: seq<int>, urns: seq<int>,
                             soEstimates: seq<real>, stakes: seq<int>)
  {
    /** The history with one more match recorded; `soEst` and `stake` are None for an item. */
    function Then(score: int, est: real, diff: int, urn: int, soEst: Option<real>, stake: Option<int>): History
    {
      History(scores + [score], estimates + [est], differentials + [diff], urns + [urn],
              soEstimates + (if soEst.Some? then [soEst.value] else []),
              stakes + (if stake.Some? then [stake.value] else []))
    }
  }

  class Player {
    const userId: string
    var score: int
    var urnSize: int
    var est: real
    const trueValue: real
    var simY: int
    var simTrueY: int
    const soUrnSize: int
    var soScore: int
    var soEst: real
    var previousStake: int
    var container: seq<int>
    var estimateContainer: seq<real>
    var differentialContainer: seq<int>
    var urnContainer: seq<int>
    var soContainer: seq<real>
    var stakesContainer: seq<int>
    var idx: Option<nat>
    var scaledScore: int

    /** The histories as one value. */
    function Histories(): History
      reads this`container, this`estimateContainer, this`differentialContainer, this`urnContainer, this`soContainer,
            this`stakesContainer
    {
      History(container, estimateContainer, differentialContainer, urnContainer, soContainer, stakesContainer)
    }

    /** A positive urn holding its score, and the estimate that score and size determine. */
    ghost predicate UrnValid()
      reads this`score, this`urnSize, this`est
    {
      0 < urnSize && 0 <= score <= urnSize && est == Ratio(score, urnSize)
    }

    /**
     * The invariant of a player in a running system: a valid urn and
     * second-order urn, a stake of at least one, and the last recorded urn
     * size equal to the current one.
     */
    ghost predicate Valid()
      reads this`score, this`urnSize, this`est, this`soScore, this`soEst, this`previousStake, this`urnContainer
    {
      UrnValid() &&
      0 < soUrnSize && 0 <= soScore <= soUrnSize && soEst == Ratio(soScore, soUrnSize) &&
      1 <= previousStake &&
      |urnContainer| > 0 && urnContainer[|urnContainer| - 1] == urnSize
    }

    /** The state `__init__` leaves behind. */
    ghost predicate Initial(userId: string, score: int, urnSize: int, trueValue: real, soUrnSize: int, stake: int)
      reads this
      requires urnSize != 0 && soUrnSize != 0
    {
      this.userId == userId && this.score == score && this.urnSize == urnSize &&
      est == Ratio(score, urnSize) && this.trueValue == trueValue &&
      simY == Unset && simTrueY == Unset &&
      this.soUrnSize == soUrnSize && soScore == RoundHalfEven(soUrnSize, 2) && soEst == Ratio(soScore, soUrnSize) &&
      previousStake == stake &&
      container == [score] && estimateContainer == [est] && differentialContainer == [0] &&
      urnContainer == [urnSize] && soContainer == [soEst] && stakesContainer == [stake] &&
      idx == None && scaledScore == score
    }

    /** `__init__` on arguments that pass its checks. */
    constructor (userId: string, score: int, urnSize: int, trueValue: real, soUrnSize: int, stake: int)
      requires InitCheck(score, urnSize, soUrnSize) == None
      ensures Initial(userId, score, urnSize, trueValue, soUrnSize, stake)
    {
      this.userId := userId;
      this.score := score;
      this.urnSize := urnSize;
      est := Ratio(score, urnSize);
      this.trueValue := trueValue;
      simY := Unset;
      simTrueY := Unset;
      this.soUrnSize := soUrnSize;
      soScore := RoundHalfEven(soUrnSize, 2);
      soEst := Ratio(RoundHalfEven(soUrnSize, 2), soUrnSize);
      previousStake := stake;
      container := [score];
      estimateContainer := [Ratio(score, urnSize)];
      differentialContainer := [0];
      urnContainer := [urnSize];
      soContainer := [Ratio(RoundHalfEven(soUrnSize, 2), soUrnSize)];
      stakesContainer := [stake];
      idx := None;
      scaledScore := score;
    }

    /**
     * `Player(...)`: raises what InitCheck names, otherwise builds a new entity
     * with every history seeded by one entry.
     */
    static method Create(userId: string, score: int, urnSize: int, trueValue: real,
                         soUrnSize: int := 10, stake: int := 16) returns (r: Result<Player, InitError>)
      ensures r.Failure? <==> InitCheck(score, urnSize, soUrnSize).Some?
      ensures r.Failure? ==> InitCheck(score, urnSize, soUrnSize) == Some(r.error)
      ensures r.Success? ==> fresh(r.value) && r.value.Initial(userId, score, urnSize, trueValue, soUrnSize, stake)
    {
      var check := InitCheck(score, urnSize, soUrnSize);
      if check.Some? {
        return Failure(check.value);
      }
      var p := new Player(userId, score, urnSize, trueValue, soUrnSize, stake);
      return Success(p);
    }

    /** A newly built entity with a non-negative score, a positive second-order urn and a stake of at least one is valid. */
    lemma InitialIsValid(userId: string, score: int, urnSize: int, trueValue: real, soUrnSize: int, stake: int)
      requires InitCheck(score, urnSize, soUrnSize) == None
      requires Initial(userId, score, urnSize, trueValue, soUrnSize, stake)
      requires 0 <= score && 0 < soUrnSize && 1 <= stake
      ensures Valid()
    {
      SecondOrderSeed(soUrnSize);
    }

    /** `__eq__`: compares the ids and nothing else (it reads no mutable field). */
    predicate Equals(other: Player)
      ensures Equals(other) <==> userId == other.userId
    {
      userId == other.userId
    }

    /** `find`: whether this entity has the given id. */
    predicate Find(id: string)
      ensures Find(id) <==> userId == id
    {
      userId == id
    }

    /**
     * `draw`: one Bernoulli draw, of the true value when `trueScoreLogic`
     * holds and of the estimate otherwise (the default), stored in that
     * draw's own scratch field and returned. `u` is the uniform number that
     * decides it.
     */
    method Draw(u: real, trueScoreLogic: bool := false) returns (y: Bit)
      modifies this`simY, this`simTrueY
      ensures y == Bernoulli(if trueScoreLogic then trueValue else est, u)
      ensures trueScoreLogic ==> simTrueY == y && simY == old(simY)
      ensures !trueScoreLogic ==> simY == y && simTrueY == old(simTrueY)
    {
      if !trueScoreLogic {
        y := Bernoulli(est, u);
        simY := y;
      } else {
        y := Bernoulli(trueValue, u);
        simTrueY := y;
      }
    }

    /**
     * The estimate of a valid urn is a probability, so the default draw never
     * leaves the range numpy's binomial accepts.
     */
    lemma EstimateIsProbability()
      requires UrnValid()
      ensures 0.0 <= est <= 1.0
    {
      assert est == score as real / urnSize as real;
      assert est * urnSize as real == score as real;
    }

    /** `so_draw`: a Bernoulli draw of the second-order estimate, stored in `simY` and returned. */
    method SoDraw(u: real) returns (y: Bit)
      modifies this`simY
      ensures y == Bernoulli(soEst, u) && simY == y
    {
      y := Bernoulli(soEst, u);
      simY := y;
    }
  }
}

/**
 * The Urnings orchestrator: the roster of players and items, the paired-update
 * queues, the item-bin index used by adaptive item selection, and the match
 * loop. Every random outcome a match consumes is an input (MatchDraws).
 */
module Orchestrator {
  import opened Numerics
  import opened Bins
  import opened GameRules
  import opened Agents
  import opened GameTypes

  /** How a match ended: played through, stalled in a rejection loop, or stopped by the KeyError of the bin rebuild. */
  datatype Status = Played | Stalled | BinKeyError

  /**
   * The random outcomes of one match: the uniform pairs of draw_rule's two
   * rejection loops, the permutation-test or control-draw verdicts of
   * calculate_stakes and adaptive_urn_change, the uniform of the Metropolis
   * step, the
   * uniforms of paired_update's candidate draws and the uniform of the
   * second-order expected draw.
   */
  datatype MatchDraws = MatchDraws(
    outcomeDraws: seq<(real, real)>,
    expectedDraws: seq<(real, real)>,
    stakeVerdict: bool,
    u: real,
    picks: seq<real>,
    soU: real,
    urnVerdict: bool)

  /** Uniform numbers lie in [0, 1), and there is one candidate draw per retry. */
  predicate DrawsOk(d: MatchDraws)
  {
    |d.picks| > RetryCap + 1 && (forall j :: 0 <= j < |d.picks| ==> 0.0 <= d.picks[j] < 1.0) &&
    0.0 <= d.soU < 1.0
  }

  /** One round of play: the matchmaking picks and the draws of the match. */
  datatype Round = Round(playerPick: nat, itemPick: nat, draws: MatchDraws)

  /** What draw_rule and the updating rules produced. */
  datatype Response = Response(result: Bit, expected: Bit, proposal: Proposal)

  /**
   * What a match starts from: the player's score, urn size, stake and the
   * lengths of its score-difference and second-order histories, and the
   * item's score and urn size.
   */
  datatype Standing = Standing(playerScore: int, playerUrn: int, stake: int, historyLength: int,
                               soHistoryLength: int, itemScore: int, itemUrn: int)

  /**
   * What adaptivity_correction reads besides the two entities:
   * `adaptive_matrix_binned` and the number of items in each bin.
   */
  datatype Selection = Selection(matrix: seq<seq<real>>, counts: seq<int>)

  /** The standing of `player` against `item` in the current state. */
  ghost function StandingOf(player: Player, item: Player): (s: Standing)
    reads player`score, player`urnSize, player`previousStake, player`differentialContainer, player`soContainer,
          item`score, item`urnSize
    ensures s.playerScore == player.score && s.itemScore == item.score && s.stake == player.previousStake
  {
    Standing(player.score, player.urnSize, player.previousStake, |player.differentialContainer|,
             |player.soContainer|, item.score, item.urnSize)
  }

  /**
   * What a match leaves a record against: the player's score, urn size,
   * second-order score and estimate and histories, and the item's histories,
   * before the match.
   */
  datatype Past = Past(score: int, urnSize: int, soScore: int, soEst: real, history: History, itemHistory: History)

  /** The past of `player` and `item` in the current state. */
  ghost function PastOf(player: Player, item: Player): (p: Past)
    reads player`score, player`urnSize, player`soScore, player`soEst, player`container, player`estimateContainer,
          player`differentialContainer, player`urnContainer, player`soContainer, player`stakesContainer,
          item`container, item`estimateContainer, item`differentialContainer, item`urnContainer, item`soContainer,
          item`stakesContainer
    ensures p.score == player.score && p.urnSize == player.urnSize && p.history == player.Histories() &&
            p.itemHistory == item.Histories()
  {
    Past(player.score, player.urnSize, player.soScore, player.soEst, player.Histories(), item.Histories())
  }

  /** The intermediate values of one match, for the contract of UrningsGame. */
  datatype Trace = Trace(result: Bit, expected: Bit, stake: int, proposal: Proposal, accepted: bool,
                         playerDiff: int, itemDiff: int)

  /**
   * The proposal urnings_game asks for: updating_with_stakes in the three
   * stake modes, updating_rule otherwise.
   */
  function ProposalFor(urnType: UrnType, playerScore: int, playerUrn: int, itemScore: int, itemUrn: int,
                       result: Bit, expected: Bit, stake: int): (r: Proposal)
    ensures 0 <= r.player && (0 <= playerUrn ==> r.player <= playerUrn)
    ensures 0 <= r.item && (0 <= itemUrn ==> r.item <= itemUrn)
    ensures result == expected && 0 <= playerScore <= playerUrn && 0 <= itemScore <= itemUrn
            ==> r == Proposal(playerScore, itemScore)
  {
    if urnType == StakesPermutation || urnType == StakesSecondOrderUrnings || urnType == FixedStakes then
      UpdatingWithStakes(playerScore, playerUrn, itemScore, itemUrn, result, expected, stake)
    else
      UpdatingRule(playerScore, playerUrn, itemScore, itemUrn, result, expected)
  }

  /** The scaled score `int(score * (maxUrn / urn))` of a valid urn is a row of the selection matrix. */
  lemma ScaledInRange(score: int, urn: int, maxUrn: int)
    requires 0 <= score <= urn && 0 < urn && 0 <= maxUrn
    ensures 0 <= TruncDiv(score * maxUrn, urn) <= maxUrn
  {
    var r := TruncDiv(score * maxUrn, urn);
    assert (urn - score) * maxUrn >= 0 by {
      NonNegativeProduct(urn - score, maxUrn);
    }
    assert urn * r <= urn * maxUrn;
    PositiveFactor(urn, r, maxUrn);
  }

  /** The scores of a roster, in roster order. */
  ghost function Scores(items: seq<Player>): (s: seq<int>)
    reads items`score
    ensures |s| == |items| && forall k {:trigger s[k]} :: 0 <= k < |items| ==> s[k] == items[k].score
  {
    if items == [] then [] else Scores(items[..|items| - 1]) + [items[|items| - 1].score]
  }

  /** A player between matches: valid urns, cleared scratch fields, its position, and its score scaled to `maxUrn`. */
  ghost predicate PlayerReady(p: Player, k: nat, maxUrn: int)
    reads p`score, p`urnSize, p`est, p`soScore, p`soEst, p`previousStake, p`urnContainer, p`simY, p`simTrueY,
          p`idx, p`scaledScore
  {
    p.Valid() && p.simY == Unset && p.simTrueY == Unset && p.idx == Some(k) &&
    p.scaledScore == TruncDiv(p.score * maxUrn, p.urnSize)
  }

  /**
   * An item's state apart from the range of its score: the common item urn
   * size `itemUrn`, the estimate of its urn, cleared scratch fields and its
   * position.
   */
  ghost predicate ItemSettled(it: Player, k: nat, itemUrn: int)
    reads it`urnSize, it`est, it`score, it`simY, it`simTrueY, it`idx
  {
    0 < it.urnSize == itemUrn && it.est == Ratio(it.score, it.urnSize) &&
    it.simY == Unset && it.simTrueY == Unset && it.idx == Some(k)
  }

  /** An item between matches: a settled item whose score lies in its urn. */
  ghost predicate ItemReady(it: Player, k: nat, itemUrn: int)
    reads it`urnSize, it`est, it`score, it`simY, it`simTrueY, it`idx
  {
    ItemSettled(it, k, itemUrn) && 0 <= it.score <= it.urnSize
  }

  /** Every player of the list is ready, at its own position. */
  ghost predicate AllPlayersReady(players: seq<Player>, maxUrn: int)
    reads players`score, players`urnSize, players`est, players`soScore, players`soEst, players`previousStake,
          players`urnContainer, players`simY, players`simTrueY, players`idx, players`scaledScore
  {
    forall k :: 0 <= k < |players| ==> PlayerReady(players[k], k, maxUrn)
  }

  /** Every item of the list is ready, at its own position. */
  ghost predicate AllItemsReady(items: seq<Player>, itemUrn: int)
    reads items`urnSize, items`est, items`score, items`simY, items`simTrueY, items`idx
  {
    forall k :: 0 <= k < |items| ==> ItemReady(items[k], k, itemUrn)
  }

  /**
   * The players and items of a valid orchestrator: all ready, at their own
   * positions, and the items binned under their scores in `bins`.
   */
  ghost predicate RosterReady(players: seq<Player>, items: seq<Player>, maxUrn: int, itemUrn: int,
                              bins: map<int, seq<Player>>)
    reads players`score, players`urnSize, players`est, players`soScore, players`soEst, players`previousStake,
          players`urnContainer, players`simY, players`simTrueY, players`idx, players`scaledScore
    reads items`urnSize, items`est, items`score, items`simY, items`simTrueY, items`idx
  {
    AllPlayersReady(players, maxUrn) && AllItemsReady(items, itemUrn) &&
    itemUrn >= 0 && bins == BinIndex(items, Scores(items), itemUrn)
  }

  /** Both queues hold a count of at least 0 for every id of `ids` and for nothing else. */
  ghost predicate QueuesCover(ids: seq<string>, queuePos: map<string, int>, queueNeg: map<string, int>)
  {
    (forall id :: id in queuePos <==> id in ids) && (forall id :: id in queueNeg <==> id in ids) &&
    (forall id :: id in queuePos ==> queuePos[id] >= 0) && (forall id :: id in queueNeg ==> queueNeg[id] >= 0)
  }

  /** Whether paired_update acts on a match whose item score moved by `itemDiff`. */
  predicate PairedActs(pairedUpdate: bool, itemDiff: int)
  {
    pairedUpdate && (itemDiff == 1 || itemDiff == -1)
  }

  /**
   * One paired_update on the queues `neg` and `pos`, which become `neg'` and
   * `pos'`: each changes in at most one entry, at most one of them changes,
   * and neither does when paired_update does not act.
   */
  ghost predicate QueueStep(neg: map<string, int>, pos: map<string, int>, neg': map<string, int>,
                            pos': map<string, int>, acts: bool)
  {
    OneEntryChanged(neg, neg') && OneEntryChanged(pos, pos') && (neg' == neg || pos' == pos) &&
    (!acts ==> neg' == neg && pos' == pos)
  }

  /** A queue update that changes at most one entry, by an increment or a reset, keeps the queues covering `ids`. */
  lemma CoverKept(ids: seq<string>, pos: map<string, int>, neg: map<string, int>, pos': map<string, int>,
                  neg': map<string, int>)
    requires QueuesCover(ids, pos, neg) && OneEntryChanged(pos, pos') && OneEntryChanged(neg, neg')
    ensures QueuesCover(ids, pos', neg')
  {
    OneEntryKeepsKeys(pos, pos');
    OneEntryKeepsKeys(neg, neg');
  }

  /**
   * The state of an orchestrator between two matches, on its parts. Players
   * and items are told apart by their positions `idx`, so neither list
   * repeats an entity; no entity is both a player and an item; item ids are
   * unique; the selection matrix has a row per scaled player score and a
   * column per item score; and every item sits in the bin of its score.
   */
  ghost predicate Consistent(players: seq<Player>, items: seq<Player>, gameType: GameType, itemUrn: int,
                             matrix: seq<seq<real>>, queuePos: map<string, int>, queueNeg: map<string, int>,
                             itemBins: map<int, seq<Player>>)
    reads gameType`maxUrn
    reads players`score, players`urnSize, players`est, players`soScore, players`soEst, players`previousStake,
          players`urnContainer, players`simY, players`simTrueY, players`idx, players`scaledScore
    reads items`urnSize, items`est, items`score, items`simY, items`simTrueY, items`idx
  {
    Shaped(players, items, gameType, itemUrn, matrix) &&
    RosterReady(players, items, gameType.maxUrn, itemUrn, itemBins) &&
    QueuesCover(Ids(items), queuePos, queueNeg)
  }

  /**
   * The parts of Consistent that no match changes: both lists are non-empty,
   * no entity is both a player and an item, item ids are unique, and the
   * selection matrix has a row per scaled player score and a column per item
   * score.
   */
  ghost predicate Shaped(players: seq<Player>, items: seq<Player>, gameType: GameType, itemUrn: int,
                         matrix: seq<seq<real>>)
    reads gameType`maxUrn
  {
    |players| > 0 && |items| > 0 && itemUrn > 0 &&
    gameType.WellFormed() && gameType.maxUrn >= 0 &&
    |matrix| == gameType.maxUrn + 1 && (forall r :: 0 <= r < |matrix| ==> |matrix[r]| == itemUrn + 1) &&
    (forall j :: 0 <= j < |items| ==> items[j] !in players) &&
    Distinct(Ids(items))
  }

  /** The loop of the constructor that gives every entity its position `idx` in its list. */
  method Number(entities: seq<Player>)
    requires Distinct(entities)
    modifies entities`idx
    ensures forall k :: 0 <= k < |entities| ==> entities[k].idx == Some(k)
  {
    DistinctPairwise(entities);
    for k := 0 to |entities|
      invariant forall j :: 0 <= j < k ==> entities[j].idx == Some(j)
    {
      entities[k].idx := Some(k);
    }
  }

  /** The loop of the constructor that scales every player's score to the `maxUrn` grid, truncating. */
  method Scale(players: seq<Player>, maxUrn: int)
    requires Distinct(players) && forall k :: 0 <= k < |players| ==> players[k].urnSize > 0
    modifies players`scaledScore
    ensures forall k :: 0 <= k < |players| ==>
      players[k].scaledScore == TruncDiv(players[k].score * maxUrn, players[k].urnSize)
  {
    DistinctPairwise(players);
    for k := 0 to |players|
      invariant forall j :: 0 <= j < k ==>
        players[j].scaledScore == TruncDiv(players[j].score * maxUrn, players[j].urnSize)
    {
      players[k].scaledScore := TruncDiv(players[k].score * maxUrn, players[k].urnSize);
    }
  }

  /** The constructor's two loops over the players: their positions, then their scaled scores. */
  method PreparePlayers(players: seq<Player>, maxUrn: int)
    requires Distinct(players)
    requires forall k :: 0 <= k < |players| ==>
      players[k].Valid() && players[k].simY == Unset && players[k].simTrueY == Unset
    modifies players`idx, players`scaledScore
    ensures AllPlayersReady(players, maxUrn)
  {
    Number(players);
    Scale(players, maxUrn);
  }

  /** The constructor's numbering of the items and their first binning. */
  method PrepareItems(items: seq<Player>, itemUrn: nat) returns (bins: map<int, seq<Player>>)
    requires Distinct(items)
    requires forall k :: 0 <= k < |items| ==>
      items[k].UrnValid() && items[k].urnSize == itemUrn && items[k].simY == Unset && items[k].simTrueY == Unset
    modifies items`idx
    ensures AllItemsReady(items, itemUrn) && bins == BinIndex(items, Scores(items), itemUrn)
  {
    Number(items);
    assert AllItemsReady(items, itemUrn);
    var binned;
    binned, bins := Rebin(items, itemUrn);
  }

  /**
   * The constructor's numbering of players and items, its choice of
   * `maxUrn` and its scaling of the players' scores.
   */
  method Prepare(players: seq<Player>, items: seq<Player>, gameType: GameType, maxUrn: int, itemUrn: nat)
    returns (bins: map<int, seq<Player>>)
    requires Distinct(players) && Distinct(items)
    requires forall j :: 0 <= j < |items| ==> items[j] !in players
    requires forall k :: 0 <= k < |players| ==>
      players[k].Valid() && players[k].simY == Unset && players[k].simTrueY == Unset
    requires forall k :: 0 <= k < |items| ==>
      items[k].UrnValid() && items[k].urnSize == itemUrn && items[k].simY == Unset && items[k].simTrueY == Unset
    modifies players`idx, players`scaledScore, items`idx, gameType`maxUrn
    ensures gameType.maxUrn == maxUrn
    ensures RosterReady(players, items, maxUrn, itemUrn, bins)
  {
    PreparePlayers(players, maxUrn);
    bins := PrepareItems(items, itemUrn);
    gameType.maxUrn := maxUrn;
  }

  /**
   * The binning loop of the constructor and of every match: empty bins for
   * the scores 0..n, then every item appended to the bin of its score; an
   * item whose score has no bin stops it (`ok` false, the KeyError) with the
   * bins filled so far.
   */
  method Rebin(items: seq<Player>, n: nat) returns (ok: bool, bins: map<int, seq<Player>>)
    ensures ok <==> forall k :: 0 <= k < |items| ==> 0 <= items[k].score <= n
    ensures ok ==> bins == BinIndex(items, Scores(items), n)
    ensures !ok ==>
      exists j :: (0 <= j < |items| && !(0 <= items[j].score <= n) &&
                   (forall k :: 0 <= k < j ==> 0 <= items[k].score <= n) &&
                   bins == BinIndex(items[..j], Scores(items)[..j], n))
  {
    ghost var scores := Scores(items);
    bins := BinIndex([], [], n);
    assert items[..0] == [] && scores[..0] == [];
    for k := 0 to |items|
      invariant bins == BinIndex(items[..k], scores[..k], n)
      invariant forall j :: 0 <= j < k ==> 0 <= items[j].score <= n
    {
      var b := items[k].score;
      if b !in bins {
        assert !(0 <= items[k].score <= n) && bins == BinIndex(items[..k], scores[..k], n);
        return false, bins;
      }
      BinIndexPrefix(items, scores, k, n);
      bins := bins[b := bins[b] + [items[k]]];
    }
    assert items[..|items|] == items && scores[..|items|] == scores;
    return true, bins;
  }

  /**
   * The work of `Urnings(players, items, game_type)`: numbers the players
   * and the items, fixes `maxUrn` to the first player's urn when urn sizes
   * do not adapt, scales every player's score, tabulates the selection
   * kernel, starts both queues at 0 for every item and bins the items.
   */
  method Setup(players: seq<Player>, items: seq<Player>, gameType: GameType, kernel: (int, int) -> real)
    returns (itemUrn: int, matrix: seq<seq<real>>, queuePos: map<string, int>, queueNeg: map<string, int>,
             itemBins: map<int, seq<Player>>)
    requires |players| > 0 && |items| > 0 && items[0].urnSize > 0
    requires gameType.WellFormed() && (gameType.adaptiveUrn ==> gameType.maxUrn >= 0)
    requires forall k :: 0 <= k < |players| ==>
      players[k].Valid() && players[k].simY == Unset && players[k].simTrueY == Unset
    requires forall k :: 0 <= k < |items| ==>
      items[k].UrnValid() && items[k].urnSize == items[0].urnSize &&
      items[k].simY == Unset && items[k].simTrueY == Unset
    requires Distinct(players) && Distinct(items) && Distinct(Ids(items))
    requires forall j :: 0 <= j < |items| ==> items[j] !in players
    modifies players`idx, players`scaledScore, items`idx, gameType`maxUrn
    ensures Consistent(players, items, gameType, itemUrn, matrix, queuePos, queueNeg, itemBins)
    ensures itemUrn == items[0].urnSize
    ensures gameType.maxUrn == if gameType.adaptiveUrn then old(gameType.maxUrn) else players[0].urnSize
    ensures forall p, i :: 0 <= p < |matrix| && 0 <= i <= itemUrn ==> matrix[p][i] == kernel(p, i)
    ensures AllZero(queuePos) && AllZero(queueNeg)
    ensures forall k :: 0 <= k < |players| ==>
      players[k].score == old(players[k].score) && players[k].urnSize == old(players[k].urnSize)
    ensures forall k :: 0 <= k < |items| ==>
      items[k].score == old(items[k].score) && items[k].urnSize == old(items[k].urnSize)
  {
    var maxUrn := if gameType.adaptiveUrn then gameType.maxUrn else players[0].urnSize;
    itemUrn := items[0].urnSize;
    itemBins := Prepare(players, items, gameType, maxUrn, itemUrn);
    matrix := Tabulate(kernel, maxUrn + 1, itemUrn + 1);
    queuePos := map id | id in Ids(items) :: 0;
    queueNeg := map id | id in Ids(items) :: 0;
  }

  /** Every item of the list is settled, at its own position. */
  ghost predicate AllItemsSettled(items: seq<Player>, itemUrn: int)
    reads items`urnSize, items`est, items`score, items`simY, items`simTrueY, items`idx
  {
    forall k :: 0 <= k < |items| ==> ItemSettled(items[k], k, itemUrn)
  }

  /**
   * paired_update on the item queues `queueNeg` and `queuePos` and the item
   * scores: at most one queue entry changes, nothing at all when the update
   * is off or the item's score did not move, and the items stay settled.
   */
  method Settle(gameType: GameType, item: Player, items: seq<Player>, itemDiff: int, queueNeg: map<string, int>,
                queuePos: map<string, int>, picks: seq<real>, itemUrn: nat)
    returns (newNeg: map<string, int>, newPos: map<string, int>)
    requires item in items && Distinct(Ids(items)) && QueuesCover(Ids(items), queuePos, queueNeg)
    requires AllItemsSettled(items, itemUrn)
    requires |picks| > RetryCap + 1 && forall j :: 0 <= j < |picks| ==> 0.0 <= picks[j] < 1.0
    modifies items`score, items`est
    ensures QueuesCover(Ids(items), newPos, newNeg)
    ensures QueueStep(queueNeg, queuePos, newNeg, newPos, PairedActs(gameType.pairedUpdate, itemDiff))
    ensures !PairedActs(gameType.pairedUpdate, itemDiff) ==>
      forall k :: 0 <= k < |items| ==> items[k].score == old(items[k].score)
    ensures AllItemsSettled(items, itemUrn)
  {
    newNeg, newPos := gameType.PairedUpdate(item, items, itemDiff, queueNeg, queuePos, picks);
    forall k | 0 <= k < |items|
      ensures ItemSettled(items[k], k, itemUrn)
    {
      assert old(ItemSettled(items[k], k, itemUrn));
    }
    CoverKept(Ids(items), queuePos, queueNeg, newPos, newNeg);
  }

  /** The nested constructor loops that fill `adaptive_matrix_binned` from the kernel. */
  method Tabulate(kernel: (int, int) -> real, rows: nat, columns: nat) returns (m: seq<seq<real>>)
    ensures |m| == rows && forall r :: 0 <= r < rows ==> |m[r]| == columns
    ensures forall r, i :: 0 <= r < rows && 0 <= i < columns ==> m[r][i] == kernel(r, i)
  {
    m := [];
    for p := 0 to rows
      invariant |m| == p && forall r :: 0 <= r < p ==> |m[r]| == columns
      invariant forall r, i :: 0 <= r < p && 0 <= i < columns ==> m[r][i] == kernel(r, i)
    {
      var row: seq<real> := [];
      for i := 0 to columns
        invariant |row| == i && forall j :: 0 <= j < i ==> row[j] == kernel(p, j)
      {
        row := row + [kernel(p, i)];
      }
      m := m + [row];
    }
  }

  /**
   * The first loop of adaptive matchmaking: bin by bin, the bin's weight in
   * `row` once per item in the bin. `labels` names the bin of each position.
   */
  method WeightList(row: seq<real>, counts: seq<int>) returns (weights: seq<real>, ghost labels: seq<int>)
    requires |row| == |counts| && forall b :: 0 <= b < |counts| ==> counts[b] >= 0
    ensures labels == BinLabels(counts) && |weights| == |labels|
    ensures forall j :: 0 <= j < |weights| ==> weights[j] == row[labels[j]]
  {
    labels := [];
    weights := [];
    for b := 0 to |counts|
      invariant |weights| == |labels| && labels == BinLabels(counts[..b])
      invariant forall j :: 0 <= j < |weights| ==> 0 <= labels[j] < |counts| && weights[j] == row[labels[j]]
    {
      for c := 0 to counts[b]
        invariant |weights| == |labels| && labels == BinLabels(counts[..b]) + seq(c, _ => b)
        invariant forall j :: 0 <= j < |weights| ==> 0 <= labels[j] < |counts| && weights[j] == row[labels[j]]
      {
        assert seq(c, _ => b) + [b] == seq(c + 1, _ => b);
        weights := weights + [row[b]];
        labels := labels + [b];
      }
      assert counts[..b + 1][..b] == counts[..b];
    }
    assert counts[..|counts|] == counts;
  }

  /**
   * The first two sections of urnings_game: draw_rule, then the stake rule
   * of the mode and the proposal. None when a rejection loop ran out of draws.
   */
  method Respond(gameType: GameType, player: Player, item: Player, d: MatchDraws) returns (r: Option<Response>)
    requires gameType.WellFormed() && player != item && player.urnSize > 0 && item.urnSize > 0
    requires player.simY == Unset && player.simTrueY == Unset && item.simY == Unset && item.simTrueY == Unset
    modifies player`simY, player`simTrueY, player`est, item`simY, item`simTrueY, item`est, player`previousStake
    ensures r.None? ==> player.previousStake == old(player.previousStake)
    ensures r.Some? ==> player.simY == Unset && player.simTrueY == Unset && item.simY == Unset && item.simTrueY == Unset
    ensures r.Some? ==>
      (player.est == old(player.est) || player.est == Ratio(player.score, player.urnSize)) &&
      (item.est == old(item.est) || item.est == Ratio(item.score, item.urnSize))
    ensures r.Some? ==>
      player.previousStake == gameType.StakeInUse(old(player.previousStake), |player.differentialContainer|,
                                                   |player.soContainer|, d.stakeVerdict)
    ensures r.Some? ==>
      r.value.proposal == ProposalFor(gameType.urnType, player.score, player.urnSize, item.score, item.urnSize,
                                      r.value.result, r.value.expected, player.previousStake)
  {
    var sampled := gameType.DrawRule(player, item, d.outcomeDraws, d.expectedDraws);
    if sampled.None? {
      return None;
    }
    var result: Bit, expected: Bit := sampled.value.result, sampled.value.expected;
    var stake := gameType.CalculateStakes(player, d.stakeVerdict);
    var proposal := ProposalFor(gameType.urnType, player.score, player.urnSize, item.score, item.urnSize,
                                result, expected, player.previousStake);
    r := Some(Response(result, expected, proposal));
  }

  /**
   * The Metropolis step of urnings_game: the proposal is accepted when the
   * uniform `u` falls below `min(1, metropolis · adaptivity)`, a correction
   * that divides by zero counting as 1; an accepted proposal becomes the two
   * scores, with the estimates and the player's scaled score following.
   */
  method MetropolisStep(gameType: GameType, player: Player, item: Player, proposal: Proposal, sel: Selection, u: real)
    returns (accepted: bool)
    requires player != item && player.urnSize > 0 && item.urnSize > 0
    modifies player`score, player`scaledScore, player`est, item`score, item`est
    ensures accepted <==>
      u < Acceptance(MetropolisCorrection(gameType.alg, old(player.score), player.urnSize, old(item.score),
                                          item.urnSize, proposal.player, proposal.item),
                     gameType.AdaptivityFactor(sel.matrix, sel.counts, old(player.scaledScore), proposal.player,
                                               player.urnSize, old(item.score), proposal.item))
    ensures accepted ==>
      player.score == proposal.player && item.score == proposal.item &&
      player.est == Ratio(player.score, player.urnSize) && item.est == Ratio(item.score, item.urnSize) &&
      player.scaledScore == TruncDiv(player.score * gameType.maxUrn, player.urnSize)
    ensures !accepted ==>
      player.score == old(player.score) && item.score == old(item.score) && player.est == old(player.est) &&
      item.est == old(item.est) && player.scaledScore == old(player.scaledScore)
  {
    var metropolis := MetropolisCorrection(gameType.alg, player.score, player.urnSize, item.score, item.urnSize,
                                           proposal.player, proposal.item);
    var adaptivity := gameType.AdaptivityFactor(sel.matrix, sel.counts, player.scaledScore, proposal.player,
                                                player.urnSize, item.score, proposal.item);
    var acceptance := Acceptance(metropolis, adaptivity);
    accepted := u < acceptance;
    if accepted {
      player.score := proposal.player;
      player.scaledScore := TruncDiv(player.score * gameType.maxUrn, player.urnSize);
      item.score := proposal.item;
      player.est := Ratio(player.score, player.urnSize);
      item.est := Ratio(item.score, item.urnSize);
    }
  }

  /**
   * The saving section of urnings_game: the scores, estimates and score
   * differences after the paired update are appended to both entities'
   * histories.
   */
  method SaveMatch(player: Player, item: Player, playerDiff: int, itemDiff: int)
    requires player != item
    modifies player`container, player`estimateContainer, player`differentialContainer,
             item`container, item`estimateContainer, item`differentialContainer
    ensures player.container == old(player.container) + [player.score]
    ensures player.estimateContainer == old(player.estimateContainer) + [player.est]
    ensures player.differentialContainer == old(player.differentialContainer) + [playerDiff]
    ensures item.container == old(item.container) + [item.score]
    ensures item.estimateContainer == old(item.estimateContainer) + [item.est]
    ensures item.differentialContainer == old(item.differentialContainer) + [itemDiff]
  {
    player.container := player.container + [player.score];
    item.container := item.container + [item.score];
    player.estimateContainer := player.estimateContainer + [player.est];
    item.estimateContainer := item.estimateContainer + [item.est];
    player.differentialContainer := player.differentialContainer + [playerDiff];
    item.differentialContainer := item.differentialContainer + [itemDiff];
  }

  /**
   * The urn-change sections of urnings_game: the second-order urn is
   * updated and recorded, the player's urn size adapts, its scaled score
   * follows, and the urn sizes and the stake are recorded.
   */
  method AdaptPlayer(gameType: GameType, player: Player, item: Player, playerDiff: int, d: MatchDraws)
    requires gameType.WellFormed() && player != item && player.soUrnSize != 0
    requires 0 <= player.score <= player.urnSize && 0 < player.urnSize
    requires |player.urnContainer| > 0 && player.urnContainer[|player.urnContainer| - 1] == player.urnSize
    modifies player`soScore, player`soEst, player`soContainer, player`score, player`urnSize, player`est,
             player`scaledScore, player`urnContainer, player`stakesContainer, item`urnContainer
    ensures player.soScore == SecondOrderStep(old(player.soScore), playerDiff, Bernoulli(old(player.soEst), d.soU))
    ensures player.soEst == Ratio(player.soScore, player.soUrnSize)
    ensures player.soContainer == old(player.soContainer) + [player.soEst]
    ensures Urn(player.score, player.urnSize) ==
      gameType.UrnChange(Urn(old(player.score), old(player.urnSize)), player.differentialContainer,
                         old(player.urnContainer), |player.soContainer|, d.urnVerdict)
    ensures 0 <= player.score <= player.urnSize && 0 < player.urnSize
    ensures EstimateFollows(player)
    ensures player.scaledScore == TruncDiv(player.score * gameType.maxUrn, player.urnSize)
    ensures player.urnContainer == old(player.urnContainer) + [player.urnSize]
    ensures item.urnContainer == old(item.urnContainer) + [item.urnSize]
    ensures player.stakesContainer == old(player.stakesContainer) + [player.previousStake]
  {
    gameType.SecondOrderUrnings(player, playerDiff, d.soU);
    player.soContainer := player.soContainer + [player.soEst];
    ghost var before := Urn(player.score, player.urnSize);
    gameType.AdaptiveUrnChange(player, d.urnVerdict);
    assert Urn(player.score, player.urnSize) ==
      gameType.UrnChange(before, player.differentialContainer, old(player.urnContainer), |player.soContainer|,
                         d.urnVerdict);
    player.scaledScore := TruncDiv(player.score * gameType.maxUrn, player.urnSize);
    player.urnContainer := player.urnContainer + [player.urnSize];
    item.urnContainer := item.urnContainer + [item.urnSize];
    player.stakesContainer := player.stakesContainer + [player.previousStake];
  }

  /**
   * How the values of a match follow from the standing `s` before it and
   * the draws: the stake in use, the proposal of the mode's updating rule,
   * the Metropolis verdict and the clamped differences, which are 0 on
   * rejection.
   */
  ghost predicate TraceFollows(gameType: GameType, sel: Selection, s: Standing, d: MatchDraws, t: Trace)
    reads gameType`maxUrn
    requires gameType.WellFormed() && s.playerUrn > 0
  {
    var ps, pu, its, iu := s.playerScore, s.playerUrn, s.itemScore, s.itemUrn;
    t.stake == gameType.StakeInUse(s.stake, s.historyLength, s.soHistoryLength, d.stakeVerdict) &&
    t.proposal == ProposalFor(gameType.urnType, ps, pu, its, iu, t.result, t.expected, t.stake) &&
    (t.accepted <==>
       d.u < Acceptance(MetropolisCorrection(gameType.alg, ps, pu, its, iu, t.proposal.player, t.proposal.item),
                        gameType.AdaptivityFactor(sel.matrix, sel.counts, TruncDiv(ps * gameType.maxUrn, pu),
                                                  t.proposal.player, pu, its, t.proposal.item))) &&
    t.playerDiff == (if t.accepted then ClampDiff(t.proposal.player - ps) else 0) &&
    t.itemDiff == (if t.accepted then ClampDiff(t.proposal.item - its) else 0)
  }

  /**
   * The contest part of urnings_game: the responses, the stake and the
   * proposal, the Metropolis step and the clamped differences. None when
   * draw_rule stalled. `s` is the standing the match starts from.
   */
  method Contest(gameType: GameType, player: Player, item: Player, d: MatchDraws, sel: Selection, ghost s: Standing)
    returns (r: Option<Trace>)
    requires StandingOf(player, item) == s
    requires gameType.WellFormed() && player != item && player.Valid() && item.UrnValid()
    requires player.simY == Unset && player.simTrueY == Unset && item.simY == Unset && item.simTrueY == Unset
    requires player.scaledScore == TruncDiv(player.score * gameType.maxUrn, player.urnSize)
    modifies player`simY, player`simTrueY, player`est, player`previousStake, player`score, player`scaledScore,
             item`simY, item`simTrueY, item`est, item`score
    ensures r.None? ==> player.score == s.playerScore && item.score == s.itemScore && player.previousStake == s.stake
    ensures r.Some? ==> TraceFollows(gameType, sel, s, d, r.value)
    ensures r.Some? ==>
      player.previousStake == r.value.stake &&
      player.score == (if r.value.accepted then r.value.proposal.player else s.playerScore) &&
      item.score == (if r.value.accepted then r.value.proposal.item else s.itemScore)
    ensures r.Some? ==>
      player.Valid() && item.UrnValid() &&
      player.simY == Unset && player.simTrueY == Unset && item.simY == Unset && item.simTrueY == Unset &&
      player.scaledScore == TruncDiv(player.score * gameType.maxUrn, player.urnSize)
  {
    var response := Respond(gameType, player, item, d);
    if response.None? {
      return None;
    }
    var proposal := response.value.proposal;
    var playerPrev, itemPrev := player.score, item.score;
    var accepted := MetropolisStep(gameType, player, item, proposal, sel, d.u);
    var playerDiff := ClampDiff(player.score - playerPrev);
    var itemDiff := ClampDiff(item.score - itemPrev);
    r := Some(Trace(response.value.result, response.value.expected, player.previousStake, proposal, accepted,
                    playerDiff, itemDiff));
  }

  /** Contest, read against the past `past` of the two: the match resumes from it. */
  method Resume(gameType: GameType, player: Player, item: Player, d: MatchDraws, sel: Selection, ghost s: Standing,
                ghost past: Past)
    returns (r: Option<Trace>)
    requires StandingOf(player, item) == s && PastOf(player, item) == past
    requires gameType.WellFormed() && player != item && player.Valid() && item.UrnValid()
    requires player.simY == Unset && player.simTrueY == Unset && item.simY == Unset && item.simTrueY == Unset
    requires player.scaledScore == TruncDiv(player.score * gameType.maxUrn, player.urnSize)
    modifies player`simY, player`simTrueY, player`est, player`previousStake, player`score, player`scaledScore,
             item`simY, item`simTrueY, item`est, item`score
    ensures r.None? ==> player.score == s.playerScore && item.score == s.itemScore && player.previousStake == s.stake
    ensures r.Some? ==> TraceFollows(gameType, sel, s, d, r.value)
    ensures r.Some? ==> item.score == (if r.value.accepted then r.value.proposal.item else s.itemScore)
    ensures r.Some? ==>
      player.Valid() && item.UrnValid() &&
      player.simY == Unset && player.simTrueY == Unset && item.simY == Unset && item.simTrueY == Unset &&
      player.scaledScore == TruncDiv(player.score * gameType.maxUrn, player.urnSize)
    ensures r.Some? ==> Resumes(player, item, r.value, past)
  {
    r := Contest(gameType, player, item, d, sel, s);
  }

  /**
   * Contest, for a player outside the list `items` of settled items that
   * holds `item`: the match resumes from the past `past` and the items stay
   * settled.
   */
  method Contend(gameType: GameType, player: Player, item: Player, d: MatchDraws, sel: Selection, ghost s: Standing,
                 ghost past: Past, ghost items: seq<Player>, ghost itemUrn: int, ghost scores: seq<int>)
    returns (r: Option<Trace>)
    requires StandingOf(player, item) == s && PastOf(player, item) == past && Scores(items) == scores
    requires item in items && player !in items && AllItemsSettled(items, itemUrn)
    requires gameType.WellFormed() && player != item && player.Valid() && item.UrnValid()
    requires player.simY == Unset && player.simTrueY == Unset && item.simY == Unset && item.simTrueY == Unset
    requires player.scaledScore == TruncDiv(player.score * gameType.maxUrn, player.urnSize)
    modifies player`simY, player`simTrueY, player`est, player`previousStake, player`score, player`scaledScore,
             item`simY, item`simTrueY, item`est, item`score
    ensures r.None? ==>
      player.score == s.playerScore && player.previousStake == s.stake && Scores(items) == scores
    ensures r.Some? ==> TraceFollows(gameType, sel, s, d, r.value)
    ensures r.Some? ==>
      player.Valid() && item.UrnValid() &&
      player.simY == Unset && player.simTrueY == Unset && item.simY == Unset && item.simTrueY == Unset &&
      player.scaledScore == TruncDiv(player.score * gameType.maxUrn, player.urnSize)
    ensures r.Some? ==> Resumes(player, item, r.value, past)
    ensures r.Some? ==> AllItemsSettled(items, itemUrn)
    ensures r.Some? ==> forall k :: 0 <= k < |items| && items[k] != item ==> items[k].score == scores[k]
  {
    r := Resume(gameType, player, item, d, sel, s, past);
  }

  /**
   * The state after the Metropolis step of a match against `past` whose
   * trace is `trace`: the player holds the accepted score or its old one,
   * staked the trace's stake, and nothing else of the record changed yet.
   */
  ghost predicate Resumes(player: Player, item: Player, trace: Trace, past: Past)
    reads player`score, player`urnSize, player`soScore, player`soEst, player`previousStake, player`container,
          player`estimateContainer, player`differentialContainer, player`urnContainer, player`soContainer,
          player`stakesContainer, item`container, item`estimateContainer, item`differentialContainer,
          item`urnContainer, item`soContainer, item`stakesContainer
  {
    player.score == (if trace.accepted then trace.proposal.player else past.score) &&
    player.urnSize == past.urnSize && player.soScore == past.soScore && player.soEst == past.soEst &&
    player.previousStake == trace.stake && player.Histories() == past.history &&
    item.Histories() == past.itemHistory
  }

  /**
   * What a played match against `past` leaves of the player: the histories
   * grew by the match's record, the second-order urn took its step, the urn
   * adapted, the stake is the one staked, and the player is ready for the
   * next match.
   */
  ghost predicate PlayerRecorded(gameType: GameType, player: Player, trace: Trace, d: MatchDraws, past: Past)
    reads gameType`maxUrn, player
    requires gameType.WellFormed()
  {
    var ps, pu, ph, so, soEst, urns := past.score, past.urnSize, past.history, past.soScore, past.soEst,
                                       past.history.urns;
    var kept := if trace.accepted then trace.proposal.player else ps;
    pu > 0 &&
    player.Histories() ==
      ph.Then(kept, Ratio(kept, pu), trace.playerDiff, player.urnSize, Some(player.soEst), Some(trace.stake)) &&
    player.soScore == SecondOrderStep(so, trace.playerDiff, Bernoulli(soEst, d.soU)) &&
    (gameType.adaptiveUrn && gameType.urnType == UrnType.SecondOrderUrnings ==> |urns| > 0) &&
    Urn(player.score, player.urnSize) ==
      gameType.UrnChange(Urn(kept, pu), player.differentialContainer, urns, |player.soContainer|, d.urnVerdict) &&
    player.previousStake == trace.stake &&
    player.Valid() && player.simY == Unset && player.simTrueY == Unset &&
    player.scaledScore == TruncDiv(player.score * gameType.maxUrn, player.urnSize)
  }

  /**
   * The saving and urn-change sections of urnings_game, after the bin
   * rebuild, for a match against the past `past` whose trace is `trace`.
   */
  method Record(gameType: GameType, player: Player, item: Player, trace: Trace, d: MatchDraws, ghost past: Past)
    requires gameType.WellFormed() && player != item && player.Valid()
    requires player.simY == Unset && player.simTrueY == Unset
    requires -1 <= trace.playerDiff <= 1 && 0.0 <= d.soU < 1.0
    requires Resumes(player, item, trace, past)
    modifies player`container, player`estimateContainer, player`differentialContainer, player`soScore,
             player`soEst, player`soContainer, player`score, player`urnSize, player`est, player`scaledScore,
             player`urnContainer, player`stakesContainer,
             item`container, item`estimateContainer, item`differentialContainer, item`urnContainer
    ensures PlayerRecorded(gameType, player, trace, d, past)
    ensures item.Histories() == past.itemHistory.Then(item.score, item.est, trace.itemDiff, item.urnSize, None, None)
  {
    SaveMatch(player, item, trace.playerDiff, trace.itemDiff);
    SecondOrderStaysInUrn(player.soScore, player.soUrnSize, trace.playerDiff, d.soU);
    AdaptPlayer(gameType, player, item, trace.playerDiff, d);
  }

  /**
   * Record, for items booked as ItemsBooked says, which the recording
   * leaves as they are.
   */
  method RecordBooked(gameType: GameType, player: Player, item: Player, trace: Trace, d: MatchDraws, ghost past: Past,
                      ghost items: seq<Player>, ghost itemUrn: int, ghost queueNeg: map<string, int>,
                      ghost queuePos: map<string, int>, ghost bins: map<int, seq<Player>>)
    requires gameType.WellFormed() && player != item && player.Valid() && player !in items
    requires ItemsBooked(items, itemUrn, queueNeg, queuePos, bins)
    requires player.simY == Unset && player.simTrueY == Unset
    requires -1 <= trace.playerDiff <= 1 && 0.0 <= d.soU < 1.0
    requires Resumes(player, item, trace, past)
    modifies player`container, player`estimateContainer, player`differentialContainer, player`soScore,
             player`soEst, player`soContainer, player`score, player`urnSize, player`est, player`scaledScore,
             player`urnContainer, player`stakesContainer,
             item`container, item`estimateContainer, item`differentialContainer, item`urnContainer
    ensures MatchRecorded(gameType, items, itemUrn, player, item, trace, d, past, queueNeg, queuePos, bins)
  {
    Record(gameType, player, item, trace, d, past);
  }

  /**
   * What a played match against `past` leaves behind: the player as
   * PlayerRecorded says, the item's histories grown by its record, the items
   * ready for the next match, the queues covering the item ids and every
   * item binned under its score.
   */
  ghost predicate MatchRecorded(gameType: GameType, items: seq<Player>, itemUrn: int, player: Player, item: Player,
                                trace: Trace, d: MatchDraws, past: Past, queueNeg: map<string, int>,
                                queuePos: map<string, int>, bins: map<int, seq<Player>>)
    reads gameType`maxUrn, player, item
    reads items`urnSize, items`est, items`score, items`simY, items`simTrueY, items`idx
    requires gameType.WellFormed()
  {
    PlayerRecorded(gameType, player, trace, d, past) &&
    item.Histories() == past.itemHistory.Then(item.score, item.est, trace.itemDiff, item.urnSize, None, None) &&
    ItemsBooked(items, itemUrn, queueNeg, queuePos, bins)
  }

  /**
   * The items between matches: all ready, the queues covering their ids and
   * every item binned under its score in `bins`.
   */
  ghost predicate ItemsBooked(items: seq<Player>, itemUrn: int, queueNeg: map<string, int>,
                              queuePos: map<string, int>, bins: map<int, seq<Player>>)
    reads items`urnSize, items`est, items`score, items`simY, items`simTrueY, items`idx
  {
    AllItemsReady(items, itemUrn) && QueuesCover(Ids(items), queuePos, queueNeg) && itemUrn >= 0 &&
    bins == BinIndex(items, Scores(items), itemUrn)
  }

  /**
   * The part of urnings_game after the Metropolis step: paired_update on the
   * queues and the bin rebuild, then, when the rebuild succeeded (`ok`), the
   * saving and urn-change sections, for a match against the past `past`
   * whose trace is `trace`.
   */
  method Conclude(gameType: GameType, items: seq<Player>, itemUrn: nat, player: Player, item: Player, trace: Trace,
                  d: MatchDraws, ghost past: Past, ghost scores: seq<int>, queueNeg: map<string, int>,
                  queuePos: map<string, int>)
    returns (status: Status, newNeg: map<string, int>, newPos: map<string, int>, bins: map<int, seq<Player>>)
    requires gameType.WellFormed() && itemUrn > 0 && DrawsOk(d) && -1 <= trace.playerDiff <= 1
    requires player.Valid() && player.simY == Unset && player.simTrueY == Unset
    requires player.scaledScore == TruncDiv(player.score * gameType.maxUrn, player.urnSize)
    requires item in items && player !in items
    requires AllItemsSettled(items, itemUrn)
    requires Distinct(Ids(items)) && QueuesCover(Ids(items), queuePos, queueNeg)
    requires Resumes(player, item, trace, past)
    requires |scores| == |items| && forall k :: 0 <= k < |items| && items[k] != item ==> items[k].score == scores[k]
    modifies items`score, items`est,
             player`container, player`estimateContainer, player`differentialContainer, player`soScore,
             player`soEst, player`soContainer, player`score, player`urnSize, player`est, player`scaledScore,
             player`urnContainer, player`stakesContainer,
             item`container, item`estimateContainer, item`differentialContainer, item`urnContainer
    ensures QueueStep(queueNeg, queuePos, newNeg, newPos, PairedActs(gameType.pairedUpdate, trace.itemDiff))
    ensures !PairedActs(gameType.pairedUpdate, trace.itemDiff) ==>
      forall k :: 0 <= k < |items| && items[k] != item ==> items[k].score == scores[k]
    ensures status != Stalled
    ensures status == BinKeyError ==> exists k :: 0 <= k < |items| && !(0 <= items[k].score <= itemUrn)
    ensures status == Played ==>
      MatchRecorded(gameType, items, itemUrn, player, item, trace, d, past, newNeg, newPos, bins)
  {
    newNeg, newPos := Settle(gameType, item, items, trace.itemDiff, queueNeg, queuePos, d.picks, itemUrn);
    var ok;
    ok, bins := Rebin(items, itemUrn);
    status := if ok then Played else BinKeyError;
    if ok {
      assert forall k :: 0 <= k < |items| ==> ItemReady(items[k], k, itemUrn);
      RecordBooked(gameType, player, item, trace, d, past, items, itemUrn, newNeg, newPos, bins);
    }
  }

  /**
   * What a consistent orchestrator gives a match between its `player` and its
   * `item`: the player is ready at its position `p`, outside the items, and
   * the items are settled with the item's score in its urn.
   */
  lemma ReadyToPlay(players: seq<Player>, items: seq<Player>, gameType: GameType, itemUrn: int,
                    matrix: seq<seq<real>>, queuePos: map<string, int>, queueNeg: map<string, int>,
                    itemBins: map<int, seq<Player>>, player: Player, item: Player) returns (p: nat)
    requires Consistent(players, items, gameType, itemUrn, matrix, queuePos, queueNeg, itemBins)
    requires player in players && item in items
    ensures p < |players| && players[p] == player && PlayerReady(player, p, gameType.maxUrn)
    ensures player !in items && AllItemsSettled(items, itemUrn) && 0 <= item.score <= itemUrn
    ensures forall k :: 0 <= k < |players| ==> players[k] !in items && PlayerReady(players[k], k, gameType.maxUrn)
    ensures forall k :: 0 <= k < |players| && k != p ==> players[k] != player
  {
    p :| 0 <= p < |players| && players[p] == player;
    assert forall k :: 0 <= k < |players| ==> players[k] !in items;
    var i :| 0 <= i < |items| && items[i] == item;
    assert AllItemsSettled(items, itemUrn) by {
      forall k | 0 <= k < |items|
        ensures ItemSettled(items[k], k, itemUrn)
      {
        assert ItemReady(items[k], k, itemUrn);
      }
    }
    assert ItemReady(items[i], i, itemUrn);
  }

  /**
   * A consistent orchestrator after a played match: the layout is unchanged,
   * every player is ready again and the items are booked anew.
   */
  lemma StillConsistent(players: seq<Player>, items: seq<Player>, gameType: GameType, itemUrn: int,
                        matrix: seq<seq<real>>, queuePos: map<string, int>, queueNeg: map<string, int>,
                        itemBins: map<int, seq<Player>>, p: nat)
    requires Shaped(players, items, gameType, itemUrn, matrix) && p < |players|
    requires forall k :: 0 <= k < |players| && k != p ==> PlayerReady(players[k], k, gameType.maxUrn)
    requires PlayerReady(players[p], p, gameType.maxUrn)
    requires ItemsBooked(items, itemUrn, queueNeg, queuePos, itemBins)
    ensures Consistent(players, items, gameType, itemUrn, matrix, queuePos, queueNeg, itemBins)
  {
    assert AllPlayersReady(players, gameType.maxUrn) by {
      forall k | 0 <= k < |players|
        ensures PlayerReady(players[k], k, gameType.maxUrn)
      {
        if k == p {
          assert PlayerReady(players[p], p, gameType.maxUrn);
        }
      }
    }
  }

  /** g whole games of `per` matches and `pl < per` more count g games, and g < n games leave room for one more. */
  lemma GamesDone(g: nat, per: nat, pl: nat, n: nat)
    requires pl < per && g <= n
    ensures (g * per + pl) / per == g
    ensures g < n ==> g * per + per <= n * per
    ensures (g + 1) * per == g * per + per
  {
    var x := g * per + pl;
    var q := x / per;
    if q > g {
      AtLeastOnce(q - g, per);
      assert false;
    }
    if q < g {
      AtLeastOnce(g - q, per);
      assert false;
    }
    if g < n {
      AtLeastOnce(n - g, per);
      assert n * per == g * per + (n - g) * per;
    }
  }

  /** At least one copy of b is at least b. */
  lemma {:induction false} AtLeastOnce(a: int, b: nat)
    requires a >= 1
    ensures a * b >= b
    decreases a
  {
    if a > 1 {
      AtLeastOnce(a - 1, b);
      assert a * b == (a - 1) * b + b;
    }
  }

  /**
   * The second loop of adaptive matchmaking: the positions of the items,
   * bin by bin. `labels` names the bin of each position, which is the
   * score of the item there.
   */
  method IdList(items: seq<Player>, itemBins: map<int, seq<Player>>, itemUrn: nat, ghost scores: seq<int>)
    returns (ids: seq<nat>, ghost labels: seq<int>)
    requires scores == Scores(items) && itemBins == BinIndex(items, scores, itemUrn)
    requires forall k :: 0 <= k < |items| ==> items[k].idx == Some(k)
    ensures labels == BinLabels(BinCounts(itemBins, itemUrn)) && |ids| == |labels|
    ensures forall j :: 0 <= j < |ids| ==> ids[j] < |items| && scores[ids[j]] == labels[j]
  {
    ghost var counts := BinCounts(itemBins, itemUrn);
    labels := [];
    ids := [];
    for b := 0 to itemUrn + 1
      invariant |ids| == |labels| && labels == BinLabels(counts[..b])
      invariant forall j :: 0 <= j < |ids| ==> ids[j] < |items| && scores[ids[j]] == labels[j]
    {
      var bin := itemBins[b];
      ids, labels := AppendPositions(items, scores, b, bin, ids, labels);
      BinLabelsSnoc(counts, b);
    }
    assert counts[..itemUrn + 1] == counts;
  }

  /** The inner loop of the position list: the positions of bin `b`'s items, appended in bin order. */
  method AppendPositions(items: seq<Player>, ghost scores: seq<int>, b: int, bin: seq<Player>,
                         ids: seq<nat>, ghost labels: seq<int>)
    returns (ids': seq<nat>, ghost labels': seq<int>)
    requires scores == Scores(items) && bin == Bin(items, scores, b)
    requires forall k :: 0 <= k < |items| ==> items[k].idx == Some(k)
    requires |ids| == |labels|
    requires forall j :: 0 <= j < |ids| ==> ids[j] < |items| && scores[ids[j]] == labels[j]
    ensures labels' == labels + seq(|bin|, _ => b) && |ids'| == |labels'|
    ensures forall j :: 0 <= j < |ids'| ==> ids'[j] < |items| && scores[ids'[j]] == labels'[j]
  {
    ids', labels' := ids, labels;
    for c := 0 to |bin|
      invariant |ids'| == |labels'| && labels' == labels + seq(c, _ => b)
      invariant forall j :: 0 <= j < |ids'| ==> ids'[j] < |items| && scores[ids'[j]] == labels'[j]
    {
      BinEntry(items, scores, b, c);
      assert seq(c, _ => b) + [b] == seq(c + 1, _ => b);
      ids' := ids' + [bin[c].idx.value];
      labels' := labels' + [b];
    }
  }

  /** An entry of bin `b` carries the position of an item whose score is `b`. */
  lemma BinEntry(items: seq<Player>, scores: seq<int>, b: int, c: nat)
    requires scores == Scores(items)
    requires forall k :: 0 <= k < |items| ==> items[k].idx == Some(k)
    requires c < |Bin(items, scores, b)|
    ensures Bin(items, scores, b)[c].idx.Some? && Bin(items, scores, b)[c].idx.value < |items|
    ensures scores[Bin(items, scores, b)[c].idx.value] == b
  {
    BinMembers(items, scores, b, c);
    var k :| 0 <= k < |items| && items[k] == Bin(items, scores, b)[c] && scores[k] == b;
    assert items[k].idx == Some(k);
  }


  /**
   * The body of urnings_game on the facts about `player`, `item` and the
   * items that a valid orchestrator gives, with the queues passed in and
   * the new queues and bins handed back. Stalled: a rejection loop of
   * draw_rule ran out of draws before any score, stake or queue changed.
   * BinKeyError: the bin rebuild met an item whose score left its urn.
   * Otherwise the trace follows from the old scores and the draws;
   * paired_update changed at most one queue entry, and nothing at all when
   * it is off or the item's score did not move; and on success both
   * histories grew by one record, the player's urn adapted, and the player
   * and the items are ready for the next match.
   */
  method PlayMatch(gameType: GameType, items: seq<Player>, itemUrn: nat, player: Player, item: Player,
                   d: MatchDraws, sel: Selection, queueNeg: map<string, int>, queuePos: map<string, int>,
                   itemBins: map<int, seq<Player>>, ghost s: Standing, ghost past: Past, ghost scores: seq<int>,
                   ghost players: seq<Player>, ghost p: nat)
    returns (status: Status, trace: Trace, newNeg: map<string, int>, newPos: map<string, int>,
             bins: map<int, seq<Player>>)
    requires gameType.WellFormed() && itemUrn > 0 && DrawsOk(d)
    requires player.Valid() && player.simY == Unset && player.simTrueY == Unset
    requires player.scaledScore == TruncDiv(player.score * gameType.maxUrn, player.urnSize)
    requires StandingOf(player, item) == s && PastOf(player, item) == past && Scores(items) == scores
    requires item in items && player !in items
    requires AllItemsSettled(items, itemUrn) && 0 <= item.score <= itemUrn
    requires Distinct(Ids(items)) && QueuesCover(Ids(items), queuePos, queueNeg)
    requires forall k :: 0 <= k < |players| && k != p ==>
      players[k] != player && players[k] !in items && PlayerReady(players[k], k, gameType.maxUrn)
    modifies items`score, items`est, player, item
    ensures forall k :: 0 <= k < |players| && k != p ==> PlayerReady(players[k], k, gameType.maxUrn)
    ensures player.idx == old(player.idx)
    ensures status == Stalled ==>
      player.score == s.playerScore && player.urnSize == past.urnSize && player.previousStake == s.stake &&
      Scores(items) == scores &&
      newNeg == queueNeg && newPos == queuePos && bins == itemBins
    ensures status == BinKeyError ==> exists k :: 0 <= k < |items| && !(0 <= items[k].score <= itemUrn)
    ensures status != Stalled ==> TraceFollows(gameType, sel, s, d, trace)
    ensures status != Stalled ==>
      QueueStep(queueNeg, queuePos, newNeg, newPos, PairedActs(gameType.pairedUpdate, trace.itemDiff))
    ensures status != Stalled && !PairedActs(gameType.pairedUpdate, trace.itemDiff) ==>
      forall k :: 0 <= k < |items| && items[k] != item ==> items[k].score == scores[k]
    ensures status == Played ==>
      MatchRecorded(gameType, items, itemUrn, player, item, trace, d, past, newNeg, newPos, bins)
  {
    var contest := Contend(gameType, player, item, d, sel, s, past, items, itemUrn, scores);
    if contest.None? {
      return Stalled, Trace(0, 0, 0, Proposal(0, 0), false, 0, 0), queueNeg, queuePos, itemBins;
    }
    trace := contest.value;
    status, newNeg, newPos, bins := Conclude(gameType, items, itemUrn, player, item, trace, d, past, scores,
                                             queueNeg, queuePos);
  }

  class Urnings {
    const players: seq<Player>
    const items: seq<Player>
    const gameType: GameType
    /** The urn size of the first item, which fixes the bins. */
    const itemUrn: int
    /** `adaptive_matrix_binned`: row p, column i holds the selection weight of item score i for scaled score p. */
    const matrix: seq<seq<real>>
    var queuePos: map<string, int>
    var queueNeg: map<string, int>
    /** `item_bins`, keyed by score. */
    var itemBins: map<int, seq<Player>>
    var gameCount: nat

    /** Both queues hold a count of at least 0 for every item id and for nothing else. */
    ghost predicate QueuesValid()
      reads this`queuePos, this`queueNeg
    {
      QueuesCover(Ids(items), queuePos, queueNeg)
    }

    /**
     * The state between two matches. Players and items are told apart by
     * their positions `idx`, so neither list repeats an entity; no entity is
     * both a player and an item; item ids are unique; and every item sits in
     * the bin of its score.
     */
    ghost predicate Valid()
      reads this`queuePos, this`queueNeg, this`itemBins, gameType`maxUrn
      reads players`score, players`urnSize, players`est, players`soScore, players`soEst, players`previousStake,
            players`urnContainer, players`simY, players`simTrueY, players`idx, players`scaledScore
      reads items`urnSize, items`est, items`score, items`simY, items`simTrueY, items`idx
    {
      Consistent(players, items, gameType, itemUrn, matrix, queuePos, queueNeg, itemBins)
    }

    /**
     * `Urnings(players, items, game_type)`: numbers the players and the items,
     * starts both queues at 0 for every item, fixes `maxUrn` to the first
     * player's urn when urn sizes do not adapt, scales every player's score,
     * tabulates the selection kernel and bins the items. The kernel is given
     * as a function.
     */
    constructor (players: seq<Player>, items: seq<Player>, gameType: GameType, kernel: (int, int) -> real)
      requires |players| > 0 && |items| > 0 && items[0].urnSize > 0
      requires gameType.WellFormed() && (gameType.adaptiveUrn ==> gameType.maxUrn >= 0)
      requires forall k :: 0 <= k < |players| ==>
        players[k].Valid() && players[k].simY == Unset && players[k].simTrueY == Unset
      requires forall k :: 0 <= k < |items| ==>
        items[k].UrnValid() && items[k].urnSize == items[0].urnSize &&
        items[k].simY == Unset && items[k].simTrueY == Unset
      requires Distinct(players) && Distinct(items) && Distinct(Ids(items))
      requires forall j :: 0 <= j < |items| ==> items[j] !in players
      modifies players`idx, players`scaledScore, items`idx, gameType`maxUrn
      ensures Valid()
      ensures this.players == players && this.items == items && this.gameType == gameType
      ensures itemUrn == items[0].urnSize
      ensures gameType.maxUrn == if gameType.adaptiveUrn then old(gameType.maxUrn) else players[0].urnSize
      ensures forall p, i :: 0 <= p < |matrix| && 0 <= i <= itemUrn ==> matrix[p][i] == kernel(p, i)
      ensures AllZero(queuePos) && AllZero(queueNeg)
      ensures gameCount == 0
      ensures forall k :: 0 <= k < |players| ==>
        players[k].score == old(players[k].score) && players[k].urnSize == old(players[k].urnSize)
      ensures forall k :: 0 <= k < |items| ==>
        items[k].score == old(items[k].score) && items[k].urnSize == old(items[k].urnSize)
    {
      var n, table, pos, neg, bins := Setup(players, items, gameType, kernel);
      this.players := players;
      this.items := items;
      this.gameType := gameType;
      itemUrn := n;
      matrix := table;
      queuePos := pos;
      queueNeg := neg;
      itemBins := bins;
      gameCount := 0;
    }

    /** After a successful rebuild every item sits in the bin of its score, once, and in no other bin. */
    lemma BinnedOnce(k: nat)
      requires Valid() && k < |items|
      ensures forall b :: b in itemBins ==> (items[k] in itemBins[b] <==> b == items[k].score)
      ensures Distinct(itemBins[items[k].score])
    {
      assert ItemReady(items[k], k, itemUrn);
      assert Distinct(items) by {
        forall i, j | 0 <= i < j < |items|
          ensures items[i] != items[j]
        {
          assert ItemReady(items[i], i, itemUrn) && ItemReady(items[j], j, itemUrn);
        }
        PairwiseDistinct(items);
      }
      EachInOneBin(items, Scores(items), itemUrn, k);
    }

    /**
     * The two lists adaptive matchmaking builds for `player`: the weights,
     * bin by bin, each bin's kernel entry repeated once per binned item, and
     * the positions of the binned items in the same order. Both list every
     * item, and each position's weight is the kernel entry of the player's
     * scaled score and that item's score.
     */
    method SelectionLists(player: Player) returns (weights: seq<real>, ids: seq<nat>)
      requires Valid() && player in players
      ensures |weights| == |ids| == |items|
      ensures forall j :: 0 <= j < |ids| ==> ids[j] < |items|
      ensures forall j :: 0 <= j < |ids| ==>
        0 <= player.scaledScore < |matrix| && weights[j] == matrix[player.scaledScore][items[ids[j]].score]
    {
      var p :| 0 <= p < |players| && players[p] == player;
      assert PlayerReady(players[p], p, gameType.maxUrn);
      ScaledInRange(player.score, player.urnSize, gameType.maxUrn);
      var counts := BinCounts(itemBins, itemUrn);
      ghost var labels, labels';
      weights, labels := WeightList(matrix[player.scaledScore], counts);
      assert forall k :: 0 <= k < |items| ==> ItemReady(items[k], k, itemUrn);
      ids, labels' := IdList(items, itemBins, itemUrn, Scores(items));
      BinLabelsLength(counts);
      BinCountsTotal(items, Scores(items), itemUrn);
    }

    /**
     * `matchmaking`: the player at `playerPick`; without adaptivity the item
     * at `itemPick`, with adaptivity the item at position `itemPick` of the
     * selection list (the weighted draw itself is an input).
     */
    method Matchmaking(playerPick: nat, itemPick: nat) returns (player: Player, item: Player)
      requires Valid() && playerPick < |players| && itemPick < |items|
      ensures player == players[playerPick] && item in items
      ensures gameType.adaptivity == NonAdaptive ==> item == items[itemPick]
    {
      player := players[playerPick];
      if gameType.adaptivity == NonAdaptive {
        item := items[itemPick];
      } else {
        var weights, ids := SelectionLists(player);
        item := items[ids[itemPick]];
      }
    }
    /**
     * The orchestrator takes over the queues and the bins a match left
     * behind; after a played match it is valid again.
     */
    method Adopt(neg: map<string, int>, pos: map<string, int>, bins: map<int, seq<Player>>, ghost played: bool)
      requires played ==> Consistent(players, items, gameType, itemUrn, matrix, pos, neg, bins)
      modifies this`queueNeg, this`queuePos, this`itemBins
      ensures queueNeg == neg && queuePos == pos && itemBins == bins
      ensures !played || Valid()
    {
      queueNeg, queuePos, itemBins := neg, pos, bins;
    }

    /**
     * `urnings_game`: one match between `player` and `item`. draw_rule gives
     * the observed and the expected result; the stake rule and the updating
     * rule give a proposal; the Metropolis step accepts or rejects it; the
     * clamped differences drive paired_update; the items are binned anew; the
     * histories are appended; the second-order urn and the urn size adapt.
     * The outcome is that of PlayMatch on the orchestrator's queues and bins,
     * and a played match leaves the orchestrator valid.
     */
    method UrningsGame(player: Player, item: Player, d: MatchDraws) returns (status: Status, trace: Trace)
      requires Valid() && player in players && item in items && DrawsOk(d)
      modifies this`queuePos, this`queueNeg, this`itemBins, items`score, items`est, player, item
      ensures status != Played || Valid()
      ensures status == Stalled ==>
        player.score == old(player.score) && player.urnSize == old(player.urnSize) &&
        player.previousStake == old(player.previousStake) &&
        Scores(items) == old(Scores(items)) &&
        queuePos == old(queuePos) && queueNeg == old(queueNeg) && itemBins == old(itemBins)
      ensures status != Stalled ==>
        TraceFollows(gameType, Selection(matrix, old(BinCounts(itemBins, itemUrn))), old(StandingOf(player, item)), d,
                     trace)
      ensures status != Stalled ==>
        QueueStep(old(queueNeg), old(queuePos), queueNeg, queuePos, PairedActs(gameType.pairedUpdate, trace.itemDiff))
    {
      ghost var p := ReadyToPlay(players, items, gameType, itemUrn, matrix, queuePos, queueNeg, itemBins, player, item);
      ghost var s := StandingOf(player, item);
      var sel := Selection(matrix, BinCounts(itemBins, itemUrn));
      var neg, pos, bins;
      status, trace, neg, pos, bins := PlayMatch(gameType, items, itemUrn, player, item, d, sel, queueNeg, queuePos,
                                                 itemBins, s, PastOf(player, item), Scores(items), players, p);
      if status == Played {
        assert PlayerReady(players[p], p, gameType.maxUrn);
        StillConsistent(players, items, gameType, itemUrn, matrix, pos, neg, bins, p);
      }
      Adopt(neg, pos, bins, status == Played);
    }

    /** The rounds of play fit the roster: picks in range and well-formed draws. */
    predicate RoundsOk(rounds: seq<Round>)
    {
      forall k :: 0 <= k < |rounds| ==>
        rounds[k].playerPick < |players| && rounds[k].itemPick < |items| && DrawsOk(rounds[k].draws)
    }

    /** The matches one game of `play` holds: every player once in test mode, one match otherwise. */
    function PerGame(test: bool): (m: nat)
      requires |players| > 0
      ensures m >= 1 && (test ==> m == |players|)
    {
      if test then |players| else 1
    }

    /** One match of `play`: matchmaking for the player at `playerPick`, then urnings_game. */
    method MatchUp(playerPick: nat, round: Round) returns (status: Status)
      requires Valid() && playerPick < |players| && round.itemPick < |items| && DrawsOk(round.draws)
      modifies this`queuePos, this`queueNeg, this`itemBins, players, items
      ensures status != Played || Valid()
    {
      var player, item := Matchmaking(playerPick, round.itemPick);
      var trace;
      status, trace := UrningsGame(player, item, round.draws);
    }

    /** `self.game_count += 1`, which leaves the orchestrator as valid as it was. */
    method CountGame()
      requires Valid()
      modifies this`gameCount
      ensures gameCount == old(gameCount) + 1
      ensures Valid()
    {
      gameCount := gameCount + 1;
    }

    /**
     * One game of `play`, on the rounds from `start` on: in test mode one
     * match for every player in turn, otherwise one match for the drawn
     * player; it stops at the first match
     * that does not finish. `matches` counts the finished matches; a finished
     * game adds one to the game count.
     */
    method PlayGame(test: bool, rounds: seq<Round>, start: nat) returns (status: Status, matches: nat)
      requires Valid() && RoundsOk(rounds) && start + PerGame(test) <= |rounds|
      modifies this`queuePos, this`queueNeg, this`itemBins, this`gameCount, players, items
      ensures status == Played <==> matches == PerGame(test)
      ensures matches <= PerGame(test)
      ensures gameCount == old(gameCount) + (if status == Played then 1 else 0)
      ensures status != Played || Valid()
    {
      status, matches := Played, 0;
      if test {
        for pl := 0 to |players|
          invariant matches == pl && gameCount == old(gameCount)
          invariant status == Played && Valid()
        {
          status := MatchUp(pl, rounds[start + pl]);
          if status != Played {
            return;
          }
          matches := matches + 1;
        }
      } else {
        status := MatchUp(rounds[start].playerPick, rounds[start]);
        if status != Played {
          return;
        }
        matches := 1;
      }
      CountGame();
    }

    /**
     * `play(n_games, test)`: n games of PlayGame, the game count growing by
     * one per game. `rounds` holds the picks and the draws of the matches in
     * order. Play stops at the first match that does not finish: a KeyError
     * of paired_update ends the run, and a match whose draws ran out ends it
     * as well. `matches` counts the finished matches.
     */
    method Play(n: nat, test: bool, rounds: seq<Round>) returns (status: Status, matches: nat)
      requires Valid() && RoundsOk(rounds) && |rounds| >= n * PerGame(test)
      modifies this`queuePos, this`queueNeg, this`itemBins, this`gameCount, players, items
      ensures status == Played <==> matches == n * PerGame(test)
      ensures matches <= n * PerGame(test)
      ensures status == Played ==> gameCount == old(gameCount) + n
      ensures status != Played ==> gameCount == old(gameCount) + matches / PerGame(test)
      ensures status != Played || Valid()
    {
      var per := PerGame(test);
      status, matches := Played, 0;
      var g := 0;
      while g < n
        invariant 0 <= g <= n && matches == g * per
        invariant gameCount == old(gameCount) + g
        invariant status == Played
        invariant status != Played || Valid()
      {
        GamesDone(g, per, 0, n);
        var played;
        status, played := PlayGame(test, rounds, matches);
        if status != Played {
          GamesDone(g, per, played, n);
          matches := matches + played;
          return;
        }
        assert matches + played == (g + 1) * per;
        matches := matches + played;
        g := g + 1;
      }
      GamesDone(n, per, 0, n);
    }
  }
}

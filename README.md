# Urnings rating engine, modelled in Dafny

Urnings is an adaptive rating system for learners ("players") and exercises
("items"). Every entity holds `score` green balls in an urn of `urn_size`
balls; its rating estimate is `score / urn_size`. A match between a player
and an item:

1. draws an observed and an expected result by rejection sampling (`draw_rule`);
2. proposes new scores with or without stakes;
3. accepts or rejects the proposal with a Metropolis step;
4. clamps the score differences to {-1, 0, 1};
5. may move one ball between items to keep the item pool balanced (`paired_update`);
6. rebuilds the index of items by score (`item_bins`);
7. appends one record to each history;
8. adapts the player's second-order urn, its stake and its urn size.

`play` repeats this for a number of games.

This project models that engine on integers, sequences, maps and classes:

- `numerics.dfy` (module `Numerics`): shared arithmetic. It covers Bernoulli draws decided by an injected uniform number, `randint` as `floor(u * n)`, numpy's round-half-to-even and Python's truncating `int(a / b)`.
- `rules.dfy` (module `GameRules`): the pure rules of `Game_Type.py`. These are the updating rules, the Metropolis correction, the stake and urn-size rules, the rejection sampler and the candidate choice of `paired_update`.
- `agents.dfy` (module `Agents`): the entity `Player`, a class whose fields the engine updates in place.
- `game_type.dfy` (module `GameTypes`): the class `GameType`. Its methods apply the rules to players and items in place.
- `bins.dfy` (module `Bins`): the item-bin index as a function of the scores, with its lemmas.
- `urnings.dfy` (module `Orchestrator`): the class `Urnings`. It holds the roster, the two paired-update queues, the bin index, the match (`urnings_game`), `matchmaking` and `play`.

Randomness is an input. A `MatchDraws` value carries the uniform numbers, permutation-test outcomes and control-draw outcomes one match consumes. A `Round` adds the matchmaking picks. `play` takes a sequence of rounds.

The central invariant is `Urnings.Valid`. It holds after construction and after every played match, and it says:

- every player and item urn is valid (`0 <= score <= urn_size`);
- every estimate equals `score / urn_size`;
- every player's second-order urn is valid;
- every player's stake is at least 1;
- both queues cover exactly the item ids with non-negative counts;
- every item sits in exactly one bin, the bin of its score.

The code and the documented design disagree in several places; the model follows the code:

- The Metropolis correction's `ZeroDivisionError` is caught and the correction counts as 1. Without adaptive selection the proposal is then always accepted (`Urnings.py:190-193`, `GameRules.Acceptance`, `GameRules.CaughtDivisionAccepts`).
- `play` adds one to `game_count` once per game, including in test mode where a game is one match per player (`Urnings.py:277-306`).
- `paired_update`'s retry loop gives up after 101 redraws and still moves the last drawn candidate. That candidate's score can leave its urn. The following bin rebuild then raises `KeyError`, which the model returns as the status `BinKeyError` (`Game_Type.py:263-280`, `GameRules.RetryBlockedOnlyAtCap`, `Orchestrator.Rebin`).
- In the queue-empty branch of `paired_update`, the updated item itself moves in the opposite direction when its urn allows (`Game_Type.py:251-255`).
- The difference history starts with one `0`, so the permutation urn rule counts that seed entry in its window arithmetic (`Agents.py:83`, `Game_Type.py:331`).
- Construction checks only `score > urn_size`. A negative score or urn passes, and an empty urn fails with `ZeroDivisionError` (`Agents.InitCheck`).

## Model

| member | source | states |
|---|---|---|
| Numerics.Bernoulli | Agents.py:99-115 | a draw decided by a uniform in [0, 1) is 1 only with positive probability and 0 only with probability below 1; for a probability of exactly 1 (exactly 0) it is always 1 (0) |
| Numerics.PickIndex | Game_Type.py:257-259 | `randint(0, n)` by a uniform number is an index below `n` |
| Numerics.RoundHalfEven | Agents.py:74 | `np.round(n / d)`: the result is within half of `n/d`, and on an exact tie it is even |
| Numerics.RoundHalfEvenUnique | Agents.py:74 | the two properties of the rounding determine it: any integer satisfying them is the rounded value |
| Numerics.RoundHalfEvenExact | Game_Type.py:338 | a whole quotient is returned unchanged by the rounding |
| Numerics.RoundHalfEvenBetween | Game_Type.py:336-340 | rounding `n/d` with `0 <= n <= m*d` lands in `[0, m]` |
| Numerics.TruncDiv | Game_Type.py:172 | `int(n / d)` truncates toward zero: for `n >= 0` it is the floor quotient, for `n < 0` the ceiling |
| GameRules.Clamp | Game_Type.py:149-158 | the two range checks leave a value inside `[0, size]`, keep a value already inside and send values above to `size` and below to `0` |
| GameRules.UpdatingRule | Game_Type.py:137-160 | the player's proposal is `score + result - expected` and the item's moves by the opposite amount, each kept inside its urn; equal result and expectation propose the current scores |
| GameRules.UpdatingRuleMovesOneBall | Game_Type.py:142-158 | within valid urns each proposal moves by at most one ball, the player in the direction of `result - expected` and the item in the opposite one |
| GameRules.UpdatingWithStakes | Game_Type.py:187-213 | when `score ± stake` leaves either urn the result equals `updating_rule`'s; otherwise the player moves by `stake·(result − expected)` and the item by the negation; both proposals stay inside their urns |
| GameRules.MetropolisCorrection | Game_Type.py:216-229 | 1 under Urnings2; under Urnings1 the ratio of the current to the proposed configuration weight, undefined (the division by zero) exactly when the proposed weight is 0 |
| GameRules.MetropolisNoOp | Game_Type.py:216-229 | a proposal equal to the current scores gives a correction of exactly 1 when the weight is not 0 |
| GameRules.PairWeightZero | Game_Type.py:220-221 | with urns of equal size the Urnings1 weight of valid scores is never negative, and it is 0 exactly when both urns are empty or both are full |
| GameRules.Acceptance | Urnings.py:190-195 | `min(1, metropolis · adaptivity)`, a correction that raised counting as 1; an undefined adaptivity factor (numpy's inf or nan) gives 1, as Python's `min(1, inf)` and `min(1, nan)` do |
| GameRules.CaughtDivisionAccepts | Urnings.py:190-203 | a correction that raised does not reject: with an adaptivity factor of at least 1, or an undefined one, every uniform number accepts |
| GameRules.ClampDiff | Urnings.py:213-224 | the clamped difference lies in {-1, 0, 1}, keeps the sign of the difference, is 0 exactly for no change and keeps differences already in range |
| GameRules.PermutationStake | Game_Type.py:163-173 | the stake is kept until the history holds a window; a significant test resets it to `max_stakes`; otherwise a stake other than 1 is halved by floor; a stake of at least 1 stays at least 1 |
| GameRules.SecondOrderStake | Game_Type.py:175-184 | off a window boundary the stake is kept; on one, unanimous draws with a stake above `min_stakes` reset it to `max_stakes`, otherwise a stake other than 1 drops by one and a stake of 1 stays; a stake of at least 1 stays at least 1 |
| GameRules.SecondOrderStep | Game_Type.py:314-323 | a decrease counts as no change; the second-order score moves by at most one ball, gaining the increase and losing the expected draw |
| GameRules.SecondOrderStaysInUrn | Game_Type.py:314-323 | with the expected value drawn from the second-order estimate, the second-order score never leaves `[0, so_urn_size]` |
| GameRules.Shrink | Game_Type.py:336-340 | the urn becomes `min_urn` balls and the rescaled score, rounded half to even, is within half a ball of `score·min_urn/urn_size` and inside the new urn |
| GameRules.Grow | Game_Type.py:341-344 | score and urn size double and the estimate is exactly unchanged |
| GameRules.PermutationUrnChange | Game_Type.py:330-357 | off a window boundary the urn is kept; on one, without the test a window sum of at least `bound` shrinks a urn above `min_urn`, else every `freq_change` records a urn below `max_urn` grows, else it is kept; with the test a significant result shrinks, else a urn below `max_urn` grows, else it is kept; a valid urn stays valid |
| GameRules.WinStreakShrinksByFour | Game_Type.py:336-340 | a concrete win streak on a 40-ball urn with `min_urn` 10 turns score 30 into 8 and 26 into 6, ties rounding to even |
| GameRules.SecondOrderUrnChange | Game_Type.py:359-371 | off a window boundary the urn is kept; on one, unanimous draws shrink a urn whose last recorded size exceeds `min_urn`, otherwise a last recorded size below `max_urn` gives twice that size with the score doubled, else the urn is kept; when the last recorded size is the current one that is Shrink or Grow, and a valid urn stays valid |
| GameRules.DrawUntilDiffer | Game_Type.py:91-126 | the rejection loop of `draw_rule` on a stream of uniform pairs: a disagreeing pair or a spent budget returns the player's value at once; it runs out only when the stream is shorter than the budget; from a bit it returns a bit |
| GameRules.Agreeing | Game_Type.py:91-93 | the number of leading draw pairs that agree: all those pairs agree and the next one, if any, does not |
| GameRules.UncappedSample | Game_Type.py:113-128 | without a budget the sampler finishes exactly when some pair disagrees, and returns the player's draw of the first disagreeing pair, the item's draw there being the other bit |
| GameRules.CappedSample | Game_Type.py:99-106 | with the 1000-round budget the sampler returns the first disagreeing draw within the budget; if all budgeted pairs agree it returns their last common value |
| GameRules.OneEntryKeepsKeys | Game_Type.py:248-312 | a queue change of at most one entry, by an increment or a reset to 0, keeps the keys and keeps the counts non-negative |
| GameRules.Candidates | Game_Type.py:257 | `{k: v for k, v in queue.items() if v >= 1}` in key order: exactly the ids with a count of at least 1 |
| GameRules.CandidatesExist | Game_Type.py:251-258 | a queue with non-negative counts that is not all zero has a candidate to draw |
| GameRules.RetryChoice | Game_Type.py:263-277 | the candidate the retry loop settles on is always one of the candidates |
| GameRules.RetryBlockedOnlyAtCap | Game_Type.py:263-277 | the loop settles on a blocked candidate only when the first draw and all 101 redraws were blocked |
| GameRules.ProposedBinCounts | Game_Type.py:232-239 | moving the item from its bin to the bin of its proposal takes one from the first and adds one to the second, keeps all other bins and keeps the total |
| GameRules.WeightedTotalShift | Game_Type.py:234 | adding `k` items to one bin adds `k` times that bin's weight to `sum(row * num_per_bin)` |
| GameRules.WeightedTotalRemove | Game_Type.py:234 | one item fewer in a bin takes that bin's weight off the total |
| GameRules.WeightedTotalAdd | Game_Type.py:234 | one item more in a bin adds that bin's weight to the total |
| GameRules.MovedTotal | Game_Type.py:236-240 | moving the item from its bin to its proposal's bin changes the total weight by minus the old bin's weight plus the new one's |
| GameRules.Share | Game_Type.py:234 | a share of a total is defined exactly when the total is not 0 |
| GameRules.ShareTimesTotal | Game_Type.py:234 | a share multiplied back by its total gives the weight |
| GameRules.SelectionProb | Game_Type.py:234 | the selection probability of an item is defined exactly when the indices lie in the matrix and the roster's total weight is not 0 |
| GameRules.SelectionProbTimesTotal | Game_Type.py:234 | a defined selection probability times the roster's total weight is the item's own weight |
| GameRules.SelectionRatio | Game_Type.py:231-242 | the ratio is defined only when the item and its proposal are bins, the current probability is defined and not 0, and the proposed probability, over the moved counts, is defined |
| GameRules.SelectionRatioStill | Game_Type.py:231-242 | a proposal that keeps the scaled score and the item's bin gives a ratio of exactly 1 |
| GameRules.MovedSelectionProb | Game_Type.py:236-240 | with the scaled score kept, the proposed probability is the new bin's weight as a share of the old total minus the old bin's weight plus the new one's |
| Agents.InitCheck | Agents.py:57-67 | construction raises `ValueError` exactly when `score > urn_size`, and otherwise raises `ZeroDivisionError` exactly when an urn has size 0 |
| Agents.SecondOrderSeed | Agents.py:74 | the second-order urn starts half full: exactly half for an even size, otherwise the even one of the two neighbours of half |
| Agents.Player.constructor | Agents.py:57-90 | the new entity has `est = score/urn_size`, `so_score = round(so_urn_size/2)`, its `so_est`, the given stake, cleared scratch fields, no position, `scaled_score = score`, and every history seeded with exactly one entry, the initial value |
| Agents.Player.Create | Agents.py:57-90 | construction fails exactly as InitCheck says and otherwise returns a fresh entity in the initial state |
| Agents.Player.InitialIsValid | Agents.py:57-90 | a new entity with a non-negative score, a positive second-order urn and a stake of at least one satisfies the running invariant |
| Agents.Player.Equals | Agents.py:92-93 | equality compares the ids and nothing else |
| Agents.Player.Find | Agents.py:95-96 | `find` holds exactly for the entity's own id |
| Agents.Player.EstimateIsProbability | Agents.py:99-109 | the estimate of a valid urn lies in [0, 1], so the default draw stays in the range numpy's binomial accepts |
| Agents.Player.Draw | Agents.py:99-109 | the draw uses the true value or the estimate as the flag says (the estimate by default), writes only that kind's scratch field and returns what it stored |
| Agents.Player.SoDraw | Agents.py:111-115 | the second-order draw is stored in `sim_y`, not a separate field, and returned |
| GameTypes.Ids | Game_Type.py:259-262 | the roster's ids in roster order |
| GameTypes.BlockedHolds | Game_Type.py:263 | with unique ids an item's id is blocked exactly when the item cannot give or take a ball |
| GameTypes.FindItem | Game_Type.py:261-262 | the lookup loop finds an item carrying the id, and with unique ids it is the only one |
| GameTypes.DrawPairs | Game_Type.py:91-93 | the rejection loop returns what the sampler specification DrawUntilDiffer gives and leaves the other kind of scratch field alone |
| GameTypes.DrawCandidate | Game_Type.py:258-262 | one candidate draw picks the id at `randint` and finds its item, which is blocked exactly when its id is |
| GameTypes.RetryPick | Game_Type.py:257-277 | the retry loop's candidate is the item RetryChoice names |
| GameTypes.MoveBall | Game_Type.py:278-280 | exactly that item gains the given number of balls with its estimate recomputed; every other item is unchanged |
| GameTypes.ShrinkUrn | Game_Type.py:337-340 | the entity's urn becomes Shrink of the old urn and the estimate follows |
| GameTypes.GrowUrn | Game_Type.py:342-344 | the urn becomes twice the given size, the score doubles and the estimate follows |
| GameTypes.GameType.constructor | Game_Type.py:42-77 | the settings are recorded as given |
| GameTypes.GameType.DrawRule | Game_Type.py:86-135 | result and expectation are what the two samplers give on the two draw streams: Urnings1 with the 1000-round budget from the estimates, Urnings2 from the estimates with the result added; scratch fields are reset to 8; estimates are kept (Urnings1) or restored (Urnings2); both values are bits |
| GameTypes.GameType.PairedUpdate | Game_Type.py:248-312 | nothing changes unless paired updates are on and `item_diff` is ±1; a gain moves one ball down, a loss one ball up, in the branch SideSpec describes; at most one entry of at most one queue changes, by an increment or a reset |
| GameTypes.GameType.PairedSide | Game_Type.py:250-280 | one direction: an all-zero watch queue bumps the item in the other queue and moves the item itself when its urn allows; otherwise the chosen candidate's entry is reset and it moves, blocked or not |
| GameTypes.GameType.SettleSelf | Game_Type.py:251-255 | the item's count in the opposite queue grows by one and the item moves only when its urn allows it |
| GameTypes.GameType.SettleCandidate | Game_Type.py:256-280 | the candidate RetryChoice names leaves the queue (entry 0) and moves by one ball; nothing else moves |
| GameTypes.GameType.SecondOrderUrnings | Game_Type.py:314-323 | the second-order score takes SecondOrderStep with the expected draw from the old estimate, and the estimate follows |
| GameTypes.GameType.UrnChange | Game_Type.py:327-371 | without adaptive urns nothing changes; the "permutation" type follows PermutationUrnChange and the "second_order_urnings" type SecondOrderUrnChange with the last recorded size; every other type keeps the urn; a valid urn stays valid |
| GameTypes.GameType.AdaptiveUrnChange | Game_Type.py:327-371 | the entity's urn becomes UrnChange of its old urn and its histories, and the estimate follows any change |
| GameTypes.GameType.PermutationChange | Game_Type.py:330-357 | the entity's urn becomes PermutationUrnChange of its old urn |
| GameTypes.GameType.SecondOrderChange | Game_Type.py:359-371 | the entity's urn becomes SecondOrderUrnChange of its old urn and last recorded size |
| GameTypes.GameType.CalculateStakes | Game_Type.py:162-184 | in the two stake modes the stake follows PermutationStake or SecondOrderStake and is returned; in every other mode nothing changes and nothing is returned |
| GameTypes.GameType.StakeInUse | Urnings.py:175-181 | the stake of a match: the mode's rule in the two stake modes, the stake as it was otherwise, never below 1 when it started at 1 or more |
| GameTypes.GameType.AdaptivityFactor | Game_Type.py:231-246 | 1 without adaptive selection; with it, SelectionRatio of the matrix, the bin counts, the scaled score and the proposal scaled by `int(proposal·max_urn/urn_size)`, or None (numpy's inf or nan) where that ratio is undefined; a proposal that keeps both scores gives 1 whenever the current selection probability is not 0 |
| Bins.BinIndex | Urnings.py:118-121 | the index has a bin for every score `0..n` and no other key |
| Bins.BinCounts | Urnings.py:149 | one count per score `0..n`, each the size of its bin |
| Bins.BinMembers | Urnings.py:234-237 | every entry of a bin is an item whose score is that bin |
| Bins.BinHolds | Urnings.py:234-237 | an item is in bin `b` exactly when its score is `b` |
| Bins.BinDistinct | Urnings.py:234-237 | no bin holds an item twice |
| Bins.BinCountsSnoc | Urnings.py:235-237 | binning one more item adds one to the count of its bin only |
| Bins.BinIndexSnoc | Urnings.py:235-237 | binning one more item appends it to the bin of its score and changes no other bin |
| Bins.EachInOneBin | Urnings.py:234-237 | every item sits in the bin of its score, in no other bin, and only once |
| Bins.BinLabels | Urnings.py:151-154 | the bin of each position of the bin-by-bin list lies among the bins |
| Bins.BinLabelsSnoc | Urnings.py:152-154 | adding a bin appends its label once per item in it |
| Bins.BinLabelsLength | Urnings.py:151-154 | the bin-by-bin list is as long as the total of the counts |
| Bins.BinCountsTotal | Urnings.py:149 | the counts of a full binning add up to the number of items |
| Orchestrator.ProposalFor | Urnings.py:175-181 | the proposal of the mode: staked in the three stake modes, plain otherwise; it lies inside the urns and keeps the scores when result equals expectation |
| Orchestrator.ScaledInRange | Urnings.py:111 | the scaled score `int(score·max_urn/urn_size)` of a valid urn lies in `[0, max_urn]`, a row of the selection matrix |
| Orchestrator.CoverKept | Game_Type.py:248-312 | a paired update keeps both queues covering exactly the item ids with non-negative counts |
| Orchestrator.Number | Urnings.py:68-73 | every entity's `idx` is its position in its list |
| Orchestrator.Scale | Urnings.py:110-111 | every player's scaled score is `int(score·max_urn/urn_size)` |
| Orchestrator.PreparePlayers | Urnings.py:69-70 | every player is numbered and scaled, ready for matches |
| Orchestrator.PrepareItems | Urnings.py:72-73 | every item is numbered and the bins hold each item under its score |
| Orchestrator.Prepare | Urnings.py:68-121 | the roster is numbered, scaled and binned and `max_urn` is set |
| Orchestrator.Rebin | Urnings.py:234-237 | the rebuild succeeds exactly when every score lies in `0..item_urn`, and then gives the bin index of the current scores; rebuilding again without a score change gives the same bins; otherwise it stops at the first item out of range (the `KeyError`) |
| Orchestrator.Setup | Urnings.py:62-124 | the construction leaves a consistent roster: queues all 0 over the item ids, `max_urn` the first player's urn unless urns adapt, the matrix filled from the kernel, every item binned once under its score, and no score or urn changed |
| Orchestrator.Settle | Urnings.py:227 | paired_update on the queues keeps them covering the item ids, changes at most one entry, and changes no score when it does not act |
| Orchestrator.Tabulate | Urnings.py:113-116 | the matrix has the given shape and every entry is the kernel's value |
| Orchestrator.WeightList | Urnings.py:151-154 | the weight list repeats each bin's kernel entry once per item in the bin, bin by bin |
| Orchestrator.Respond | Urnings.py:172-181 | on success the stake is the one in use, the proposal is the mode's updating rule on the drawn result and expectation, and the scratch fields are cleared |
| Orchestrator.MetropolisStep | Urnings.py:184-209 | the proposal is accepted exactly when `u < min(1, metropolis·adaptivity)`, the adaptivity factor read from the selection matrix and the bin counts before the match, and always when that factor is undefined; accepted, the scores become the proposals with estimates and scaled score following; rejected, score, estimate and scaled score of both are unchanged |
| Orchestrator.SaveMatch | Urnings.py:242-250 | score, estimate and clamped difference are appended to each of the two entities' histories |
| Orchestrator.AdaptPlayer | Urnings.py:254-267 | the second-order urn steps and its estimate is appended; the urn adapts by UrnChange; the scaled score is recomputed; the urn sizes of both and the player's stake are appended |
| Orchestrator.Contest | Urnings.py:172-224 | the trace follows from the standing before the match (stake, proposal, acceptance, differences clamped and 0 on rejection); scores are the accepted proposals or unchanged; a stalled sampler leaves scores and stake unchanged |
| Orchestrator.Resume | Urnings.py:172-224 | Contest, and nothing of the match's record is written yet |
| Orchestrator.Contend | Urnings.py:172-224 | Contest for a player outside the items: only the matched item's score can move among the items, and the items stay settled |
| Orchestrator.Record | Urnings.py:240-267 | the player's histories grow by one record each (all six), its second-order urn and urn adapt; the item's four histories grow by one record and its second-order and stake histories are untouched |
| Orchestrator.RecordBooked | Urnings.py:240-267 | Record, with the items, queues and bins as they were |
| Orchestrator.Conclude | Urnings.py:227-267 | at most one queue entry changes; no other item moves when paired_update does not act; a `KeyError` happens only when some item's score left its urn; a played match is recorded with every item binned under its score |
| Orchestrator.ReadyToPlay | Urnings.py:168 | a consistent orchestrator's player is ready at its position and outside the items, and the item's score lies in its urn |
| Orchestrator.StillConsistent | Urnings.py:168-267 | after a played match the roster is consistent again |
| Orchestrator.GamesDone | Urnings.py:277-306 | the counting helper of `Play`: `g` whole games and part of another count as `g` games, and fewer than `n` games leave room for one more |
| Orchestrator.IdList | Urnings.py:156-160 | the position list has the same bin-by-bin layout as the weight list, and each position's item has the score of its bin |
| Orchestrator.AppendPositions | Urnings.py:158-160 | one bin's items' positions are appended, each labelled with the bin |
| Orchestrator.BinEntry | Urnings.py:158-160 | every entry of bin `b` has a position whose item's score is `b` |
| Orchestrator.PlayMatch | Urnings.py:168-267 | one match: a stall changes no score, queue or bin; otherwise the trace follows from the standing, at most one queue entry changes, and a played match is recorded with items binned and the other players untouched |
| Orchestrator.Urnings.constructor | Urnings.py:62-124 | the orchestrator is valid, both queues map every item id to 0, `game_count` is 0, `max_urn` is set as the source sets it and the matrix holds the kernel |
| Orchestrator.Urnings.BinnedOnce | Urnings.py:234-237 | in a valid orchestrator every item sits in exactly one bin, the bin keyed by its score, and only once |
| Orchestrator.Urnings.SelectionLists | Urnings.py:147-160 | both lists have one entry per item, every position is an item, and each entry's weight is the kernel entry of the player's scaled score and that item's score |
| Orchestrator.Urnings.Matchmaking | Urnings.py:135-166 | the player is the picked one; the item is one of the roster, the picked one when selection is not adaptive |
| Orchestrator.Urnings.UrningsGame | Urnings.py:168-267 | one match leaves the orchestrator valid when played; a stall changes no score, queue or bin; otherwise the trace follows from the standing before the match and at most one queue entry changed |
| Orchestrator.Urnings.Adopt | Urnings.py:227-237 | the frame helper for the assignments of the queues and `item_bins`: the orchestrator takes the queues and bins a match left, and is valid again after a played match |
| Orchestrator.Urnings.PerGame | Urnings.py:279-304 | a game holds one match per player in test mode and at least one match otherwise |
| Orchestrator.Urnings.MatchUp | Urnings.py:280-282 | matchmaking then urnings_game keep the orchestrator valid when played |
| Orchestrator.Urnings.CountGame | Urnings.py:305 | `game_count` grows by one and validity is kept |
| Orchestrator.Urnings.PlayGame | Urnings.py:278-305 | a game is complete exactly when all its matches played, and only a complete game adds one to `game_count` |
| Orchestrator.Urnings.Play | Urnings.py:277-306 | a run is complete exactly when all `n·PerGame` matches played, and then `game_count` grew by exactly `n`; in every case it grew by the number of complete games; the orchestrator stays valid |

## Left out

- Random number generation. `np.random.binomial`, `uniform`, `randint` and `choice` are replaced by injected inputs. Bernoulli draws and `randint` are decided by uniform numbers. The weighted `np.random.choice` of adaptive matchmaking is replaced by a position in the selection list. The permutation-test outcome and the control-draw outcome are given as booleans.
- The permutation test's p-value and `util.all_binary_combination`. The `utilities` module is not part of this model, and the means are floating point. The test is a boolean "significant".
- The control-draw mean of the second-order stake and urn rules. It is a boolean "unanimous".
- Floating point. Estimates and selection probabilities are exact `real` ratios. The kernel `normal_method_helper` (exp and log) is a function parameter. Where a selection probability divides by 0, numpy gives inf or nan and the acceptance becomes `min(1, inf or nan) = 1`; the model gives such a factor as None and accepts. This matches the source for a kernel without negative weights; with negative weights numpy could give -inf and reject.
- Orchestrator.Scale: computes `int(score * (max_urn / urn_size))` as the truncation of the exact quotient. In double precision the inner quotient is rounded first, so the source can land one lower (score 11, urn 11, `max_urn` 30 gives 29, not 30). The same holds for the scaled score recomputed in `Orchestrator.MetropolisStep` and `Orchestrator.AdaptPlayer`.
- GameTypes.GameType.AdaptivityFactor: scales the player's proposal by truncating the exact quotient, with the same double-precision caveat as `Orchestrator.Scale`.
- GameRules.Shrink: rounds the exact quotient `score·min_urn/urn_size`. The source divides twice in double precision, `score / (urn_size / min_urn)`, and can round the other way (score 9, urn 18, `min_urn` 7 gives 3.4999999999999996 and 3, not 4).
- `adaptive_correct`, `prop_correct`, `number_per_bin` and `fit_correct`. These arrays are only counted into.
- The green-ball diagnostics, the `bugfix` counter and the progress `print` of `play`.
- `updating_type` values other than "one_dim". They leave the proposals unbound.
- Rejection loops that never end. `draw_rule`'s unbounded loops run on finite draw streams. A stream that runs out ends the match as `Stalled`, with no score, queue or bin changed, and `play` stops there. The source would keep drawing.
- `play` after a `KeyError`. The source raises and ends the run; the model returns `BinKeyError` and stops.
- Orchestrator.Urnings.UrningsGame: its contract does not restate the per-item facts of a match (the recorded histories, the `KeyError` condition, the unchanged other items); `Orchestrator.PlayMatch`, which it runs, states them.
- Orchestrator.Urnings.Matchmaking: with adaptive selection it promises only that the item is one of the roster; which item is determined through `SelectionLists` and the injected position.
- Identity. Rosters compare entities by reference, and players and items are required to be distinct objects. `__eq__` by id is modelled as `Equals`, but list operations in the model do not use it.
- Numerics.Bernoulli: returns 1 for a probability above 1 and 0 for one below 0, where numpy's `binomial(1, p)` raises `ValueError`.
- Agents.Player.Draw: a true value outside [0, 1] makes the source raise `ValueError` at the first true-score draw; the model draws 1 or 0. The true value is not constrained, while the estimate of a valid urn always lies in [0, 1] (`Agents.Player.EstimateIsProbability`).
- Orchestrator.Urnings.constructor: requires conditions `__init__` (Urnings.py:62-129) does not check, and the model does not cover what the source does when they fail:
  - every item has the urn size of `items[0]`; the source bins all items by the range of `items[0]`, and an item score above it raises `KeyError`;
  - every item score lies in its urn; a score out of that range raises `KeyError` when binned;
  - every player's urn and second-order urn are valid; a negative score passes `InitCheck` and raises `ValueError` at its first draw;
  - every player's stake is at least 1; the source accepts a stake of 0;
  - item ids are unique; with a repeated `user_id` the source merges the two items' queue entries (Urnings.py:76-77);
  - players and items are distinct objects, and no item is a player; the source numbers them by position and would overwrite `idx`.
- Orchestrator.Setup: requires the same conditions as `Orchestrator.Urnings.constructor`, for the same reasons.
- Integer width. Python integers are unbounded, so no wrap-around is modelled.

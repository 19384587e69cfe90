# Lineup engine of "You suck at fantasy", in Dafny

This project models the lineup engine of a fantasy-football "roast" site and
proves properties of it. For each week of an ESPN league, the engine finds the
best lineup the manager could have set from their roster. It compares that
lineup with the one they actually set. Then it explains each point left on
the bench as a swap: a bench player who should have started in place of a
starter, sometimes through a chain of players moving between slots.

The model covers:

- **The slot tables** (`src/lib/types.ts`), in module `Types`: which player
  positions each lineup slot accepts, the starter and bench slot lists, and
  the display names.
- **The optimal-lineup solver** (`src/lib/optimal-lineup.ts`):
  - `SlotRequirements` reads the league's slot counts, expands them into
    slot instances and orders those by restrictiveness;
  - `Lineup` builds and sorts the candidate pool and reads the lineup that
    was actually set;
  - `LineupSearch` is the branch-and-bound search. It is a class `Search`
    whose fields are the used-id set, the assignment stack and the best
    score and assignment so far. Its recursive methods push and pop them.
- **The swap explainers** (`src/lib/optimal-lineup.ts`):
  - `GreedySwaps` is the older `calculateSwaps`;
  - `SwapChains` is `buildSwapChains` with its chain tracer
    `traceChainToEnd`.
- **The season loop** of `generateReport` (`src/lib/report-generator.ts`), in
  `ReportGenerator`. It scores every week, counts wins, losses and blown wins,
  and keeps the worst week.
- **The position sanitiser** of the ESPN client (`src/lib/espn-client.ts`),
  in `EspnClient`.
- **The copy selection** (`src/lib/copy.ts`), in `Copy`. This is the 32-bit
  string hash, `pickOne`, and the threshold ladders that choose a line of
  roast text. It also has `formatRecord`.
- **`getOrdinal`** (`src/components/Report.tsx`), in `ReportView`.

Shared helpers:

- `Wrappers` holds `Option` and `Result`.
- `Decimal` writes and reads decimal integers.
- `Sorting` holds the comparator sort, `filter`, and facts about distinct
  keys.

Modelling choices:

- Points are `real`. Ids, counts and weeks are `int`.
- JavaScript `%` is modelled as the truncating `Copy.JsRem`.
- An out-of-range array read is `None`.
- `-Infinity` as the initial best score is `bestScore: Option<real>`.
- Each method is proved against a function of its inputs or old state. The
  properties the source promises are stated about those functions as lemmas.

## Model

| member | source | states |
|---|---|---|
| Types.EligiblePositionsFor | src/lib/optimal-lineup.ts:38 | A slot of the table gets its listed positions, which are never empty. Any other label gets the one-element list of itself. |
| Types.StarterSlotsAreTableKeys | src/lib/types.ts:146-169 | STARTER_SLOTS is exactly the key set of SLOT_ELIGIBILITY, in the same order and without repeats. Every entry is non-empty. |
| Types.SinglePositionSlots | src/lib/types.ts:146-163 | QB, RB, WR, TE, K, D/ST and LB each accept only their own position. |
| Types.FlexSlots | src/lib/types.ts:153-157 | FLEX and RB/WR/TE accept RB, WR and TE. OP accepts QB, RB, WR and TE. |
| Types.FlexSlotsNest | src/lib/types.ts:153-161 | RB/WR and WR/TE are within RB/WR/TE, within OP. FLEX is within OP. DL, LB and DB are within DP. |
| Types.BenchSlotsDisjoint | src/lib/types.ts:165-171 | A label is a bench slot exactly when it is Bench or IR, and no bench slot is a starter slot. |
| Types.DisplayNames | src/lib/types.ts:104-110 | RB/WR/TE, RB/WR and WR/TE show as FLEX and OP as SUPERFLEX. The table has exactly five keys. |
| SlotRequirements.Requirements | src/lib/optimal-lineup.ts:29-47 | A requirement is kept exactly when its entry is not Bench/IR and has a positive count. It carries the entry's count and the slot's eligible positions. |
| SlotRequirements.ParseSlotRequirements | src/lib/optimal-lineup.ts:29-47 | The push loop over the count entries returns exactly `Requirements` of those entries. |
| SlotRequirements.Repeat | src/lib/optimal-lineup.ts:71-75 | The inner loop yields `count` copies of the requirement, or none for a count of 0 or less. |
| SlotRequirements.ExpandSlots | src/lib/optimal-lineup.ts:68-78 | The nested push loops return the expansion of the requirements, each one repeated `count` times in order. |
| SlotRequirements.ExpandedCount | src/lib/optimal-lineup.ts:68-78 | With distinct slots and positive counts, each requirement occurs exactly `count` times in the expansion and nothing else occurs. |
| SlotRequirements.SortSlotsByRestrictiveness | src/lib/optimal-lineup.ts:84-89 | The result is a permutation of the slots, ordered by non-decreasing number of eligible positions. |
| SlotRequirements.RequirementsDistinct | src/lib/optimal-lineup.ts:33-44 | Distinct entry keys give requirements with distinct slots. |
| SlotRequirements.SlotInstancesSpec | src/lib/optimal-lineup.ts:29-97 | Each kept entry occurs in the slot instances exactly `count` times. Every instance comes from a kept entry and carries its slot's positions. The list is ordered by restrictiveness. |
| SlotRequirements.SlotInstancesLabelled | src/lib/optimal-lineup.ts:96-97 | No slot instance is a bench slot. Each has a positive count and its slot's eligible positions. |
| SlotRequirements.IsPlayerEligibleForSlot | src/lib/optimal-lineup.ts:55-62 | True exactly when one of the player's eligible positions is among the slot's positions. |
| Lineup.CandidatePool | src/lib/optimal-lineup.ts:102-111 | Each player occurs as often as in the roster when started, or benched with more than 0 points. Otherwise it does not occur. |
| Lineup.CandidatePoolAppend | src/lib/optimal-lineup.ts:102-111 | Filtering distributes over concatenation, so roster order is kept. |
| Lineup.SortedCandidates | src/lib/optimal-lineup.ts:113-119 | A permutation of the pool. Points are in descending order, and equal points are in ascending id order. |
| Lineup.SortedCandidatesFacts | src/lib/optimal-lineup.ts:102-119 | The sorted pool holds exactly the roster players that pass the filter. It keeps distinct ids distinct. |
| Lineup.ComputeOptimalLineup | src/lib/optimal-lineup.ts:95-130 | See the first note below this table. |
| Lineup.GetActualLineup | src/lib/optimal-lineup.ts:203-211 | Every started roster player appears with slot = rosteredPosition and points = totalPoints. No bench or IR player appears. |
| Lineup.GetActualLineupAppend | src/lib/optimal-lineup.ts:203-211 | The actual lineup of a concatenation is the concatenation of the actual lineups, so roster order is kept. |
| LineupSearch.ClampNoEffect | src/lib/optimal-lineup.ts:147-151 | With no negative points, the as-written bound and the corrected (clamped) bound coincide. |
| LineupSearch.UnusedPointsSorted | src/lib/optimal-lineup.ts:147-150 | The unused candidates' clamped points are in descending order, non-negative, and at most the first candidate's. |
| LineupSearch.UnusedPointsTake | src/lib/optimal-lineup.ts:175-186 | Marking a candidate's id as used removes exactly its clamped points from the list of unused points. |
| LineupSearch.CompletionWithinBound | src/lib/optimal-lineup.ts:145-156 | Any completion of the remaining slots scores at most the clamped top-k bound, where k is the number of remaining slots. |
| LineupSearch.TopSumRemove | src/lib/optimal-lineup.ts:147-151 | In a descending list, x plus the top-(k−1) sum of the list without x is at most the top-k sum, so placing a candidate keeps the bound sound. |
| LineupSearch.RuleGivesCompletion | src/lib/optimal-lineup.ts:168-192 | A full choice vector built by the search's rules lies in the search space. The rule is: fill a slot with an eligible unused candidate, or leave it empty only when none exists. |
| LineupSearch.SearchPrefixFits | src/lib/optimal-lineup.ts:170-179 | The search's choices respect eligibility and never reuse a player id. |
| LineupSearch.RealiseTotal | src/lib/optimal-lineup.ts:179-183 | The assignments of a choice vector number at most one per slot, and their points sum to its score. |
| LineupSearch.RealiseMembers | src/lib/optimal-lineup.ts:179-183 | Each assignment puts a candidate, with its own points, into a slot whose positions it is eligible for. |
| LineupSearch.RealiseDistinct | src/lib/optimal-lineup.ts:170-179 | No player appears twice among the assignments. |
| LineupSearch.Dominate | src/lib/optimal-lineup.ts:189-192 | With non-negative points, see the second note below this table. |
| LineupSearch.CoveredPrune | src/lib/optimal-lineup.ts:153-155 | When current + bound ≤ best, and the bound is admissible, a pruned branch holds no completion scoring above best. |
| LineupSearch.Search.constructor | src/lib/optimal-lineup.ts:137-141 | An empty used set and stack, no best score yet (`-Infinity`), and the given players, slots and bound mode. |
| LineupSearch.Search.Backtrack | src/lib/optimal-lineup.ts:143-193 | See the third note below this table. |
| LineupSearch.Search.FillSlot | src/lib/optimal-lineup.ts:165-192 | The loop over candidates and the empty-slot fallback keep the same post-state as Backtrack and cover every completion from this slot. |
| LineupSearch.Search.Place | src/lib/optimal-lineup.ts:175-186 | add/push, recurse, pop/delete: the stack and the used set return to their old values. Every completion with this player in this slot is covered. |
| LineupSearch.Search.LeaveEmpty | src/lib/optimal-lineup.ts:189-192 | When no candidate fits the slot, the search moves to the next slot and covers its completions. |
| LineupSearch.Solve | src/lib/optimal-lineup.ts:133-198 | See the fourth note below this table. |
| LineupSearch.FindOptimalAssignment | src/lib/optimal-lineup.ts:133-198 | The as-written solver. Its result comes from a valid choice in the search space. With a sorted pool, unique ids and non-negative points it scores at least every completion of the search space and every valid assignment (see Findings for negative points). |
| LineupSearch.FindOptimalAssignmentCorrected | src/lib/optimal-lineup.ts:145-156 | See the fifth note below this table. |
| LineupSearch.BoundCounterexample | src/lib/optimal-lineup.ts:147-155 | See the Findings row. It exhibits a sorted, unique-id pool whose as-written bound prunes the branch holding the optimum 10 after 6 was found, while the clamped bound keeps it. |
| GreedySwaps.EligibleSlotsForPlayer | src/lib/optimal-lineup.ts:216-226 | The loop over the table returns the table keys whose positions the player shares, in table order. |
| GreedySwaps.EligibleSlotsSpec | src/lib/optimal-lineup.ts:216-226 | A slot is listed exactly when it is a table key sharing a position with the player. |
| GreedySwaps.FindWorstStarter | src/lib/optimal-lineup.ts:255-284 | The inner scan returns the function `Worst` of the starters and the used sets. |
| GreedySwaps.WorstNone | src/lib/optimal-lineup.ts:255-284 | No starter is chosen exactly when no starter is replaceable. Replaceable means: in an eligible slot type, slot key and id unused, and scored fewer points than the bench player. |
| GreedySwaps.WorstIsLowest | src/lib/optimal-lineup.ts:276-283 | The chosen starter is a replaceable one with the fewest points, and the first such in lineup order (the comparison is strict). |
| GreedySwaps.TurnTaken | src/lib/optimal-lineup.ts:286-299 | A bench player with a candidate records one swap against it and marks its id (and slot key) used. |
| GreedySwaps.GreedySwapsMade | src/lib/optimal-lineup.ts:286-299 | See the sixth note below this table. |
| GreedySwaps.GreedyStartedDistinct | src/lib/optimal-lineup.ts:271-291 | Each replaced starter's id is marked used, so no starter is replaced twice. |
| GreedySwaps.GreedyBenchDistinct | src/lib/optimal-lineup.ts:250-300 | With distinct bench ids, each swap's bench player is a listed bench player, and none is used twice. |
| GreedySwaps.BenchCandidatesFacts | src/lib/optimal-lineup.ts:246-248 | The bench list is exactly the bench/IR players who scored above 0, sorted by points descending, with distinct ids kept. |
| GreedySwaps.ReportedSwapsFacts | src/lib/optimal-lineup.ts:303-306 | See the seventh note below this table. |
| GreedySwaps.CalculateSwaps | src/lib/optimal-lineup.ts:236-309 | The nested loops return the sorted fold (`ReportedSwaps`) and carry all of the facts above. |
| SwapChains.BuildSlotMap | src/lib/optimal-lineup.ts:329-337 | The `map.set` loop yields the slot map of the lineup. |
| SwapChains.SlotMapSpec | src/lib/optimal-lineup.ts:329-337 | An id is mapped exactly when it occurs in the lineup, and it maps to the slot of its last occurrence. |
| SwapChains.SameSlotUnchanged | src/lib/optimal-lineup.ts:357-363 | A player whose actual and optimal slot labels are equal falls into no bucket. |
| SwapChains.CategorizeChanges | src/lib/optimal-lineup.ts:350-364 | The bucket loop returns `Categorize` of the roster against the two maps. |
| SwapChains.CategorizeSpec | src/lib/optimal-lineup.ts:350-364 | A bucket holds exactly the roster players of its kind, each with its recorded change: "Bench" as the source slot for a bench player, "Bench" as the target for a benched one. |
| SwapChains.ClassifyBucket | src/lib/optimal-lineup.ts:357-363 | Classifying one player appends its change to the bucket of its kind and to no other. |
| SwapChains.BucketsDisjoint | src/lib/optimal-lineup.ts:357-363 | No player is in two buckets, and equal labels put a player in none. |
| SwapChains.FindSpec | src/lib/optimal-lineup.ts:379-389 | `find` returns the first entry that left the slot and is unused, or nothing exactly when there is none. |
| SwapChains.TraceChainToEnd | src/lib/optimal-lineup.ts:368-401 | The depth loop returns the chain, the benched player and the used slot changes, as `TraceChain` gives them. |
| SwapChains.TraceChainFacts | src/lib/optimal-lineup.ts:368-401 | See the eighth note below this table. |
| SwapChains.TraceStops | src/lib/optimal-lineup.ts:377-400 | Each step adds at most one hop. A trace without a benched starter ran out of steps or hit a dead end. |
| SwapChains.MakeSwapExplained | src/lib/optimal-lineup.ts:417-475 | See the ninth note below this table. |
| SwapChains.ChainFoldExplained | src/lib/optimal-lineup.ts:411-477 | Every swap the turns make is explained by the three buckets. |
| SwapChains.ChainsDisjoint | src/lib/optimal-lineup.ts:386-393 | No slot-change player is consumed by two chains: the chains of different turns share no player, and each chain's players are marked used by the end. |
| SwapChains.ChainFoldBenchedOnce | src/lib/optimal-lineup.ts:417-418 | Each benched starter's id is marked used as its swap is made, so no starter is benched by two swaps. |
| SwapChains.ChainStepConsumes | src/lib/optimal-lineup.ts:390-393 | A turn marks exactly the ids of its chain's slot changes, which were unused before. This holds even when the trace then fails. |
| SwapChains.ChainFoldGrows | src/lib/optimal-lineup.ts:405-418 | The two used sets only grow from one turn to the next. |
| SwapChains.SwapFor | src/lib/optimal-lineup.ts:419-475 | The branch that builds a turn's swap returns `MakeSwap` of the bench player, the chain and the benched starter. |
| SwapChains.ChainSwapsFor | src/lib/optimal-lineup.ts:404-477 | The loop over the bench-to-starter bucket returns the swaps of the fold of turns. |
| SwapChains.SwapChainsFacts | src/lib/optimal-lineup.ts:480-488 | Every returned swap gains points and is explained. Each is the swap of one turn over the points-sorted bench players (`SwapChains.SwapOfTurn`). The list is sorted by gain descending, then bench id ascending, and benches each starter at most once. |
| SwapChains.ChainFoldSwapsAreTurns | src/lib/optimal-lineup.ts:411-477 | Every swap the loop pushes is `MakeSwap` of one turn i: the bench player of turn i, the chain of turn i in `TurnChains`, and the unused benched starter that chain reached. |
| SwapChains.SwapChainsAreTurns | src/lib/optimal-lineup.ts:404-488 | Every swap left after the filter and the sort is the swap of one turn over the bench players sorted by points descending. |
| SwapChains.BuildSwapChains | src/lib/optimal-lineup.ts:323-489 | Returns `SwapChainsOf` of its inputs: positive gains only, explained, sorted, each starter benched at most once. |
| ReportGenerator.FindMatchup | src/lib/report-generator.ts:66-68 | Returns the first boxscore involving the team, home or away, and nothing exactly when none does. |
| ReportGenerator.FindTeam | src/lib/report-generator.ts:40 | Returns a team of the list with that id, and nothing exactly when there is none. |
| ReportGenerator.BuildTeamNameMap | src/lib/report-generator.ts:46-49 | The `map.set` loop yields the id-to-name map, a later team with the same id winning. |
| ReportGenerator.ProcessWeek | src/lib/report-generator.ts:61-144 | See the tenth note below this table. |
| ReportGenerator.ScoreWeek | src/lib/report-generator.ts:88-135 | See the eleventh note below this table. |
| ReportGenerator.CompareWeek | src/lib/report-generator.ts:89-135 | For a given optimal lineup: optimalScore is its total, and the swaps are the swap chains from the roster's actual lineup to it when points were missed, else none. The week is scored as in ScoreWeek. |
| ReportGenerator.WeekSwaps | src/lib/report-generator.ts:118-121 | No swaps when nothing was missed; otherwise the swap chains. Every swap gains points and the list is in display order. |
| ReportGenerator.TotalsAppend | src/lib/report-generator.ts:100-143 | One more week adds its own share to every total. The worst week changes only to a week that missed strictly more. |
| ReportGenerator.TalliedAppend | src/lib/report-generator.ts:100-143 | The loop body's updates of the seven running totals keep them equal to the totals of the weeks reported so far. |
| ReportGenerator.GenerateReport | src/lib/report-generator.ts:39-162 | See the twelfth note below this table. |
| ReportGenerator.TiedWeek | src/lib/report-generator.ts:96-115 | A tied week is neither a win, nor a loss, nor a blown win, and has margin 0. |
| ReportGenerator.BlownWinMargin | src/lib/report-generator.ts:110-113 | A week is a blown win exactly when its margin is positive. The margin is then optimal score − opponent score. |
| ReportGenerator.SeasonCounts | src/lib/report-generator.ts:100-138 | Wins, losses and ties add up to the number of weeks. Blown wins ≤ losses, and the bench total is ≥ 0. |
| ReportGenerator.WorstOfSpec | src/lib/report-generator.ts:141-143 | The worst week is absent exactly when no week is reported. Otherwise it is the earliest week with the most points missed. |
| ReportGenerator.PlayableWeeksSpec | src/lib/report-generator.ts:61-85 | The reported weeks increase and are exactly the weeks 1..totalWeeks that are not skipped. |
| EspnClient.SanitizedPositions | src/lib/espn-client.ts:32-34 | The sanitised positions are input positions, none of them RB/WR, RB/WR/TE, WR/TE or OP. Every real position of the input stays. |
| EspnClient.SanitizeKeepsOrder | src/lib/espn-client.ts:32-34 | `filter` distributes over concatenation and keeps or drops a single position by the list: the input in order with exactly those removed. |
| EspnClient.SanitizedFields | src/lib/espn-client.ts:24-40 | Default position RB/WR becomes WR, any other stays. Every other field is unchanged. |
| EspnClient.SanitizeIdempotent | src/lib/espn-client.ts:23-41 | Sanitising twice equals sanitising once. |
| EspnClient.SanitizeAll | src/lib/espn-client.ts:49-50 | `map(sanitizePlayer)` keeps the length and sanitises each player in place. |
| EspnClient.SanitizedBoxscore | src/lib/espn-client.ts:46-52 | See the thirteenth note below this table. |
| EspnClient.SanitizeBoxscoreIdempotent | src/lib/espn-client.ts:46-52 | Sanitising a boxscore twice equals sanitising it once. |
| Copy.ToInt32 | src/lib/copy.ts:16 | The result is a signed 32-bit value congruent to the input modulo 2^32. |
| Copy.HashOfIsPolyHash | src/lib/copy.ts:12-17 | The loop's hash is the polynomial hash (31·h + code unit per unit) read as a signed 32-bit integer. |
| Copy.Hash | src/lib/copy.ts:11-19 | `Math.abs` of the 32-bit hash lies in 0..2^31. |
| Copy.HashString | src/lib/copy.ts:11-19 | The loop over the UTF-16 code units returns `Hash` of the string. |
| Copy.JsRem | src/lib/copy.ts:22 | See the fourteenth note below this table. |
| Copy.PickOneMember | src/lib/copy.ts:21-23 | For a seed ≥ 0 and a non-empty list, pickOne returns `options[seed mod n]`, which is an element. |
| Copy.PickOneNegative | src/lib/copy.ts:21-23 | For a negative seed, pickOne finds an element exactly when the seed is a multiple of n, and it is then the first. |
| Copy.OnlyNaNIsIncomparable | src/lib/copy.ts:26 | A per-game value that is neither above nor at most a threshold is NaN, the result of 0/0. |
| Copy.WeekPraisePeriodic | src/lib/copy.ts:240-252 | From week 0, the praise is one of the eight lines, is `options[week mod 8]`, and repeats every eight weeks. |
| Copy.WeekPraiseNegative | src/lib/copy.ts:240-252 | Before week 0, only a multiple of 8 yields a line, the first; any other is undefined. |
| Copy.BlownWinsCases | src/lib/copy.ts:205-237 | 0, 1, 2 and 3 blown wins pick their own bucket, and any other count the catch-all bucket. |
| Copy.BlownWinsLines | src/lib/copy.ts:205-237 | Every blown-wins bucket has three lines. |
| Copy.BlownWinsSummaryDefined | src/lib/copy.ts:202-238 | The summary is always a line of the bucket for the count. |
| Copy.HeadlineRanges | src/lib/copy.ts:254-285 | The buckets are the strict ranges >40, (25,40], (15,25], (8,15] and ≤8. |
| Copy.HeadlineLines | src/lib/copy.ts:256-283 | Every bucket above 8 points has at least two lines. |
| Copy.WeekRoastHeadlineDefined | src/lib/copy.ts:254-285 | Up to 8 points missed gives the fixed line. Above that, from week 0 on, it gives a line of the bucket. |
| Copy.BenchRanges | src/lib/copy.ts:163-200 | The buckets are the strict per-game ranges >15, (10,15], (6,10], (3,6] and ≤3. NaN falls into the last bucket and +∞ into the first. |
| Copy.BenchLines | src/lib/copy.ts:167-199 | Every bench bucket has three lines. |
| Copy.BenchPointsSummaryDefined | src/lib/copy.ts:163-200 | The summary is always a line of the bucket of the per-game average. |
| Copy.VerdictFirstMatch | src/lib/copy.ts:25-161 | The verdict's bucket is the first rung of the fifteen whose condition holds. |
| Copy.IronicChampionWins | src/lib/copy.ts:31-38 | A champion with a blown win gets the ironic bucket, whatever the other statistics. |
| Copy.AverageOnlyWithoutWeeks | src/lib/copy.ts:141-160 | The closing constant is reached exactly when the per-game value is NaN (no weeks, no bench points) and no earlier rung holds. |
| Copy.VerdictLines | src/lib/copy.ts:33-160 | Every verdict bucket but the last has at least two lines, and the last is the one closing line. |
| Copy.VerdictDefined | src/lib/copy.ts:25-161 | The verdict is always a line of its bucket, seeded by the hash of team name and season, or the closing line. |
| Copy.FormatRecordRoundTrip | src/lib/copy.ts:321-323 | `${wins}-${losses}` reads back as the same two numbers, negative ones included. |
| Decimal.IntToString | src/lib/copy.ts:322 | The decimal of a number: digits only when ≥ 0, and a leading '-' exactly when negative. |
| Decimal.ParseIntToString | src/lib/copy.ts:322 | Reading the decimal back gives the number. |
| ReportView.SuffixIsEnglish | src/components/Report.tsx:19-23 | See the fifteenth note below this table. |
| ReportView.NegativeIsTh | src/components/Report.tsx:19-23 | A negative number always takes "th": every index tried is negative except 0. |
| ReportView.OrdinalShape | src/components/Report.tsx:19-23 | The ordinal is the decimal of n followed by a two-letter suffix from the table, never "undefined". |
| ReportView.Lookup | src/components/Report.tsx:22 | `s[i]` is defined exactly for 0 ≤ i < length, and is then the element. |
| ReportView.OrElse | src/components/Report.tsx:22 | `a \|\| b` is `a` when it is a non-empty string, and otherwise `b`. |
| Sorting.SortSorted | src/lib/optimal-lineup.ts:113-119 | Sorting with a strict weak order gives a list ordered by the comparator and a permutation of the input. |
| Sorting.FilterMembers | src/lib/espn-client.ts:32-34 | `filter` keeps exactly the elements that pass. |
| Sorting.FilterAppend | src/lib/espn-client.ts:32-34 | `filter` distributes over concatenation, so order is kept. |

Notes on the larger contracts in the table:

1. **Lineup.ComputeOptimalLineup.** Its stated properties:
   - The total is the sum of the starters.
   - There are at most as many starters as slot instances.
   - No starter repeats.
   - Each starter comes from the pool, keeps its own points, and sits in a
     non-bench slot it is eligible for.
   - It runs the search with the bound as written.
   - Its total is that of a valid assignment of the sorted pool to the slot
     instances (`Lineup.IsOptimalTotal`).
   - With unique ids and non-negative pool points, it scores at least every
     must-fill completion and every valid assignment. With a negative-scoring
     candidate the as-written search can miss the optimum (see Findings).
   - All of the above except the completion bound is bundled as
     `Lineup.IsBestLineup`, which the week report reuses.
2. **LineupSearch.Dominate.** Any valid assignment of the remaining slots is
   matched or beaten by a completion the search explores.
3. **LineupSearch.Search.Backtrack.** The set, the stack and the choice
   vector are restored. The best score never drops. Once a bound that never
   underestimates is used, every completion from this slot scores at most
   the best minus the current score.
4. **LineupSearch.Solve.** The result comes from a valid choice vector of
   the search space. It is the best of that space when the pool is sorted,
   the ids are unique and the bound in use is admissible.
5. **LineupSearch.FindOptimalAssignmentCorrected.** With the bound's terms
   clamped at 0, the result is optimal over the search space for any points.
   With non-negative points it is optimal over every valid assignment.
6. **GreedySwaps.GreedySwapsMade.** In every swap, a listed bench player
   outscores a starter of a slot type they may play, and
   pointsGained = bench points − starter points > 0.
7. **GreedySwaps.ReportedSwapsFacts.** The reported list:
   - has every swap valid as made;
   - has bench players that are bench players who scored;
   - is sorted by gain descending, then bench id ascending;
   - replaces each starter at most once;
   - uses each bench player at most once when roster ids are distinct.
8. **SwapChains.TraceChainFacts.** The chain:
   - has at most 10 hops;
   - is linked slot to slot;
   - consumes only fresh slot changes, each once, marking exactly their
     ids;
   - ends at an unused benched starter, or ran out of steps, or hit a dead
     end.
9. **SwapChains.MakeSwapExplained.** A turn's swap is explained:
   - gain = bench player's points − benched starter's points;
   - a zero-hop chain gives a simple swap at the target slot;
   - otherwise it gives a simple swap at the benched starter's slot when
     the bench player is eligible for it;
   - failing that, a chain swap whose target slot and move are those of the
     chain's last hop: a fresh slot change whose player moved into the slot
     the benched starter left.
10. **ReportGenerator.ProcessWeek.** A week is skipped exactly when it has
    no boxscores, no matchup, an empty or missing roster, or a missing
    score. A reported week comes from the team's own matchup and is
    internally consistent. It was scored against a best lineup of its own
    roster (`ReportGenerator.Explained`, an existential over
    `ReportGenerator.ComparedWith`). Its optimal score is that lineup's
    total. Its swaps are the swap chains from the roster's actual lineup to
    that lineup when points were missed, and none otherwise.
11. **ReportGenerator.ScoreWeek.** pointsMissed = max(0, optimal total −
    the sum of the actual lineup). won and lost come from strict score
    comparison. isPlayoffs means week ≥ playoffStartWeek. A blown win is a
    loss whose optimum beats the opponent. The optimal score is that of a
    valid lineup of the roster's pool, and no valid lineup scores more when
    ids are unique and no candidate scores below zero. The ghost result
    `optimalLineup` is the lineup it computed: it satisfies
    `Lineup.IsBestLineup`, its total is the optimal score, and the swaps are
    the swap chains from the actual lineup to it when points were missed,
    and none otherwise.
12. **ReportGenerator.GenerateReport.**
    - "Team not found" is returned exactly when the team is missing.
    - The header fields come from the team, the league and the season.
    - The totals are those of the reported weeks.
    - The weeks are exactly the playable ones, in order, each from its
      matchup, each scored against a best lineup of its own roster, with
      that lineup's total as its optimal score and the swap chains to
      that lineup as its swaps.
13. **EspnClient.SanitizedBoxscore.** Both rosters are present afterwards,
    and a missing one becomes empty. Each roster keeps its length, with
    every player sanitised in place. The team ids and scores are kept.
14. **Copy.JsRem.** JavaScript's `%`: the remainder has the dividend's sign
    and is smaller in size than the divisor.
15. **ReportView.SuffixIsEnglish.** For n ≥ 0 the suffix is the English one:
    - "th" when n mod 100 is 11, 12 or 13;
    - otherwise "st", "nd" or "rd" for a last digit of 1, 2 or 3;
    - "th" for any other last digit, 0 included.

## Left out

- Network and I/O are not modelled:
  - the ESPN fetch functions and client construction in
    `src/lib/espn-client.ts`;
  - the `Promise.all` fetches of `generateReport`;
  - the API routes, Redis storage, and every UI component except
    `getOrdinal`.

  The model takes the fetched `boxscoresByWeek`, league settings and teams
  as parameters, and the season id as a parameter.
- Floating point is not modelled. Points are exact reals, so sums do not
  round. `toFixed` is not modelled: the verdict takes the caller's
  `pointsPerGame.toFixed(1)` string as a parameter. `getBlownWinMessage`,
  `getSeasonSummary` and `getLoadingMessages` in `src/lib/copy.ts` are not
  part of this model; they are formatting and text only.
- A `Number`-to-string conversion of a non-integer is not modelled. Ids,
  counts, seasons and weeks are integers.
- Sorting.SortSorted: proves that the output is ordered and a permutation,
  but not that `Array.prototype.sort` is stable. Stability is what makes
  ties keep roster order.
- LineupSearch.Solve: states optimality but not that, among equal scores,
  the first assignment found in search order is kept. The strict `>` and
  the `<=` prune give that tie-break. Proving it needs an order on choice
  vectors that follows the search (players in sorted order, a slot left
  empty only when no player fits it)
  and an invariant that every completion explored so far comes no later
  than the kept one. The coverage invariant only bounds scores and does not
  track that order.
- LineupSearch.Search.Backtrack: the recursive closure `backtrack` is split
  into four mutually recursive methods (Backtrack, FillSlot, Place,
  LeaveEmpty). The search's used set, stack and best fields are class
  fields instead of captured variables.
- Lineup.ComputeOptimalLineup: optimality is proved only with unique ids
  and non-negative pool points. With a negative-scoring candidate the
  as-written bound can prune the optimum (see Findings). The corrected
  solver LineupSearch.FindOptimalAssignmentCorrected is proved optimal for
  any points but is not what the report uses.
- GreedySwaps.CalculateSwaps: its `optimalLineup` parameter is unused, as
  in the source. The inner scan is the separate method FindWorstStarter.
- SwapChains.TraceChainToEnd: the `usedSlotChanges` set it mutates in the
  source, shared with the caller, is returned as a new set. The caller
  threads that set instead of sharing it.
- ReportGenerator.ScoreWeek: the scoring of a week is split into
  ScoreWeek, CompareWeek and WeekSwaps, which together are the loop body's
  lines 88-135.
- ReportGenerator.GenerateReport: an absent owner name is represented as
  the empty string, which the `'Unknown Owner'` fallback replaces.
- Types.EligiblePositionsFor: JavaScript object lookups of inherited keys
  (a slot label such as `toString`) are not modelled. Only the table's own
  keys are found.
- Copy.Hash: JavaScript strings are UTF-16. The model converts each Dafny
  character to one code unit, or to a surrogate pair above U+FFFF.
- The `LineupSwap` and `LineupSwapV2` mismatch in what `WeekResult.swaps`
  holds is a presentation issue. The model types the field as the swap
  chains' output.

## Findings

| source | as written | input that shows it | evidently intended | confidence | as-written member | corrected member |
|---|---|---|---|---|---|---|
| src/lib/optimal-lineup.ts:145-156 | The prune bound sums the raw points of the top k unused candidates, so a negative-scoring started player lowers it. | Slots RB, WR, K. Candidates h (6, RB or WR), l (4, RB, bench), n (−10, RB, started), sorted as h, l, n. After h at RB gives 6, the branch l at RB has bound 6 + (−10), and 4 − 4 ≤ 6 prunes it. Yet l at RB with h at WR scores 10. The solver returns 6. | The bound never underestimates a branch, so the search finds the true optimum the comment at lines 92-93 promises. Each candidate's term is clamped at 0. | not executed | LineupSearch.FindOptimalAssignment, LineupSearch.BoundCounterexample | LineupSearch.FindOptimalAssignmentCorrected |

/**
 * calculateSwaps, the older greedy explainer: every bench player who scored,
 * best first, replaces the lowest-scoring starter of a slot type they can
 * play whom they outscored and who has not been replaced already.
 */
module GreedySwaps {
  import opened Wrappers
  import opened Types
  import opened SlotRequirements
  import Decimal
  import Sorting

  /** A key of SLOT_ELIGIBILITY whose positions the player can fill. */
  predicate SlotFits(player: Player, slot: string) {
    slot in SlotEligibility && IsPlayerEligibleForSlot(player, SlotEligibility[slot])
  }

  /** The keys among `keys` that the player can fill, in the order given. */
  function EligibleSlotsAmong(player: Player, keys: seq<string>): (r: seq<string>)
    ensures |r| <= |keys|
  {
    if keys == [] then []
    else
      var slot := keys[|keys| - 1];
      EligibleSlotsAmong(player, keys[..|keys| - 1]) + (if SlotFits(player, slot) then [slot] else [])
  }

  /** The slots of the table the player can fill, in the table's order. */
  function EligibleSlots(player: Player): seq<string> {
    EligibleSlotsAmong(player, SlotEligibilityOrder)
  }

  lemma {:induction false} EligibleSlotsAmongMembers(player: Player, keys: seq<string>)
    ensures forall slot :: slot in EligibleSlotsAmong(player, keys) ==> slot in keys && SlotFits(player, slot)
    ensures forall slot :: slot in keys && SlotFits(player, slot) ==> slot in EligibleSlotsAmong(player, keys)
  {
    if keys != [] {
      var init := keys[..|keys| - 1];
      EligibleSlotsAmongMembers(player, init);
      assert keys == init + [keys[|keys| - 1]];
    }
  }

  /** A slot is listed exactly when it is a table key sharing a position with the player's eligible positions. */
  lemma EligibleSlotsSpec(player: Player)
    ensures forall slot :: slot in EligibleSlots(player) ==>
      slot in SlotEligibility && exists pos :: pos in player.eligiblePositions && pos in SlotEligibility[slot]
    ensures forall slot, pos :: slot in SlotEligibility && pos in player.eligiblePositions && pos in SlotEligibility[slot] ==>
      slot in EligibleSlots(player)
  {
    StarterSlotsAreTableKeys();
    EligibleSlotsAmongMembers(player, SlotEligibilityOrder);
  }

  lemma EligibleSlotsAmongStep(player: Player, keys: seq<string>, i: int)
    requires 0 <= i < |keys|
    ensures EligibleSlotsAmong(player, keys[..i + 1]) ==
      EligibleSlotsAmong(player, keys[..i]) + (if SlotFits(player, keys[i]) then [keys[i]] else [])
  {
    assert keys[..i + 1][..i] == keys[..i];
  }

  /** getEligibleSlotsForPlayer: a pass over the table's entries. */
  method EligibleSlotsForPlayer(player: Player) returns (eligibleSlots: seq<string>)
    ensures eligibleSlots == EligibleSlots(player)
  {
    StarterSlotsAreTableKeys();
    eligibleSlots := [];
    for i := 0 to |SlotEligibilityOrder|
      invariant eligibleSlots == EligibleSlotsAmong(player, SlotEligibilityOrder[..i])
    {
      var slot := SlotEligibilityOrder[i];
      EligibleSlotsAmongStep(player, SlotEligibilityOrder, i);
      assert slot in SlotEligibility;
      var positions := SlotEligibility[slot];
      if IsPlayerEligibleForSlot(player, positions) {
        eligibleSlots := eligibleSlots + [slot];
      }
    }
    assert SlotEligibilityOrder[..|SlotEligibilityOrder|] == SlotEligibilityOrder;
  }

  /** The `${slot}-${id}` key that marks a starter's slot as taken. */
  function SlotKey(a: Assignment): string {
    a.slot + "-" + Decimal.IntToString(a.player.id)
  }

  /** The swaps found so far and the slot keys and starter ids they used up. */
  datatype GreedyState = GreedyState(swaps: seq<LineupSwap>, usedSlots: set<string>, usedStarterIds: set<int>)

  /** A starter the bench player may replace: a slot type they can play, not taken, and outscored. */
  predicate Replaceable(bench: Player, eligible: seq<string>, st: GreedyState, s: Assignment) {
    && s.slot in eligible
    && SlotKey(s) !in st.usedSlots
    && s.player.id !in st.usedStarterIds
    && bench.totalPoints > s.points
  }

  /** The scan for `worstStarter`: the replaceable starter with the fewest points, the earliest among ties. */
  function Worst(bench: Player, eligible: seq<string>, st: GreedyState, lineup: seq<Assignment>): Option<Assignment> {
    if lineup == [] then None
    else
      var w := Worst(bench, eligible, st, lineup[..|lineup| - 1]);
      var s := lineup[|lineup| - 1];
      if Replaceable(bench, eligible, st, s) && (w.None? || s.points < w.value.points) then Some(s) else w
  }

  /** There is no candidate exactly when no starter is replaceable. */
  lemma {:induction false} WorstNone(bench: Player, eligible: seq<string>, st: GreedyState, lineup: seq<Assignment>)
    ensures Worst(bench, eligible, st, lineup).None? <==> forall j :: 0 <= j < |lineup| ==> !Replaceable(bench, eligible, st, lineup[j])
  {
    if lineup != [] {
      var init := lineup[..|lineup| - 1];
      WorstNone(bench, eligible, st, init);
      assert forall j :: 0 <= j < |init| ==> init[j] == lineup[j];
    }
  }

  /**
   * The candidate is a replaceable starter at some position k; no replaceable
   * starter scored less, and every replaceable one before k scored more.
   */
  lemma {:induction false} WorstIsLowest(bench: Player, eligible: seq<string>, st: GreedyState, lineup: seq<Assignment>)
    requires Worst(bench, eligible, st, lineup).Some?
    ensures exists k :: 0 <= k < |lineup| && lineup[k] == Worst(bench, eligible, st, lineup).value && FirstLowest(bench, eligible, st, lineup, k)
  {
    var n := |lineup|;
    var init := lineup[..n - 1];
    var w := Worst(bench, eligible, st, init);
    var s := lineup[n - 1];
    if Replaceable(bench, eligible, st, s) && (w.None? || s.points < w.value.points) {
      if w.None? {
        WorstNone(bench, eligible, st, init);
        forall j | 0 <= j < n - 1 ensures !Replaceable(bench, eligible, st, lineup[j]) {
          assert init[j] == lineup[j];
        }
      } else {
        WorstIsLowest(bench, eligible, st, init);
        var k :| 0 <= k < |init| && init[k] == w.value && FirstLowest(bench, eligible, st, init, k);
        forall j | 0 <= j < n - 1 && Replaceable(bench, eligible, st, lineup[j]) ensures s.points < lineup[j].points {
          assert init[j] == lineup[j];
        }
      }
      LastIsLowest(bench, eligible, st, lineup);
    } else {
      WorstIsLowest(bench, eligible, st, init);
      var k :| 0 <= k < |init| && init[k] == w.value && FirstLowest(bench, eligible, st, init, k);
      EarlierStaysLowest(bench, eligible, st, lineup, k);
    }
  }

  /** A last starter below every replaceable one before it is the first lowest. */
  lemma LastIsLowest(bench: Player, eligible: seq<string>, st: GreedyState, lineup: seq<Assignment>)
    requires |lineup| > 0 && Replaceable(bench, eligible, st, lineup[|lineup| - 1])
    requires forall j :: 0 <= j < |lineup| - 1 && Replaceable(bench, eligible, st, lineup[j]) ==> lineup[|lineup| - 1].points < lineup[j].points
    ensures FirstLowest(bench, eligible, st, lineup, |lineup| - 1)
  {
  }

  /** The first lowest of all but the last starter stays first lowest when the last does not undercut it. */
  lemma EarlierStaysLowest(bench: Player, eligible: seq<string>, st: GreedyState, lineup: seq<Assignment>, k: int)
    requires 0 <= k < |lineup| - 1 && FirstLowest(bench, eligible, st, lineup[..|lineup| - 1], k)
    requires var s := lineup[|lineup| - 1]; !Replaceable(bench, eligible, st, s) || lineup[k].points <= s.points
    ensures FirstLowest(bench, eligible, st, lineup, k)
  {
    var n := |lineup|;
    var init := lineup[..n - 1];
    assert init[k] == lineup[k];
    forall j | 0 <= j < n && Replaceable(bench, eligible, st, lineup[j]) ensures lineup[k].points <= lineup[j].points {
      if j < n - 1 {
        assert init[j] == lineup[j];
      }
    }
    forall j | 0 <= j < k && Replaceable(bench, eligible, st, lineup[j]) ensures lineup[k].points < lineup[j].points {
      assert init[j] == lineup[j];
    }
  }

  /** Position k holds a replaceable starter with the fewest points, and the first such. */
  ghost predicate FirstLowest(bench: Player, eligible: seq<string>, st: GreedyState, lineup: seq<Assignment>, k: int)
    requires 0 <= k < |lineup|
  {
    && Replaceable(bench, eligible, st, lineup[k])
    && (forall j :: 0 <= j < |lineup| && Replaceable(bench, eligible, st, lineup[j]) ==> lineup[k].points <= lineup[j].points)
    && (forall j :: 0 <= j < k && Replaceable(bench, eligible, st, lineup[j]) ==> lineup[k].points < lineup[j].points)
  }

  /** One bench player's turn: swap in for the candidate, if there is one, and mark it used. */
  function Consider(st: GreedyState, bench: Player, lineup: seq<Assignment>): GreedyState {
    match Worst(bench, EligibleSlots(bench), st, lineup)
    case None => st
    case Some(w) =>
      GreedyState(
        st.swaps + [SwapOf(bench, w)],
        st.usedSlots + {SlotKey(w)},
        st.usedStarterIds + {w.player.id})
  }

  /** The turns of the bench players in order, from no swaps and nothing used. */
  function Greedy(benchPlayers: seq<Player>, lineup: seq<Assignment>): GreedyState {
    if benchPlayers == [] then GreedyState([], {}, {})
    else Consider(Greedy(benchPlayers[..|benchPlayers| - 1], lineup), benchPlayers[|benchPlayers| - 1], lineup)
  }

  /** A bench or IR player who scored above 0. */
  predicate ScoredOnBench(p: Player) {
    IsBenchSlot(p.rosteredPosition) && p.totalPoints > 0.0
  }

  /** `(a, b) => b.totalPoints - a.totalPoints` is negative. */
  predicate PointsAhead(a: Player, b: Player) {
    a.totalPoints > b.totalPoints
  }

  /** The bench players who scored, highest first. */
  function BenchCandidates(roster: seq<Player>): seq<Player> {
    Sorting.Sort(Sorting.Filter(roster, ScoredOnBench), PointsAhead)
  }

  /** The display order of swaps: larger gain first, then the smaller bench player id. */
  predicate SwapAhead(a: LineupSwap, b: LineupSwap) {
    a.pointsGained > b.pointsGained || (a.pointsGained == b.pointsGained && a.benchPlayer.id < b.benchPlayer.id)
  }

  function PlayerId(p: Player): int { p.id }
  function StartedId(s: LineupSwap): int { s.startedPlayer.id }
  function BenchId(s: LineupSwap): int { s.benchPlayer.id }

  /** A swap the explainer may report: a listed bench player outscored a starter of a slot type they can play. */
  ghost predicate SwapMade(benchPlayers: seq<Player>, lineup: seq<Assignment>, s: LineupSwap) {
    && s.benchPlayer in benchPlayers
    && s.slot in EligibleSlots(s.benchPlayer)
    && s.pointsGained > 0.0
    && exists a :: a in lineup && a.player == s.startedPlayer && a.slot == s.slot
                   && s.pointsGained == s.benchPlayer.totalPoints - a.points
  }

  /** The swap a bench player's turn records against the chosen starter. */
  function SwapOf(bench: Player, w: Assignment): LineupSwap {
    LineupSwap(bench, w.player, bench.totalPoints - w.points, w.slot)
  }

  lemma TurnTaken(st: GreedyState, bench: Player, lineup: seq<Assignment>)
    requires Worst(bench, EligibleSlots(bench), st, lineup).Some?
    ensures Worst(bench, EligibleSlots(bench), st, lineup).value in lineup
    ensures Replaceable(bench, EligibleSlots(bench), st, Worst(bench, EligibleSlots(bench), st, lineup).value)
    ensures Consider(st, bench, lineup).swaps == st.swaps + [SwapOf(bench, Worst(bench, EligibleSlots(bench), st, lineup).value)]
    ensures Consider(st, bench, lineup).usedStarterIds == st.usedStarterIds + {Worst(bench, EligibleSlots(bench), st, lineup).value.player.id}
  {
    WorstIsLowest(bench, EligibleSlots(bench), st, lineup);
  }

  /** Every swap of the fold is one the explainer may report. */
  lemma {:induction false} GreedySwapsMade(benchPlayers: seq<Player>, lineup: seq<Assignment>)
    ensures forall s :: s in Greedy(benchPlayers, lineup).swaps ==> SwapMade(benchPlayers, lineup, s)
  {
    if benchPlayers != [] {
      var n := |benchPlayers|;
      var init := benchPlayers[..n - 1];
      var b := benchPlayers[n - 1];
      GreedySwapsMade(init, lineup);
      var st := Greedy(init, lineup);
      assert forall p :: p in init ==> p in benchPlayers;
      var w := Worst(b, EligibleSlots(b), st, lineup);
      if w.Some? {
        TurnTaken(st, b, lineup);
        assert SwapMade(benchPlayers, lineup, SwapOf(b, w.value));
      }
    }
  }

  /** Every replaced starter's id is marked used, so no starter is replaced twice. */
  lemma {:induction false} GreedyStartedDistinct(benchPlayers: seq<Player>, lineup: seq<Assignment>)
    ensures forall s :: s in Greedy(benchPlayers, lineup).swaps ==> s.startedPlayer.id in Greedy(benchPlayers, lineup).usedStarterIds
    ensures Sorting.DistinctBy(Greedy(benchPlayers, lineup).swaps, StartedId)
  {
    if benchPlayers != [] {
      var n := |benchPlayers|;
      var init := benchPlayers[..n - 1];
      var b := benchPlayers[n - 1];
      GreedyStartedDistinct(init, lineup);
      var st := Greedy(init, lineup);
      var w := Worst(b, EligibleSlots(b), st, lineup);
      if w.Some? {
        TurnTaken(st, b, lineup);
        Sorting.AppendDistinct(st.swaps, SwapOf(b, w.value), StartedId);
      }
    }
  }

  /** When the bench players' ids are distinct, no bench player is swapped in twice. */
  lemma {:induction false} GreedyBenchDistinct(benchPlayers: seq<Player>, lineup: seq<Assignment>)
    requires Sorting.DistinctBy(benchPlayers, PlayerId)
    ensures forall s :: s in Greedy(benchPlayers, lineup).swaps ==> s.benchPlayer in benchPlayers
    ensures Sorting.DistinctBy(Greedy(benchPlayers, lineup).swaps, BenchId)
  {
    if benchPlayers != [] {
      var n := |benchPlayers|;
      var init := benchPlayers[..n - 1];
      var b := benchPlayers[n - 1];
      assert Sorting.DistinctBy(init, PlayerId) by {
        forall i, j | 0 <= i < j < |init| ensures init[i].id != init[j].id {
          assert init[i] == benchPlayers[i] && init[j] == benchPlayers[j];
        }
      }
      GreedyBenchDistinct(init, lineup);
      var st := Greedy(init, lineup);
      assert forall p :: p in init ==> p in benchPlayers;
      var w := Worst(b, EligibleSlots(b), st, lineup);
      if w.Some? {
        TurnTaken(st, b, lineup);
        forall y | y in st.swaps ensures BenchId(y) != BenchId(SwapOf(b, w.value)) {
          var m :| 0 <= m < |init| && init[m] == y.benchPlayer;
          assert benchPlayers[m] == init[m];
        }
        Sorting.AppendDistinct(st.swaps, SwapOf(b, w.value), BenchId);
      }
    }
  }

  /** The bench list holds exactly the bench players who scored, highest first, with the roster's distinct ids kept distinct. */
  lemma BenchCandidatesFacts(roster: seq<Player>)
    ensures forall p :: p in BenchCandidates(roster) <==> p in roster && ScoredOnBench(p)
    ensures Sorting.SortedBy(BenchCandidates(roster), PointsAhead)
    ensures Sorting.DistinctBy(roster, PlayerId) ==> Sorting.DistinctBy(BenchCandidates(roster), PlayerId)
  {
    var f := Sorting.Filter(roster, ScoredOnBench);
    Sorting.FilterMembers(roster, ScoredOnBench);
    assert Sorting.StrictWeakOrder(PointsAhead);
    Sorting.SortSorted(f, PointsAhead);
    var r := BenchCandidates(roster);
    forall p ensures p in r <==> p in f {
      assert p in r <==> p in multiset(r);
      assert p in f <==> p in multiset(f);
    }
    if Sorting.DistinctBy(roster, PlayerId) {
      Sorting.FilterKeepsDistinct(roster, ScoredOnBench, PlayerId);
      Sorting.PermutationKeepsDistinct(f, r, PlayerId);
    }
  }

  /** The reported list, the fold's swaps sorted for display. */
  function ReportedSwaps(actualLineup: seq<Assignment>, fullRoster: seq<Player>): seq<LineupSwap> {
    Sorting.Sort(Greedy(BenchCandidates(fullRoster), actualLineup).swaps, SwapAhead)
  }

  /**
   * Each reported swap is a listed bench player, who scored, in for a starter
   * of a slot type they can play, for a positive gain of their points less the
   * starter's; the list is in display order; no starter is replaced twice, and
   * no bench player is used twice when the roster's ids are distinct.
   */
  lemma ReportedSwapsFacts(actualLineup: seq<Assignment>, fullRoster: seq<Player>)
    ensures forall s :: s in ReportedSwaps(actualLineup, fullRoster) ==> SwapMade(BenchCandidates(fullRoster), actualLineup, s)
    ensures forall s :: s in ReportedSwaps(actualLineup, fullRoster) ==> s.benchPlayer in fullRoster && ScoredOnBench(s.benchPlayer)
    ensures Sorting.SortedBy(ReportedSwaps(actualLineup, fullRoster), SwapAhead)
    ensures Sorting.DistinctBy(ReportedSwaps(actualLineup, fullRoster), StartedId)
    ensures Sorting.DistinctBy(fullRoster, PlayerId) ==> Sorting.DistinctBy(ReportedSwaps(actualLineup, fullRoster), BenchId)
  {
    var benchPlayers := BenchCandidates(fullRoster);
    var found := Greedy(benchPlayers, actualLineup).swaps;
    var swaps := ReportedSwaps(actualLineup, fullRoster);
    GreedySwapsMade(benchPlayers, actualLineup);
    GreedyStartedDistinct(benchPlayers, actualLineup);
    BenchCandidatesFacts(fullRoster);
    assert Sorting.StrictWeakOrder(SwapAhead);
    Sorting.SortSorted(found, SwapAhead);
    forall s | s in swaps ensures s in found {
      assert s in multiset(swaps);
    }
    Sorting.PermutationKeepsDistinct(found, swaps, StartedId);
    if Sorting.DistinctBy(fullRoster, PlayerId) {
      GreedyBenchDistinct(benchPlayers, actualLineup);
      Sorting.PermutationKeepsDistinct(found, swaps, BenchId);
    }
  }

  /** The inner scan of calculateSwaps for one bench player. */
  method FindWorstStarter(benchPlayer: Player, eligibleSlots: seq<string>, usedSlots: set<string>,
                          usedStarterIds: set<int>, actualLineup: seq<Assignment>)
    returns (worstStarter: Option<Assignment>)
    ensures worstStarter == Worst(benchPlayer, eligibleSlots, GreedyState([], usedSlots, usedStarterIds), actualLineup)
  {
    ghost var st := GreedyState([], usedSlots, usedStarterIds);
    worstStarter := None;
    for k := 0 to |actualLineup|
      invariant worstStarter == Worst(benchPlayer, eligibleSlots, st, actualLineup[..k])
    {
      var starter := actualLineup[k];
      assert actualLineup[..k + 1][..k] == actualLineup[..k];
      if starter.slot !in eligibleSlots {
        continue;
      }
      if SlotKey(starter) in usedSlots {
        continue;
      }
      if starter.player.id in usedStarterIds {
        continue;
      }
      if benchPlayer.totalPoints <= starter.points {
        continue;
      }
      if worstStarter.None? || starter.points < worstStarter.value.points {
        worstStarter := Some(starter);
      }
    }
    assert actualLineup[..|actualLineup|] == actualLineup;
  }

  /** Replaceability ignores the swaps already recorded. */
  lemma {:induction false} WorstIgnoresSwaps(bench: Player, eligible: seq<string>, st: GreedyState, lineup: seq<Assignment>)
    ensures Worst(bench, eligible, st, lineup) == Worst(bench, eligible, GreedyState([], st.usedSlots, st.usedStarterIds), lineup)
  {
    if lineup != [] {
      WorstIgnoresSwaps(bench, eligible, st, lineup[..|lineup| - 1]);
    }
  }

  /**
   * calculateSwaps: the greedy turns over the bench list, then the sort for
   * display. The optimal lineup is accepted and not used.
   */
  method CalculateSwaps(actualLineup: seq<Assignment>, optimalLineup: OptimalLineup, fullRoster: seq<Player>)
    returns (swaps: seq<LineupSwap>)
    ensures swaps == ReportedSwaps(actualLineup, fullRoster)
    ensures forall s :: s in swaps ==> SwapMade(BenchCandidates(fullRoster), actualLineup, s)
    ensures forall s :: s in swaps ==> s.benchPlayer in fullRoster && ScoredOnBench(s.benchPlayer)
    ensures Sorting.SortedBy(swaps, SwapAhead)
    ensures Sorting.DistinctBy(swaps, StartedId)
    ensures Sorting.DistinctBy(fullRoster, PlayerId) ==> Sorting.DistinctBy(swaps, BenchId)
  {
    var found: seq<LineupSwap> := [];
    var usedSlots: set<string> := {};
    var usedStarterIds: set<int> := {};
    var benchPlayers := BenchCandidates(fullRoster);

    for b := 0 to |benchPlayers|
      invariant GreedyState(found, usedSlots, usedStarterIds) == Greedy(benchPlayers[..b], actualLineup)
    {
      var benchPlayer := benchPlayers[b];
      var eligibleSlots := EligibleSlotsForPlayer(benchPlayer);
      var worstStarter := FindWorstStarter(benchPlayer, eligibleSlots, usedSlots, usedStarterIds, actualLineup);
      WorstIgnoresSwaps(benchPlayer, eligibleSlots, GreedyState(found, usedSlots, usedStarterIds), actualLineup);
      if worstStarter.Some? {
        var w := worstStarter.value;
        found := found + [SwapOf(benchPlayer, w)];
        usedSlots := usedSlots + {SlotKey(w)};
        usedStarterIds := usedStarterIds + {w.player.id};
      }
      assert benchPlayers[..b + 1][..b] == benchPlayers[..b];
    }
    assert benchPlayers[..|benchPlayers|] == benchPlayers;

    swaps := Sorting.Sort(found, SwapAhead);
    ReportedSwapsFacts(actualLineup, fullRoster);
  }
}

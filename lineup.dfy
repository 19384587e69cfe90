/**
 * computeOptimalLineup and getActualLineup: the candidate pool, its
 * ordering, the call into the search, and the lineup the manager set.
 */
module Lineup {
  import opened Wrappers
  import opened Types
  import opened SlotRequirements
  import opened LineupSearch
  import Sorting

  /** A roster player the solver may use: anyone started, or a bench/IR player who scored above 0. */
  predicate InPool(p: Player) {
    !IsBenchSlot(p.rosteredPosition) || p.totalPoints > 0.0
  }

  /** The roster filtered to the pool, in roster order. */
  function CandidatePool(roster: seq<Player>): (r: seq<Player>)
    ensures forall p :: multiset(r)[p] == if InPool(p) then multiset(roster)[p] else 0
  {
    if roster == [] then []
    else
      assert roster == [roster[0]] + roster[1..];
      (if InPool(roster[0]) then [roster[0]] else []) + CandidatePool(roster[1..])
  }

  lemma {:induction false} CandidatePoolAppend(a: seq<Player>, b: seq<Player>)
    ensures CandidatePool(a + b) == CandidatePool(a) + CandidatePool(b)
  {
    if a == [] {
      assert a + b == b;
    } else {
      assert (a + b)[0] == a[0] && (a + b)[1..] == a[1..] + b;
      CandidatePoolAppend(a[1..], b);
    }
  }

  /** The pool's order: more points first, then the smaller id. */
  predicate RanksAhead(a: Player, b: Player) {
    a.totalPoints > b.totalPoints || (a.totalPoints == b.totalPoints && a.id < b.id)
  }

  /** The pool sorted as the solver receives it. */
  function SortedCandidates(roster: seq<Player>): (r: seq<Player>)
    ensures multiset(r) == multiset(CandidatePool(roster))
    ensures forall i, j :: 0 <= i < j < |r| ==>
      r[i].totalPoints > r[j].totalPoints || (r[i].totalPoints == r[j].totalPoints && r[i].id <= r[j].id)
  {
    assert Sorting.StrictWeakOrder(RanksAhead);
    Sorting.SortSorted(CandidatePool(roster), RanksAhead);
    Sorting.Sort(CandidatePool(roster), RanksAhead)
  }

  /** Ids unique in the roster stay unique in the sorted pool, which is sorted by points. */
  lemma SortedCandidatesFacts(roster: seq<Player>)
    ensures SortedByPointsDesc(SortedCandidates(roster))
    ensures forall p :: p in SortedCandidates(roster) <==> p in roster && InPool(p)
    ensures UniqueIds(roster) ==> UniqueIds(SortedCandidates(roster))
  {
    var r := SortedCandidates(roster);
    forall p ensures p in r <==> p in roster && InPool(p) {
      assert p in r <==> multiset(r)[p] > 0;
      assert p in roster <==> multiset(roster)[p] > 0;
    }
  }

  /**
   * `total` is the score of the best lineup: some valid choice of the sorted
   * pool into the slot instances scores it, and, when ids are unique and no
   * candidate scores below zero, no valid choice scores more.
   */
  ghost predicate IsOptimalTotal(roster: seq<Player>, league: League, total: real) {
    && (exists x: Choice :: IsLineupChoice(SortedCandidates(roster), SlotInstances(league), x) && Total(x) == total)
    && (UniqueIds(roster) && NonNegative(CandidatePool(roster)) ==>
          forall x: Choice :: IsLineupChoice(SortedCandidates(roster), SlotInstances(league), x) ==> Total(x) <= total)
  }

  /**
   * `lineup` is a best lineup of the roster: its starters are distinct pool
   * players, each in a slot instance it is eligible for, its total is their
   * sum, and that total is the optimum.
   */
  ghost predicate IsBestLineup(roster: seq<Player>, league: League, lineup: OptimalLineup) {
    && lineup.totalPoints == SumPoints(lineup.starters)
    && |lineup.starters| <= |SlotInstances(league)|
    && DistinctPlayers(lineup.starters)
    && (forall a :: a in lineup.starters ==>
          && a.player in roster && InPool(a.player) && a.points == a.player.totalPoints
          && !IsBenchSlot(a.slot) && IsPlayerEligibleForSlot(a.player, EligiblePositionsFor(a.slot)))
    && IsOptimalTotal(roster, league, lineup.totalPoints)
  }

  /**
   * computeOptimalLineup: the lineup the search finds from the pool into the
   * league's slot instances, with the bound as written; its total is the sum
   * of its starters' points. It is the best lineup when no candidate scores
   * below zero.
   */
  method ComputeOptimalLineup(roster: seq<Player>, league: League) returns (lineup: OptimalLineup)
    ensures lineup.totalPoints == SumPoints(lineup.starters)
    ensures |lineup.starters| <= |SlotInstances(league)|
    ensures DistinctPlayers(lineup.starters)
    ensures forall a :: a in lineup.starters ==>
      && a.player in roster && InPool(a.player) && a.points == a.player.totalPoints
      && !IsBenchSlot(a.slot) && IsPlayerEligibleForSlot(a.player, EligiblePositionsFor(a.slot))
    ensures UniqueIds(roster) && NonNegative(CandidatePool(roster)) ==>
      forall c: Choice :: IsCompletion(SortedCandidates(roster), SlotInstances(league), 0, {}, c) ==> Total(c) <= lineup.totalPoints
    ensures UniqueIds(roster) && NonNegative(CandidatePool(roster)) ==>
      forall x: Choice :: IsLineupChoice(SortedCandidates(roster), SlotInstances(league), x) ==> Total(x) <= lineup.totalPoints
    ensures IsOptimalTotal(roster, league, lineup.totalPoints)
    ensures IsBestLineup(roster, league, lineup)
  {
    var requirements := ParseSlotRequirements(league);
    var expanded := ExpandSlots(requirements);
    var slots := SortSlotsByRestrictiveness(expanded);
    var sortedPlayers := SortedCandidates(roster);
    var bestAssignment;
    ghost var chosen;
    bestAssignment, chosen := FindOptimalAssignment(sortedPlayers, slots);
    lineup := OptimalLineup(bestAssignment, SumPoints(bestAssignment));

    SortedCandidatesFacts(roster);
    SlotInstancesLabelled(league);
    RealiseTotal(slots, chosen);
    RealiseMembers(sortedPlayers, slots, chosen);
    RealiseDistinct(sortedPlayers, slots, chosen);
    if NonNegative(CandidatePool(roster)) {
      assert NonNegative(sortedPlayers);
    }
    assert IsLineupChoice(sortedPlayers, slots, chosen) && Total(chosen) == lineup.totalPoints;
  }

  /** getActualLineup: every roster player outside Bench and IR, in roster order, at the slot they were set in. */
  function GetActualLineup(roster: seq<Player>): (r: seq<Assignment>)
    ensures |r| <= |roster|
    ensures forall a :: a in r ==>
      a.player in roster && a.slot == a.player.rosteredPosition && a.points == a.player.totalPoints && !IsBenchSlot(a.slot)
    ensures forall p :: p in roster && !IsBenchSlot(p.rosteredPosition) ==> Assignment(p, p.rosteredPosition, p.totalPoints) in r
  {
    if roster == [] then []
    else
      var p := roster[0];
      assert roster == [p] + roster[1..];
      (if IsBenchSlot(p.rosteredPosition) then [] else [Assignment(p, p.rosteredPosition, p.totalPoints)])
        + GetActualLineup(roster[1..])
  }

  lemma {:induction false} GetActualLineupAppend(a: seq<Player>, b: seq<Player>)
    ensures GetActualLineup(a + b) == GetActualLineup(a) + GetActualLineup(b)
  {
    if a == [] {
      assert a + b == b;
    } else {
      assert (a + b)[0] == a[0] && (a + b)[1..] == a[1..] + b;
      GetActualLineupAppend(a[1..], b);
    }
  }
}

/**
 * Slot requirements (first part of the lineup engine): the league's slot
 * counts become one requirement per starter slot, then one instance per
 * required player, ordered with the most restrictive slots first.
 */
module SlotRequirements {
  import opened Wrappers
  import opened Types
  import Sorting

  datatype SlotRequirement = SlotRequirement(slot: string, count: int, eligiblePositions: seq<string>)

  /** `league.rosterSettings?.lineupPositionCount || {}`, as the entries `Object.entries` yields. */
  function CountEntries(league: League): seq<(string, int)> {
    league.lineupPositionCount.GetOr([])
  }

  /** An entry that produces a requirement: not a bench or IR slot, and a positive count. */
  predicate Kept(entry: (string, int)) {
    !IsBenchSlot(entry.0) && entry.1 > 0
  }

  function RequirementOf(entry: (string, int)): SlotRequirement {
    SlotRequirement(entry.0, entry.1, EligiblePositionsFor(entry.0))
  }

  /** The requirements `parseSlotRequirements` collects from the first |entries| entries. */
  function Requirements(entries: seq<(string, int)>): (r: seq<SlotRequirement>)
    ensures forall q :: q in r ==> q.count > 0 && !IsBenchSlot(q.slot) && q.eligiblePositions == EligiblePositionsFor(q.slot)
    ensures forall q :: q in r <==> exists e :: e in entries && Kept(e) && q == RequirementOf(e)
  {
    if entries == [] then []
    else
      var last := entries[|entries| - 1];
      assert entries == entries[..|entries| - 1] + [last];
      Requirements(entries[..|entries| - 1]) + (if Kept(last) then [RequirementOf(last)] else [])
  }

  /** parseSlotRequirements: skips bench/IR and non-positive counts, looks up (or falls back to) the eligible positions. */
  method ParseSlotRequirements(league: League) returns (requirements: seq<SlotRequirement>)
    ensures requirements == Requirements(CountEntries(league))
  {
    var entries := CountEntries(league);
    requirements := [];
    var i := 0;
    while i < |entries|
      invariant 0 <= i <= |entries|
      invariant requirements == Requirements(entries[..i])
    {
      var (slot, count) := entries[i];
      assert entries[..i + 1][..i] == entries[..i];
      if IsBenchSlot(slot) {
        i := i + 1;
        continue;
      }
      if count <= 0 {
        i := i + 1;
        continue;
      }
      var eligiblePositions := EligiblePositionsFor(slot);
      requirements := requirements + [SlotRequirement(slot, count, eligiblePositions)];
      i := i + 1;
    }
    assert entries[..i] == entries;
  }

  /** `count` copies of a requirement (none when count <= 0). */
  function Repeat(q: SlotRequirement, count: int): (r: seq<SlotRequirement>)
    ensures |r| == if count <= 0 then 0 else count
    ensures forall x :: x in r ==> x == q
  {
    if count <= 0 then [] else Repeat(q, count - 1) + [q]
  }

  /** The slot instances of expandSlots: each requirement repeated `count` times, in order. */
  function Expanded(requirements: seq<SlotRequirement>): seq<SlotRequirement> {
    if requirements == [] then []
    else
      var last := requirements[|requirements| - 1];
      Expanded(requirements[..|requirements| - 1]) + Repeat(last, last.count)
  }

  method ExpandSlots(requirements: seq<SlotRequirement>) returns (expanded: seq<SlotRequirement>)
    ensures expanded == Expanded(requirements)
  {
    expanded := [];
    var k := 0;
    while k < |requirements|
      invariant 0 <= k <= |requirements|
      invariant expanded == Expanded(requirements[..k])
    {
      var req := requirements[k];
      assert requirements[..k + 1][..k] == requirements[..k];
      var i := 0;
      while i < req.count
        invariant 0 <= i && (req.count > 0 ==> i <= req.count) && (req.count <= 0 ==> i == 0)
        invariant expanded == Expanded(requirements[..k]) + Repeat(req, i)
      {
        expanded := expanded + [req];
        i := i + 1;
      }
      assert Repeat(req, i) == Repeat(req, req.count);
      assert Expanded(requirements[..k + 1]) == Expanded(requirements[..k]) + Repeat(req, req.count);
      k := k + 1;
    }
    assert requirements[..k] == requirements;
  }

  lemma {:induction false} RepeatCount(q: SlotRequirement, count: int, x: SlotRequirement)
    ensures multiset(Repeat(q, count))[x] == if x == q && count > 0 then count else 0
  {
    if count > 0 {
      RepeatCount(q, count - 1, x);
    }
  }

  /** With pairwise different requirements, each appears among the instances exactly `count` times. */
  lemma {:induction false} ExpandedCount(requirements: seq<SlotRequirement>, x: SlotRequirement)
    requires DistinctSlots(requirements)
    requires forall q :: q in requirements ==> q.count > 0
    ensures multiset(Expanded(requirements))[x] == if x in requirements then x.count else 0
  {
    if requirements != [] {
      var n := |requirements|;
      var init, last := requirements[..n - 1], requirements[n - 1];
      assert requirements == init + [last];
      ExpandedCount(init, x);
      RepeatCount(last, last.count, x);
      assert x == last ==> x !in init by {
        forall k | 0 <= k < |init| ensures init[k] != last {
          assert requirements[k] == init[k];
        }
      }
    }
  }

  /** sortSlotsByRestrictiveness compares by `a.eligiblePositions.length - b.eligiblePositions.length`. */
  predicate MoreRestrictive(a: SlotRequirement, b: SlotRequirement) {
    |a.eligiblePositions| < |b.eligiblePositions|
  }

  function SortSlotsByRestrictiveness(slots: seq<SlotRequirement>): (r: seq<SlotRequirement>)
    ensures multiset(r) == multiset(slots)
    ensures forall i, j :: 0 <= i < j < |r| ==> |r[i].eligiblePositions| <= |r[j].eligiblePositions|
  {
    assert Sorting.StrictWeakOrder(MoreRestrictive);
    Sorting.SortSorted(slots, MoreRestrictive);
    Sorting.Sort(slots, MoreRestrictive)
  }

  /** The slot instances the solver fills, in the order it fills them. */
  function SlotInstances(league: League): seq<SlotRequirement> {
    SortSlotsByRestrictiveness(Expanded(Requirements(CountEntries(league))))
  }

  predicate DistinctKeys(entries: seq<(string, int)>) {
    forall i, j :: 0 <= i < j < |entries| ==> entries[i].0 != entries[j].0
  }

  predicate DistinctSlots(r: seq<SlotRequirement>) {
    forall i, j :: 0 <= i < j < |r| ==> r[i].slot != r[j].slot
  }

  lemma {:induction false} RequirementsDistinct(entries: seq<(string, int)>)
    requires DistinctKeys(entries)
    ensures DistinctSlots(Requirements(entries))
  {
    if entries != [] {
      var n := |entries|;
      var init := entries[..n - 1];
      assert entries == init + [entries[n - 1]];
      assert DistinctKeys(init) by {
        forall i, j | 0 <= i < j < |init| ensures init[i].0 != init[j].0 {
          assert init[i] == entries[i] && init[j] == entries[j];
        }
      }
      RequirementsDistinct(init);
      var r := Requirements(entries);
      var ri := Requirements(init);
      forall i | 0 <= i < |ri| ensures ri[i].slot != entries[n - 1].0 {
        assert ri[i] in ri;
        var e :| e in init && Kept(e) && ri[i] == RequirementOf(e);
        var k :| 0 <= k < |init| && init[k] == e;
        assert entries[k] == e;
      }
      if Kept(entries[n - 1]) {
        assert r == ri + [RequirementOf(entries[n - 1])];
        forall i, j | 0 <= i < j < |r| ensures r[i].slot != r[j].slot {
          if j < |ri| {
            assert r[i] == ri[i] && r[j] == ri[j];
          } else {
            assert r[i] == ri[i];
          }
        }
      } else {
        assert r == ri;
      }
    }
  }

  /**
   * The slot instances hold every kept entry exactly `count` times, nothing
   * else, with the eligible positions of the table (or the label itself), and
   * slots with fewer eligible positions come first.
   */
  lemma SlotInstancesSpec(league: League)
    requires DistinctKeys(CountEntries(league))
    ensures var entries, instances := CountEntries(league), SlotInstances(league);
      && (forall e :: e in entries && Kept(e) ==> multiset(instances)[RequirementOf(e)] == e.1)
      && (forall q :: q in instances ==> exists e :: e in entries && Kept(e) && q == RequirementOf(e))
      && (forall q :: q in instances ==> q.eligiblePositions == EligiblePositionsFor(q.slot))
      && (forall i, j :: 0 <= i < j < |instances| ==> |instances[i].eligiblePositions| <= |instances[j].eligiblePositions|)
  {
    var entries := CountEntries(league);
    var reqs := Requirements(entries);
    var instances := SlotInstances(league);
    RequirementsDistinct(entries);
    forall x ensures multiset(instances)[x] == if x in reqs then x.count else 0 {
      ExpandedCount(reqs, x);
    }
    forall q | q in instances ensures q in reqs {
      assert q in multiset(instances);
    }
    forall e | e in entries && Kept(e) ensures multiset(instances)[RequirementOf(e)] == e.1 {
      assert RequirementOf(e) in reqs;
    }
  }

  lemma {:induction false} ExpandedMembers(requirements: seq<SlotRequirement>)
    ensures forall q :: q in Expanded(requirements) ==> q in requirements
  {
    if requirements != [] {
      var n := |requirements|;
      ExpandedMembers(requirements[..n - 1]);
      assert forall q :: q in requirements[..n - 1] ==> q in requirements;
    }
  }

  /** Every slot instance is a starter slot (never bench or IR) carrying its label's eligible positions. */
  lemma SlotInstancesLabelled(league: League)
    ensures forall q :: q in SlotInstances(league) ==>
      !IsBenchSlot(q.slot) && q.count > 0 && q.eligiblePositions == EligiblePositionsFor(q.slot)
  {
    var reqs := Requirements(CountEntries(league));
    ExpandedMembers(reqs);
    forall q | q in SlotInstances(league) ensures q in reqs {
      assert q in multiset(SlotInstances(league));
    }
  }

  /** isPlayerEligibleForSlot: `player.eligiblePositions.some(pos => eligiblePositions.includes(pos))`. */
  function IsPlayerEligibleForSlot(player: Player, eligiblePositions: seq<string>): (r: bool)
    ensures r <==> exists pos :: pos in player.eligiblePositions && pos in eligiblePositions
  {
    SomeIn(player.eligiblePositions, eligiblePositions)
  }

  function SomeIn(positions: seq<string>, accepted: seq<string>): (r: bool)
    ensures r <==> exists pos :: pos in positions && pos in accepted
  {
    if positions == [] then false
    else positions[0] in accepted || (assert positions == [positions[0]] + positions[1..]; SomeIn(positions[1..], accepted))
  }
}

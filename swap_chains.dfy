/**
 * buildSwapChains: the chain-aware explainer. Every roster player whose slot
 * differs between the actual and the optimal lineup is sorted into one of
 * three buckets; each bench player the optimal lineup starts follows the chain
 * of displaced starters from their target slot until a starter who went to the
 * bench is reached, and that becomes one swap.
 */
module SwapChains {
  import opened Wrappers
  import opened Types
  import opened SlotRequirements
  import Sorting

  /** A player with the slot the manager used and the slot the optimum uses. */
  datatype PlayerChange = PlayerChange(player: Player, actualSlot: string, optimalSlot: string)

  // ---------------------------------------------------------------------------
  // Step 1: player id to slot

  /** `map.set(id, slot)` over the lineup in order: a later entry for the same id wins. */
  function SlotMap(lineup: seq<Assignment>): map<int, string> {
    if lineup == [] then map[]
    else
      var a := lineup[|lineup| - 1];
      SlotMap(lineup[..|lineup| - 1])[a.player.id := a.slot]
  }

  /** An id is mapped exactly when it occurs, and to the slot of its last occurrence. */
  lemma {:induction false} SlotMapSpec(lineup: seq<Assignment>)
    ensures forall id :: id in SlotMap(lineup) <==> exists k :: 0 <= k < |lineup| && lineup[k].player.id == id
    ensures forall id :: id in SlotMap(lineup) ==> exists k :: 0 <= k < |lineup| && LastFor(lineup, id, k) && SlotMap(lineup)[id] == lineup[k].slot
  {
    if lineup != [] {
      var n := |lineup|;
      var init := lineup[..n - 1];
      SlotMapSpec(init);
      forall id | id in SlotMap(lineup)
        ensures exists k :: 0 <= k < n && LastFor(lineup, id, k) && SlotMap(lineup)[id] == lineup[k].slot
      {
        if id == lineup[n - 1].player.id {
          assert LastFor(lineup, id, n - 1);
        } else {
          assert id in SlotMap(init) && SlotMap(lineup)[id] == SlotMap(init)[id];
          var k :| 0 <= k < |init| && LastFor(init, id, k) && SlotMap(init)[id] == init[k].slot;
          assert LastFor(lineup, id, k);
        }
      }
      forall id | exists k :: 0 <= k < n && lineup[k].player.id == id ensures id in SlotMap(lineup) {
        var k :| 0 <= k < n && lineup[k].player.id == id;
        if k < n - 1 {
          assert init[k] == lineup[k];
        }
      }
    }
  }

  /** Position k holds the last entry of the lineup for `id`. */
  ghost predicate LastFor(lineup: seq<Assignment>, id: int, k: int)
    requires 0 <= k < |lineup|
  {
    lineup[k].player.id == id && forall j :: k < j < |lineup| ==> lineup[j].player.id != id
  }

  method BuildSlotMap(lineup: seq<Assignment>) returns (slotMap: map<int, string>)
    ensures slotMap == SlotMap(lineup)
  {
    slotMap := map[];
    for i := 0 to |lineup|
      invariant slotMap == SlotMap(lineup[..i])
    {
      assert lineup[..i + 1][..i] == lineup[..i];
      slotMap := slotMap[lineup[i].player.id := lineup[i].slot];
    }
    assert lineup[..|lineup|] == lineup;
  }

  // ---------------------------------------------------------------------------
  // Step 2: the three buckets

  /** `map.get(id) ?? 'Bench'`. */
  function SlotOrBench(slotMap: map<int, string>, id: int): string {
    if id in slotMap then slotMap[id] else "Bench"
  }

  /** `slot === 'Bench' || BENCH_SLOTS.includes(slot)`. */
  predicate IsBenchLabel(slot: string) {
    slot == "Bench" || IsBenchSlot(slot)
  }

  datatype ChangeKind = BenchToStarter | StarterToBench | SlotChange | Unchanged

  /** The bucket a player with these two slots falls into. */
  function KindOf(actualSlot: string, optimalSlot: string): ChangeKind {
    var isActualBench := IsBenchLabel(actualSlot);
    var isOptimalBench := IsBenchLabel(optimalSlot);
    if isActualBench && !isOptimalBench then BenchToStarter
    else if !isActualBench && isOptimalBench then StarterToBench
    else if !isActualBench && !isOptimalBench && actualSlot != optimalSlot then SlotChange
    else Unchanged
  }

  /** A player whose two slot labels are equal changes nothing. */
  lemma SameSlotUnchanged(slot: string)
    ensures KindOf(slot, slot) == Unchanged
  {
  }

  datatype Buckets = Buckets(benchToStarter: seq<PlayerChange>, starterToBench: seq<PlayerChange>, slotChanges: seq<PlayerChange>)

  /** The change recorded for a player: a bench player counts as coming from "Bench", a benched one as going to it. */
  function ChangeOf(player: Player, actualSlot: string, optimalSlot: string): PlayerChange {
    match KindOf(actualSlot, optimalSlot)
    case BenchToStarter => PlayerChange(player, "Bench", optimalSlot)
    case StarterToBench => PlayerChange(player, actualSlot, "Bench")
    case _ => PlayerChange(player, actualSlot, optimalSlot)
  }

  function Classify(b: Buckets, player: Player, actualSlot: string, optimalSlot: string): Buckets {
    var c := ChangeOf(player, actualSlot, optimalSlot);
    match KindOf(actualSlot, optimalSlot)
    case BenchToStarter => b.(benchToStarter := b.benchToStarter + [c])
    case StarterToBench => b.(starterToBench := b.starterToBench + [c])
    case SlotChange => b.(slotChanges := b.slotChanges + [c])
    case Unchanged => b
  }

  /** The roster classified in order against the two slot maps. */
  function Categorize(roster: seq<Player>, actualSlotMap: map<int, string>, optimalSlotMap: map<int, string>): Buckets {
    if roster == [] then Buckets([], [], [])
    else
      var p := roster[|roster| - 1];
      Classify(Categorize(roster[..|roster| - 1], actualSlotMap, optimalSlotMap), p,
               SlotOrBench(actualSlotMap, p.id), SlotOrBench(optimalSlotMap, p.id))
  }

  /** The change a roster player is recorded with, judged by the two maps. */
  function RosterChange(p: Player, actualSlotMap: map<int, string>, optimalSlotMap: map<int, string>): PlayerChange {
    ChangeOf(p, SlotOrBench(actualSlotMap, p.id), SlotOrBench(optimalSlotMap, p.id))
  }

  function RosterKind(p: Player, actualSlotMap: map<int, string>, optimalSlotMap: map<int, string>): ChangeKind {
    KindOf(SlotOrBench(actualSlotMap, p.id), SlotOrBench(optimalSlotMap, p.id))
  }

  /** The entries of the bucket that holds players of this kind. */
  function Bucket(b: Buckets, kind: ChangeKind): seq<PlayerChange> {
    match kind
    case BenchToStarter => b.benchToStarter
    case StarterToBench => b.starterToBench
    case SlotChange => b.slotChanges
    case Unchanged => []
  }

  /**
   * A bucket holds exactly the changes of the roster players of its kind; so
   * no player is in two buckets, and one whose two labels agree is in none.
   */
  lemma {:induction false} CategorizeSpec(roster: seq<Player>, actualSlotMap: map<int, string>, optimalSlotMap: map<int, string>, kind: ChangeKind)
    ensures forall c :: c in Bucket(Categorize(roster, actualSlotMap, optimalSlotMap), kind) ==>
      c.player in roster && kind != Unchanged && RosterKind(c.player, actualSlotMap, optimalSlotMap) == kind
      && c == RosterChange(c.player, actualSlotMap, optimalSlotMap)
    ensures forall p :: p in roster && RosterKind(p, actualSlotMap, optimalSlotMap) == kind && kind != Unchanged ==>
      RosterChange(p, actualSlotMap, optimalSlotMap) in Bucket(Categorize(roster, actualSlotMap, optimalSlotMap), kind)
  {
    if roster != [] {
      var init := roster[..|roster| - 1];
      var p := roster[|roster| - 1];
      CategorizeSpec(init, actualSlotMap, optimalSlotMap, kind);
      ClassifyBucket(Categorize(init, actualSlotMap, optimalSlotMap), p,
                     SlotOrBench(actualSlotMap, p.id), SlotOrBench(optimalSlotMap, p.id), kind);
      assert roster == init + [p];
    }
  }

  /** Classifying a player appends its change to the bucket of its kind and to no other. */
  lemma ClassifyBucket(b: Buckets, player: Player, actualSlot: string, optimalSlot: string, kind: ChangeKind)
    ensures Bucket(Classify(b, player, actualSlot, optimalSlot), kind) ==
      Bucket(b, kind) + (if kind != Unchanged && KindOf(actualSlot, optimalSlot) == kind then [ChangeOf(player, actualSlot, optimalSlot)] else [])
  {
  }

  /** The changes in the three buckets carry the slots the two maps give, and no player is in two buckets. */
  lemma BucketsDisjoint(roster: seq<Player>, actualSlotMap: map<int, string>, optimalSlotMap: map<int, string>)
    ensures var b := Categorize(roster, actualSlotMap, optimalSlotMap);
      && (forall c, d :: c in b.benchToStarter && d in b.starterToBench ==> c.player != d.player)
      && (forall c, d :: c in b.benchToStarter && d in b.slotChanges ==> c.player != d.player)
      && (forall c, d :: c in b.starterToBench && d in b.slotChanges ==> c.player != d.player)
    ensures forall p :: p in roster && SlotOrBench(actualSlotMap, p.id) == SlotOrBench(optimalSlotMap, p.id) ==>
      RosterKind(p, actualSlotMap, optimalSlotMap) == Unchanged
  {
    CategorizeSpec(roster, actualSlotMap, optimalSlotMap, BenchToStarter);
    CategorizeSpec(roster, actualSlotMap, optimalSlotMap, StarterToBench);
    CategorizeSpec(roster, actualSlotMap, optimalSlotMap, SlotChange);
  }

  /** The bucket loop of buildSwapChains. */
  method CategorizeChanges(fullRoster: seq<Player>, actualSlotMap: map<int, string>, optimalSlotMap: map<int, string>)
    returns (benchToStarter: seq<PlayerChange>, starterToBench: seq<PlayerChange>, slotChanges: seq<PlayerChange>)
    ensures Buckets(benchToStarter, starterToBench, slotChanges) == Categorize(fullRoster, actualSlotMap, optimalSlotMap)
  {
    benchToStarter, starterToBench, slotChanges := [], [], [];
    for i := 0 to |fullRoster|
      invariant Buckets(benchToStarter, starterToBench, slotChanges) == Categorize(fullRoster[..i], actualSlotMap, optimalSlotMap)
    {
      var player := fullRoster[i];
      assert fullRoster[..i + 1][..i] == fullRoster[..i];
      var actualSlot := if player.id in actualSlotMap then actualSlotMap[player.id] else "Bench";
      var optimalSlot := if player.id in optimalSlotMap then optimalSlotMap[player.id] else "Bench";
      var isActualBench := actualSlot == "Bench" || IsBenchSlot(actualSlot);
      var isOptimalBench := optimalSlot == "Bench" || IsBenchSlot(optimalSlot);
      if isActualBench && !isOptimalBench {
        benchToStarter := benchToStarter + [PlayerChange(player, "Bench", optimalSlot)];
      } else if !isActualBench && isOptimalBench {
        starterToBench := starterToBench + [PlayerChange(player, actualSlot, "Bench")];
      } else if !isActualBench && !isOptimalBench && actualSlot != optimalSlot {
        slotChanges := slotChanges + [PlayerChange(player, actualSlot, optimalSlot)];
      }
    }
    assert fullRoster[..|fullRoster|] == fullRoster;
  }

  // ---------------------------------------------------------------------------
  // Step 3: tracing a chain

  /** An entry that left `slot` and whose player is not used yet. */
  predicate Vacates(c: PlayerChange, slot: string, used: set<int>) {
    c.actualSlot == slot && c.player.id !in used
  }

  /** `changes.find(c => c.actualSlot === slot && !used.has(c.player.id))`. */
  function Find(changes: seq<PlayerChange>, slot: string, used: set<int>): Option<PlayerChange> {
    if changes == [] then None
    else if Vacates(changes[0], slot, used) then Some(changes[0])
    else Find(changes[1..], slot, used)
  }

  /** `find` yields the first matching entry, or nothing when none matches. */
  lemma {:induction false} FindSpec(changes: seq<PlayerChange>, slot: string, used: set<int>)
    ensures Find(changes, slot, used).None? <==> forall j :: 0 <= j < |changes| ==> !Vacates(changes[j], slot, used)
    ensures Find(changes, slot, used).Some? ==>
      (exists k :: 0 <= k < |changes| && changes[k] == Find(changes, slot, used).value
         && Vacates(changes[k], slot, used) && forall j :: 0 <= j < k ==> !Vacates(changes[j], slot, used))
  {
    if changes != [] && !Vacates(changes[0], slot, used) {
      FindSpec(changes[1..], slot, used);
      if Find(changes, slot, used).Some? {
        var k :| 0 <= k < |changes[1..]| && changes[1..][k] == Find(changes, slot, used).value
          && Vacates(changes[1..][k], slot, used) && forall j :: 0 <= j < k ==> !Vacates(changes[1..][j], slot, used);
        forall j | 0 <= j < k + 1 ensures !Vacates(changes[j], slot, used) {
          if j > 0 {
            assert changes[j] == changes[1..][j - 1];
          }
        }
      }
      forall j | 0 < j < |changes| ensures changes[j] == changes[1..][j - 1] {
      }
    }
  }

  lemma FindFound(changes: seq<PlayerChange>, slot: string, used: set<int>)
    requires Find(changes, slot, used).Some?
    ensures Find(changes, slot, used).value in changes && Vacates(Find(changes, slot, used).value, slot, used)
  {
    FindSpec(changes, slot, used);
  }

  const MaxDepth: nat := 10

  /** The chain found, the benched starter it ends at if any, and the slot-change ids marked used. */
  datatype TraceResult = TraceResult(chain: seq<PlayerChange>, benchedPlayer: Option<PlayerChange>, usedSlotChanges: set<int>)

  /**
   * traceChainToEnd from `slot` with `steps` turns of the loop left and
   * `chain` found so far: a benched starter who left the slot ends it; else an
   * unused slot change that left it is added and marked, and the trace goes on
   * from the slot that player moved to; else it is a dead end.
   */
  function TraceFrom(starterToBench: seq<PlayerChange>, slotChanges: seq<PlayerChange>, slot: string,
                     usedSlotChanges: set<int>, usedStarterToBench: set<int>, steps: nat, chain: seq<PlayerChange>): TraceResult
    decreases steps
  {
    if steps == 0 then TraceResult(chain, None, usedSlotChanges)
    else
      match Find(starterToBench, slot, usedStarterToBench)
      case Some(b) => TraceResult(chain, Some(b), usedSlotChanges)
      case None =>
        match Find(slotChanges, slot, usedSlotChanges)
        case Some(c) =>
          TraceFrom(starterToBench, slotChanges, c.optimalSlot, usedSlotChanges + {c.player.id},
                    usedStarterToBench, steps - 1, chain + [c])
        case None => TraceResult(chain, None, usedSlotChanges)
  }

  function TraceChain(starterToBench: seq<PlayerChange>, slotChanges: seq<PlayerChange>, startSlot: string,
                      usedSlotChanges: set<int>, usedStarterToBench: set<int>): TraceResult {
    TraceFrom(starterToBench, slotChanges, startSlot, usedSlotChanges, usedStarterToBench, MaxDepth, [])
  }

  /**
   * traceChainToEnd. The source adds to the caller's set of used slot changes
   * in place; here the updated set is returned.
   */
  method TraceChainToEnd(starterToBench: seq<PlayerChange>, slotChanges: seq<PlayerChange>, startSlot: string,
                         usedBefore: set<int>, usedStarterToBench: set<int>)
    returns (chain: seq<PlayerChange>, benchedPlayer: Option<PlayerChange>, usedSlotChanges: set<int>)
    ensures TraceResult(chain, benchedPlayer, usedSlotChanges) == TraceChain(starterToBench, slotChanges, startSlot, usedBefore, usedStarterToBench)
  {
    chain := [];
    usedSlotChanges := usedBefore;
    var currentSlot := startSlot;
    for depth := 0 to MaxDepth
      invariant TraceFrom(starterToBench, slotChanges, currentSlot, usedSlotChanges, usedStarterToBench, MaxDepth - depth, chain)
             == TraceChain(starterToBench, slotChanges, startSlot, usedBefore, usedStarterToBench)
    {
      var benched := Find(starterToBench, currentSlot, usedStarterToBench);
      if benched.Some? {
        benchedPlayer := benched;
        return;
      }
      var slotChange := Find(slotChanges, currentSlot, usedSlotChanges);
      if slotChange.Some? {
        chain := chain + [slotChange.value];
        usedSlotChanges := usedSlotChanges + {slotChange.value.player.id};
        currentSlot := slotChange.value.optimalSlot;
      } else {
        benchedPlayer := None;
        return;
      }
    }
    benchedPlayer := None;
  }

  /** The slot the chain ends at: the start, or where its last player moved to. */
  function EndSlot(startSlot: string, chain: seq<PlayerChange>): string {
    if chain == [] then startSlot else chain[|chain| - 1].optimalSlot
  }

  /** Each player of the chain left the slot the one before moved to; the first left the start. */
  ghost predicate Linked(startSlot: string, chain: seq<PlayerChange>) {
    forall i :: 0 <= i < |chain| ==> chain[i].actualSlot == EndSlot(startSlot, chain[..i])
  }

  /** The chain's players are slot changes, each once, none used before the trace. */
  ghost predicate Fresh(slotChanges: seq<PlayerChange>, usedBefore: set<int>, chain: seq<PlayerChange>) {
    && (forall i :: 0 <= i < |chain| ==> chain[i] in slotChanges && chain[i].player.id !in usedBefore)
    && (forall i, j :: 0 <= i < j < |chain| ==> chain[i].player.id != chain[j].player.id)
  }

  function ChangeIds(chain: seq<PlayerChange>): set<int> {
    if chain == [] then {} else ChangeIds(chain[..|chain| - 1]) + {chain[|chain| - 1].player.id}
  }

  lemma {:induction false} ChangeIdsMembers(chain: seq<PlayerChange>)
    ensures forall i :: 0 <= i < |chain| ==> chain[i].player.id in ChangeIds(chain)
    ensures forall id :: id in ChangeIds(chain) ==> exists i :: 0 <= i < |chain| && chain[i].player.id == id
  {
    if chain != [] {
      var init := chain[..|chain| - 1];
      ChangeIdsMembers(init);
      assert forall i :: 0 <= i < |init| ==> init[i] == chain[i];
    }
  }

  /**
   * The trace ends at a benched starter who left the slot the chain ends at and
   * was not used yet; the chain stays linked.
   */
  lemma {:induction false} TraceLinked(starterToBench: seq<PlayerChange>, slotChanges: seq<PlayerChange>, startSlot: string, slot: string,
                                       usedSlotChanges: set<int>, usedStarterToBench: set<int>, steps: nat, chain: seq<PlayerChange>)
    requires Linked(startSlot, chain) && EndSlot(startSlot, chain) == slot
    ensures var t := TraceFrom(starterToBench, slotChanges, slot, usedSlotChanges, usedStarterToBench, steps, chain);
      Linked(startSlot, t.chain) && (t.benchedPlayer.Some? ==> BenchedAt(starterToBench, usedStarterToBench, EndSlot(startSlot, t.chain), t.benchedPlayer.value))
    decreases steps
  {
    if steps > 0 {
      var b := Find(starterToBench, slot, usedStarterToBench);
      if b.Some? {
        FindFound(starterToBench, slot, usedStarterToBench);
      } else {
        var c := Find(slotChanges, slot, usedSlotChanges);
        if c.Some? {
          FindFound(slotChanges, slot, usedSlotChanges);
          var next := chain + [c.value];
          assert next[..|chain|] == chain;
          forall i | 0 <= i < |next| ensures next[i].actualSlot == EndSlot(startSlot, next[..i]) {
            if i < |chain| {
              assert next[..i] == chain[..i];
            }
          }
          TraceLinked(starterToBench, slotChanges, startSlot, c.value.optimalSlot, usedSlotChanges + {c.value.player.id},
                      usedStarterToBench, steps - 1, next);
        }
      }
    }
  }

  /** `b` is an unused benched starter who left `slot`. */
  ghost predicate BenchedAt(starterToBench: seq<PlayerChange>, used: set<int>, slot: string, b: PlayerChange) {
    b in starterToBench && b.actualSlot == slot && b.player.id !in used
  }

  /** A fresh chain stays fresh when extended by an unused slot change not already in it. */
  lemma FreshExtend(slotChanges: seq<PlayerChange>, usedBefore: set<int>, chain: seq<PlayerChange>, c: PlayerChange)
    requires Fresh(slotChanges, usedBefore, chain)
    requires c in slotChanges && c.player.id !in usedBefore + ChangeIds(chain)
    ensures Fresh(slotChanges, usedBefore, chain + [c])
    ensures ChangeIds(chain + [c]) == ChangeIds(chain) + {c.player.id}
  {
    var next := chain + [c];
    assert next[..|chain|] == chain;
    ChangeIdsMembers(chain);
    forall i, j | 0 <= i < j < |next| ensures next[i].player.id != next[j].player.id {
      assert next[i] == chain[i];
    }
    forall i | 0 <= i < |next| ensures next[i] in slotChanges && next[i].player.id !in usedBefore {
      if i < |chain| {
        assert next[i] == chain[i];
      }
    }
  }

  /** The chain's players are fresh slot changes, and exactly their ids are marked used. */
  lemma {:induction false} TraceFresh(starterToBench: seq<PlayerChange>, slotChanges: seq<PlayerChange>, slot: string, usedBefore: set<int>,
                                      usedSlotChanges: set<int>, usedStarterToBench: set<int>, steps: nat, chain: seq<PlayerChange>)
    requires Fresh(slotChanges, usedBefore, chain) && usedSlotChanges == usedBefore + ChangeIds(chain)
    ensures var t := TraceFrom(starterToBench, slotChanges, slot, usedSlotChanges, usedStarterToBench, steps, chain);
      Fresh(slotChanges, usedBefore, t.chain) && t.usedSlotChanges == usedBefore + ChangeIds(t.chain)
    decreases steps
  {
    if steps > 0 && Find(starterToBench, slot, usedStarterToBench).None? {
      var c := Find(slotChanges, slot, usedSlotChanges);
      if c.Some? {
        FindFound(slotChanges, slot, usedSlotChanges);
        var next := chain + [c.value];
        FreshExtend(slotChanges, usedBefore, chain, c.value);
        TraceFresh(starterToBench, slotChanges, c.value.optimalSlot, usedBefore, usedSlotChanges + {c.value.player.id},
                   usedStarterToBench, steps - 1, next);
      }
    }
  }

  /**
   * The trace takes at most `steps` more players, and ends without a benched
   * starter only when the steps ran out or neither bucket has an unused entry
   * that left the slot it stopped at.
   */
  lemma {:induction false} TraceStops(starterToBench: seq<PlayerChange>, slotChanges: seq<PlayerChange>, startSlot: string, slot: string,
                                      usedSlotChanges: set<int>, usedStarterToBench: set<int>, steps: nat, chain: seq<PlayerChange>)
    requires EndSlot(startSlot, chain) == slot
    ensures var t := TraceFrom(starterToBench, slotChanges, slot, usedSlotChanges, usedStarterToBench, steps, chain);
      && |chain| <= |t.chain| <= |chain| + steps
      && (t.benchedPlayer.None? ==> |t.chain| == |chain| + steps || DeadEnd(starterToBench, slotChanges, EndSlot(startSlot, t.chain), t.usedSlotChanges, usedStarterToBench))
    decreases steps
  {
    if steps > 0 && Find(starterToBench, slot, usedStarterToBench).None? {
      var c := Find(slotChanges, slot, usedSlotChanges);
      if c.Some? {
        TraceStops(starterToBench, slotChanges, startSlot, c.value.optimalSlot, usedSlotChanges + {c.value.player.id},
                   usedStarterToBench, steps - 1, chain + [c.value]);
      } else {
        FindSpec(starterToBench, slot, usedStarterToBench);
        FindSpec(slotChanges, slot, usedSlotChanges);
      }
    }
  }

  /** No unused benched starter and no unused slot change left `slot`. */
  ghost predicate DeadEnd(starterToBench: seq<PlayerChange>, slotChanges: seq<PlayerChange>, slot: string,
                          usedSlotChanges: set<int>, usedStarterToBench: set<int>) {
    && (forall c :: c in starterToBench ==> !Vacates(c, slot, usedStarterToBench))
    && (forall c :: c in slotChanges ==> !Vacates(c, slot, usedSlotChanges))
  }

  /** The facts of one trace from the start slot. */
  lemma TraceChainFacts(starterToBench: seq<PlayerChange>, slotChanges: seq<PlayerChange>, startSlot: string,
                        usedSlotChanges: set<int>, usedStarterToBench: set<int>)
    ensures var t := TraceChain(starterToBench, slotChanges, startSlot, usedSlotChanges, usedStarterToBench);
      && |t.chain| <= MaxDepth
      && Linked(startSlot, t.chain)
      && Fresh(slotChanges, usedSlotChanges, t.chain)
      && t.usedSlotChanges == usedSlotChanges + ChangeIds(t.chain)
      && (t.benchedPlayer.Some? ==> BenchedAt(starterToBench, usedStarterToBench, EndSlot(startSlot, t.chain), t.benchedPlayer.value))
      && (t.benchedPlayer.None? ==> |t.chain| == MaxDepth || DeadEnd(starterToBench, slotChanges, EndSlot(startSlot, t.chain), t.usedSlotChanges, usedStarterToBench))
  {
    TraceLinked(starterToBench, slotChanges, startSlot, startSlot, usedSlotChanges, usedStarterToBench, MaxDepth, []);
    TraceFresh(starterToBench, slotChanges, startSlot, usedSlotChanges, usedSlotChanges, usedStarterToBench, MaxDepth, []);
    TraceStops(starterToBench, slotChanges, startSlot, startSlot, usedSlotChanges, usedStarterToBench, MaxDepth, []);
  }

  // ---------------------------------------------------------------------------
  // Step 3: the swaps

  /**
   * The swap for a bench player whose chain ended at `benched`: with no hops, a
   * simple swap at the target slot; with hops, a simple swap at the benched
   * starter's slot when the bench player may play it, else a chain swap shown
   * by the chain's last move.
   */
  function MakeSwap(bts: PlayerChange, chain: seq<PlayerChange>, benched: PlayerChange): SwapV2 {
    var pointsGained := bts.player.totalPoints - benched.player.totalPoints;
    if |chain| > 0 then
      var benchedPlayerOriginalSlot := benched.actualSlot;
      if IsPlayerEligibleForSlot(bts.player, EligiblePositionsFor(benchedPlayerOriginalSlot)) then
        SimpleSwap(bts.player, benched.player, benchedPlayerOriginalSlot, pointsGained)
      else
        var lastMove := chain[|chain| - 1];
        ChainSwap(bts.player, lastMove.actualSlot, IntermediateMove(lastMove.player, lastMove.actualSlot, lastMove.optimalSlot),
                  benched.player, pointsGained)
    else SimpleSwap(bts.player, benched.player, bts.optimalSlot, pointsGained)
  }

  /** The swaps so far and the used slot-change and benched-starter ids. */
  datatype ChainState = ChainState(swaps: seq<SwapV2>, usedSlotChanges: set<int>, usedStarterToBench: set<int>)

  /** One bench player's turn; the slot changes a failed trace marked stay marked. */
  function ChainStep(st: ChainState, bts: PlayerChange, starterToBench: seq<PlayerChange>, slotChanges: seq<PlayerChange>): ChainState {
    var t := TraceChain(starterToBench, slotChanges, bts.optimalSlot, st.usedSlotChanges, st.usedStarterToBench);
    match t.benchedPlayer
    case None => st.(usedSlotChanges := t.usedSlotChanges)
    case Some(b) => ChainState(st.swaps + [MakeSwap(bts, t.chain, b)], t.usedSlotChanges, st.usedStarterToBench + {b.player.id})
  }

  lemma ChainStepIs(st: ChainState, bts: PlayerChange, starterToBench: seq<PlayerChange>, slotChanges: seq<PlayerChange>, t: TraceResult)
    requires t == TraceChain(starterToBench, slotChanges, bts.optimalSlot, st.usedSlotChanges, st.usedStarterToBench)
    ensures t.benchedPlayer.None? ==> ChainStep(st, bts, starterToBench, slotChanges) == ChainState(st.swaps, t.usedSlotChanges, st.usedStarterToBench)
    ensures t.benchedPlayer.Some? ==>
      ChainStep(st, bts, starterToBench, slotChanges) ==
        ChainState(st.swaps + [MakeSwap(bts, t.chain, t.benchedPlayer.value)], t.usedSlotChanges, st.usedStarterToBench + {t.benchedPlayer.value.player.id})
  {
  }

  function ChainFold(benchToStarter: seq<PlayerChange>, starterToBench: seq<PlayerChange>, slotChanges: seq<PlayerChange>): ChainState {
    if benchToStarter == [] then ChainState([], {}, {})
    else
      ChainStep(ChainFold(benchToStarter[..|benchToStarter| - 1], starterToBench, slotChanges),
                benchToStarter[|benchToStarter| - 1], starterToBench, slotChanges)
  }

  /**
   * A swap the explainer may report: a bench player from the list, in for a
   * benched starter, gaining the difference of their points. A simple swap is
   * at the slot the benched starter left. A chain swap's bench player may not
   * play that slot; its move is a slot change whose player left the target
   * slot for the slot the benched starter left.
   */
  ghost predicate Explained(s: SwapV2, benchToStarter: seq<PlayerChange>, starterToBench: seq<PlayerChange>, slotChanges: seq<PlayerChange>) {
    && (exists c :: c in benchToStarter && c.player == s.benchPlayer)
    && s.pointsGained == s.benchPlayer.totalPoints - s.benchedPlayer.totalPoints
    && exists b :: b in starterToBench && b.player == s.benchedPlayer && SlotExplained(s, b, slotChanges)
  }

  ghost predicate SlotExplained(s: SwapV2, b: PlayerChange, slotChanges: seq<PlayerChange>) {
    match s
    case SimpleSwap(_, _, slot, _) => slot == b.actualSlot
    case ChainSwap(benchPlayer, targetSlot, move, _, _) =>
      && move.toSlot == b.actualSlot
      && !IsPlayerEligibleForSlot(benchPlayer, EligiblePositionsFor(b.actualSlot))
      && move.fromSlot == targetSlot
      && PlayerChange(move.player, move.fromSlot, move.toSlot) in slotChanges
  }

  /**
   * The swap a successful trace yields is explained. With no hops it is a
   * simple swap at the bench player's target slot, which the benched starter
   * left. With hops it is a simple swap at the benched starter's slot when the
   * bench player may play it, and otherwise a chain swap whose target slot
   * and move are those of the chain's last hop: a fresh slot change whose
   * player moved into the slot the benched starter left.
   */
  lemma MakeSwapExplained(bts: PlayerChange, benchToStarter: seq<PlayerChange>, starterToBench: seq<PlayerChange>,
                          slotChanges: seq<PlayerChange>, usedSlotChanges: set<int>, usedStarterToBench: set<int>)
    requires bts in benchToStarter
    requires TraceChain(starterToBench, slotChanges, bts.optimalSlot, usedSlotChanges, usedStarterToBench).benchedPlayer.Some?
    ensures var t := TraceChain(starterToBench, slotChanges, bts.optimalSlot, usedSlotChanges, usedStarterToBench);
      Explained(MakeSwap(bts, t.chain, t.benchedPlayer.value), benchToStarter, starterToBench, slotChanges)
    ensures var t := TraceChain(starterToBench, slotChanges, bts.optimalSlot, usedSlotChanges, usedStarterToBench);
      var b := t.benchedPlayer.value;
      var gain := bts.player.totalPoints - b.player.totalPoints;
      |t.chain| == 0 ==>
        b.actualSlot == bts.optimalSlot && MakeSwap(bts, t.chain, b) == SimpleSwap(bts.player, b.player, bts.optimalSlot, gain)
    ensures var t := TraceChain(starterToBench, slotChanges, bts.optimalSlot, usedSlotChanges, usedStarterToBench);
      var b := t.benchedPlayer.value;
      var gain := bts.player.totalPoints - b.player.totalPoints;
      |t.chain| > 0 && IsPlayerEligibleForSlot(bts.player, EligiblePositionsFor(b.actualSlot)) ==>
        MakeSwap(bts, t.chain, b) == SimpleSwap(bts.player, b.player, b.actualSlot, gain)
    ensures var t := TraceChain(starterToBench, slotChanges, bts.optimalSlot, usedSlotChanges, usedStarterToBench);
      var b := t.benchedPlayer.value;
      var gain := bts.player.totalPoints - b.player.totalPoints;
      |t.chain| > 0 && !IsPlayerEligibleForSlot(bts.player, EligiblePositionsFor(b.actualSlot)) ==>
        var last := t.chain[|t.chain| - 1];
        && last in slotChanges && last.player.id !in usedSlotChanges && last.optimalSlot == b.actualSlot
        && MakeSwap(bts, t.chain, b) ==
             ChainSwap(bts.player, last.actualSlot, IntermediateMove(last.player, last.actualSlot, last.optimalSlot), b.player, gain)
  {
    var t := TraceChain(starterToBench, slotChanges, bts.optimalSlot, usedSlotChanges, usedStarterToBench);
    TraceChainFacts(starterToBench, slotChanges, bts.optimalSlot, usedSlotChanges, usedStarterToBench);
    var b := t.benchedPlayer.value;
    var s := MakeSwap(bts, t.chain, b);
    if |t.chain| > 0 {
      var last := t.chain[|t.chain| - 1];
      assert last in slotChanges;
      assert SlotExplained(s, b, slotChanges);
    }
  }

  /** Every swap of the fold is explained, and its benched starter's id is marked used. */
  lemma {:induction false} ChainFoldExplained(benchToStarter: seq<PlayerChange>, starterToBench: seq<PlayerChange>, slotChanges: seq<PlayerChange>)
    ensures forall s :: s in ChainFold(benchToStarter, starterToBench, slotChanges).swaps ==>
      Explained(s, benchToStarter, starterToBench, slotChanges)
  {
    if benchToStarter != [] {
      var n := |benchToStarter|;
      var init := benchToStarter[..n - 1];
      var bts := benchToStarter[n - 1];
      ChainFoldExplained(init, starterToBench, slotChanges);
      var st := ChainFold(init, starterToBench, slotChanges);
      assert forall c :: c in init ==> c in benchToStarter;
      var t := TraceChain(starterToBench, slotChanges, bts.optimalSlot, st.usedSlotChanges, st.usedStarterToBench);
      if t.benchedPlayer.Some? {
        MakeSwapExplained(bts, benchToStarter, starterToBench, slotChanges, st.usedSlotChanges, st.usedStarterToBench);
      }
    }
  }

  /** A fresh chain's players are none of those used before it. */
  lemma FreshDisjoint(slotChanges: seq<PlayerChange>, usedBefore: set<int>, chain: seq<PlayerChange>)
    requires Fresh(slotChanges, usedBefore, chain)
    ensures ChangeIds(chain) !! usedBefore
  {
    ChangeIdsMembers(chain);
    forall id | id in ChangeIds(chain) ensures id !in usedBefore {
      var i :| 0 <= i < |chain| && chain[i].player.id == id;
    }
  }

  /** The chain each bench player's turn traced, in turn order, failed traces included. */
  function TurnChains(benchToStarter: seq<PlayerChange>, starterToBench: seq<PlayerChange>, slotChanges: seq<PlayerChange>): (r: seq<seq<PlayerChange>>)
    ensures |r| == |benchToStarter|
  {
    if benchToStarter == [] then []
    else
      var init := benchToStarter[..|benchToStarter| - 1];
      var st := ChainFold(init, starterToBench, slotChanges);
      TurnChains(init, starterToBench, slotChanges)
        + [TraceChain(starterToBench, slotChanges, benchToStarter[|benchToStarter| - 1].optimalSlot, st.usedSlotChanges, st.usedStarterToBench).chain]
  }

  /**
   * No slot-change player is consumed by two chains: the chains of different
   * turns share no player, and every chain's players are marked used by the
   * end of the fold.
   */
  lemma {:induction false} ChainsDisjoint(benchToStarter: seq<PlayerChange>, starterToBench: seq<PlayerChange>, slotChanges: seq<PlayerChange>)
    ensures |TurnChains(benchToStarter, starterToBench, slotChanges)| == |benchToStarter|
    ensures forall i :: 0 <= i < |benchToStarter| ==>
      ChangeIds(TurnChains(benchToStarter, starterToBench, slotChanges)[i]) <= ChainFold(benchToStarter, starterToBench, slotChanges).usedSlotChanges
    ensures forall i, j :: 0 <= i < j < |benchToStarter| ==>
      ChangeIds(TurnChains(benchToStarter, starterToBench, slotChanges)[i]) !! ChangeIds(TurnChains(benchToStarter, starterToBench, slotChanges)[j])
  {
    if benchToStarter != [] {
      var n := |benchToStarter|;
      var init := benchToStarter[..n - 1];
      var bts := benchToStarter[n - 1];
      ChainsDisjoint(init, starterToBench, slotChanges);
      var st := ChainFold(init, starterToBench, slotChanges);
      var t := TraceChain(starterToBench, slotChanges, bts.optimalSlot, st.usedSlotChanges, st.usedStarterToBench);
      var before := TurnChains(init, starterToBench, slotChanges);
      var chains := TurnChains(benchToStarter, starterToBench, slotChanges);
      assert chains == before + [t.chain];
      ChainStepConsumes(st, bts, starterToBench, slotChanges);
      FreshDisjoint(slotChanges, st.usedSlotChanges, t.chain);
      var used := ChainFold(benchToStarter, starterToBench, slotChanges).usedSlotChanges;
      assert used == st.usedSlotChanges + ChangeIds(t.chain);
      forall i | 0 <= i < n ensures ChangeIds(chains[i]) <= used {
        if i < n - 1 {
          assert chains[i] == before[i];
        }
      }
      forall i, j | 0 <= i < j < n ensures ChangeIds(chains[i]) !! ChangeIds(chains[j]) {
        assert chains[i] == before[i];
        if j < n - 1 {
          assert chains[j] == before[j];
        }
      }
    }
  }

  /**
   * `s` is the swap of turn `i`: that turn's trace, from the state the earlier
   * turns left, reached a benched starter along the turn's chain, and `s` is
   * the swap MakeSwap builds from them.
   */
  ghost predicate SwapOfTurn(s: SwapV2, benchToStarter: seq<PlayerChange>, starterToBench: seq<PlayerChange>,
                             slotChanges: seq<PlayerChange>, i: int)
    requires 0 <= i < |benchToStarter|
  {
    var st := ChainFold(benchToStarter[..i], starterToBench, slotChanges);
    var t := TraceChain(starterToBench, slotChanges, benchToStarter[i].optimalSlot, st.usedSlotChanges, st.usedStarterToBench);
    && t.benchedPlayer.Some?
    && t.chain == TurnChains(benchToStarter, starterToBench, slotChanges)[i]
    && s == MakeSwap(benchToStarter[i], t.chain, t.benchedPlayer.value)
  }

  /** Every swap of the fold is the swap of one of its turns. */
  /** `s` is the swap recorded by one of the turns over `benchToStarter`. */
  ghost predicate IsTurnSwap(s: SwapV2, benchToStarter: seq<PlayerChange>, starterToBench: seq<PlayerChange>,
                             slotChanges: seq<PlayerChange>)
  {
    exists i :: 0 <= i < |benchToStarter| && SwapOfTurn(s, benchToStarter, starterToBench, slotChanges, i)
  }

  lemma {:induction false} ChainFoldSwapsAreTurns(benchToStarter: seq<PlayerChange>, starterToBench: seq<PlayerChange>,
                                                  slotChanges: seq<PlayerChange>)
    ensures forall s :: s in ChainFold(benchToStarter, starterToBench, slotChanges).swaps ==>
      IsTurnSwap(s, benchToStarter, starterToBench, slotChanges)
  {
    if benchToStarter != [] {
      var n := |benchToStarter|;
      var init := benchToStarter[..n - 1];
      var bts := benchToStarter[n - 1];
      ChainFoldSwapsAreTurns(init, starterToBench, slotChanges);
      var st := ChainFold(init, starterToBench, slotChanges);
      var t := TraceChain(starterToBench, slotChanges, bts.optimalSlot, st.usedSlotChanges, st.usedStarterToBench);
      var chains := TurnChains(benchToStarter, starterToBench, slotChanges);
      assert chains == TurnChains(init, starterToBench, slotChanges) + [t.chain];
      ChainStepIs(st, bts, starterToBench, slotChanges, t);
      forall s | s in ChainFold(benchToStarter, starterToBench, slotChanges).swaps
        ensures IsTurnSwap(s, benchToStarter, starterToBench, slotChanges)
      {
        if s in st.swaps {
          assert IsTurnSwap(s, init, starterToBench, slotChanges);
          var i :| 0 <= i < |init| && SwapOfTurn(s, init, starterToBench, slotChanges, i);
          assert benchToStarter[..i] == init[..i];
          assert benchToStarter[i] == init[i];
          assert SwapOfTurn(s, benchToStarter, starterToBench, slotChanges, i);
        } else {
          assert benchToStarter[..n - 1] == init;
          assert SwapOfTurn(s, benchToStarter, starterToBench, slotChanges, n - 1);
        }
      }
    }
  }

  function BenchedId(s: SwapV2): int { s.benchedPlayer.id }

  /** No starter is benched by two swaps: each benched starter's id is marked used as its swap is made. */
  lemma {:induction false} ChainFoldBenchedOnce(benchToStarter: seq<PlayerChange>, starterToBench: seq<PlayerChange>, slotChanges: seq<PlayerChange>)
    ensures forall s :: s in ChainFold(benchToStarter, starterToBench, slotChanges).swaps ==>
      s.benchedPlayer.id in ChainFold(benchToStarter, starterToBench, slotChanges).usedStarterToBench
    ensures Sorting.DistinctBy(ChainFold(benchToStarter, starterToBench, slotChanges).swaps, BenchedId)
  {
    if benchToStarter != [] {
      var n := |benchToStarter|;
      var init := benchToStarter[..n - 1];
      var bts := benchToStarter[n - 1];
      ChainFoldBenchedOnce(init, starterToBench, slotChanges);
      var st := ChainFold(init, starterToBench, slotChanges);
      var t := TraceChain(starterToBench, slotChanges, bts.optimalSlot, st.usedSlotChanges, st.usedStarterToBench);
      if t.benchedPlayer.Some? {
        TraceChainFacts(starterToBench, slotChanges, bts.optimalSlot, st.usedSlotChanges, st.usedStarterToBench);
        var r := st.swaps + [MakeSwap(bts, t.chain, t.benchedPlayer.value)];
        forall i, j | 0 <= i < j < |r| ensures r[i].benchedPlayer.id != r[j].benchedPlayer.id {
          if j < |st.swaps| {
            assert r[i] == st.swaps[i] && r[j] == st.swaps[j];
          } else {
            assert r[i] == st.swaps[i] && st.swaps[i] in st.swaps;
          }
        }
      }
    }
  }

  /**
   * A turn consumes the slot changes of its chain, which were all unused, and
   * only those; so no slot change is consumed by two chains.
   */
  lemma ChainStepConsumes(st: ChainState, bts: PlayerChange, starterToBench: seq<PlayerChange>, slotChanges: seq<PlayerChange>)
    ensures var t := TraceChain(starterToBench, slotChanges, bts.optimalSlot, st.usedSlotChanges, st.usedStarterToBench);
      && Fresh(slotChanges, st.usedSlotChanges, t.chain)
      && ChainStep(st, bts, starterToBench, slotChanges).usedSlotChanges == st.usedSlotChanges + ChangeIds(t.chain)
  {
    TraceChainFacts(starterToBench, slotChanges, bts.optimalSlot, st.usedSlotChanges, st.usedStarterToBench);
  }

  lemma ChainStepGrows(st: ChainState, bts: PlayerChange, starterToBench: seq<PlayerChange>, slotChanges: seq<PlayerChange>)
    ensures st.usedSlotChanges <= ChainStep(st, bts, starterToBench, slotChanges).usedSlotChanges
    ensures st.usedStarterToBench <= ChainStep(st, bts, starterToBench, slotChanges).usedStarterToBench
  {
    ChainStepConsumes(st, bts, starterToBench, slotChanges);
    var t := TraceChain(starterToBench, slotChanges, bts.optimalSlot, st.usedSlotChanges, st.usedStarterToBench);
    ChainStepIs(st, bts, starterToBench, slotChanges, t);
  }

  /** The used sets only grow along the fold. */
  lemma {:induction false} ChainFoldGrows(benchToStarter: seq<PlayerChange>, k: nat, starterToBench: seq<PlayerChange>, slotChanges: seq<PlayerChange>)
    requires k <= |benchToStarter|
    ensures ChainFold(benchToStarter[..k], starterToBench, slotChanges).usedSlotChanges <= ChainFold(benchToStarter, starterToBench, slotChanges).usedSlotChanges
    ensures ChainFold(benchToStarter[..k], starterToBench, slotChanges).usedStarterToBench <= ChainFold(benchToStarter, starterToBench, slotChanges).usedStarterToBench
    decreases |benchToStarter|
  {
    if k < |benchToStarter| {
      var n := |benchToStarter|;
      var init := benchToStarter[..n - 1];
      assert init[..k] == benchToStarter[..k];
      ChainFoldGrows(init, k, starterToBench, slotChanges);
      var st := ChainFold(init, starterToBench, slotChanges);
      ChainStepGrows(st, benchToStarter[n - 1], starterToBench, slotChanges);
      assert ChainFold(benchToStarter, starterToBench, slotChanges) == ChainStep(st, benchToStarter[n - 1], starterToBench, slotChanges);
    } else {
      assert benchToStarter[..k] == benchToStarter;
    }
  }

  // ---------------------------------------------------------------------------
  // The whole explainer

  /** `(a, b) => b.player.totalPoints - a.player.totalPoints` is negative. */
  predicate PointsAhead(a: PlayerChange, b: PlayerChange) {
    a.player.totalPoints > b.player.totalPoints
  }

  predicate Meaningful(s: SwapV2) {
    s.pointsGained > 0.0
  }

  /** The display order: larger gain first, then the smaller bench player id. */
  predicate SwapAhead(a: SwapV2, b: SwapV2) {
    a.pointsGained > b.pointsGained || (a.pointsGained == b.pointsGained && a.benchPlayer.id < b.benchPlayer.id)
  }

  function BucketsOf(actualLineup: seq<Assignment>, optimalLineup: OptimalLineup, fullRoster: seq<Player>): Buckets {
    Categorize(fullRoster, SlotMap(actualLineup), SlotMap(optimalLineup.starters))
  }

  /** All swaps of the turns over the bench-to-starter bucket, best scorer first. */
  function AllSwaps(b: Buckets): seq<SwapV2> {
    ChainFold(Sorting.Sort(b.benchToStarter, PointsAhead), b.starterToBench, b.slotChanges).swaps
  }

  /** What buildSwapChains returns: the swaps that gain points, in display order. */
  function SwapChainsOf(actualLineup: seq<Assignment>, optimalLineup: OptimalLineup, fullRoster: seq<Player>): seq<SwapV2> {
    Sorting.Sort(Sorting.Filter(AllSwaps(BucketsOf(actualLineup, optimalLineup, fullRoster)), Meaningful), SwapAhead)
  }

  /**
   * Every reported swap gains points, the bench player's less the benched
   * starter's, and is explained by the buckets; the list is in display order;
   * no starter is benched by two swaps.
   */
  lemma SwapChainsFacts(actualLineup: seq<Assignment>, optimalLineup: OptimalLineup, fullRoster: seq<Player>)
    ensures var b := BucketsOf(actualLineup, optimalLineup, fullRoster);
      forall s :: s in SwapChainsOf(actualLineup, optimalLineup, fullRoster) ==>
        s.pointsGained > 0.0 && Explained(s, b.benchToStarter, b.starterToBench, b.slotChanges)
    ensures Sorting.SortedBy(SwapChainsOf(actualLineup, optimalLineup, fullRoster), SwapAhead)
    ensures Sorting.DistinctBy(SwapChainsOf(actualLineup, optimalLineup, fullRoster), BenchedId)
    ensures var b := BucketsOf(actualLineup, optimalLineup, fullRoster);
      var order := Sorting.Sort(b.benchToStarter, PointsAhead);
      forall s :: s in SwapChainsOf(actualLineup, optimalLineup, fullRoster) ==>
        IsTurnSwap(s, order, b.starterToBench, b.slotChanges)
  {
    SwapChainsAreTurns(actualLineup, optimalLineup, fullRoster);
    var b := BucketsOf(actualLineup, optimalLineup, fullRoster);
    var order := Sorting.Sort(b.benchToStarter, PointsAhead);
    var all := AllSwaps(b);
    var kept := Sorting.Filter(all, Meaningful);
    var r := SwapChainsOf(actualLineup, optimalLineup, fullRoster);
    ChainFoldExplained(order, b.starterToBench, b.slotChanges);
    ChainFoldBenchedOnce(order, b.starterToBench, b.slotChanges);
    forall c | c in order ensures c in b.benchToStarter {
      assert c in multiset(order);
    }
    forall s | s in all && Explained(s, order, b.starterToBench, b.slotChanges)
      ensures Explained(s, b.benchToStarter, b.starterToBench, b.slotChanges)
    {
      var c :| c in order && c.player == s.benchPlayer;
    }
    Sorting.FilterMembers(all, Meaningful);
    Sorting.FilterKeepsDistinct(all, Meaningful, BenchedId);
    assert Sorting.StrictWeakOrder(SwapAhead);
    Sorting.SortSorted(kept, SwapAhead);
    forall s | s in r ensures s in kept {
      assert s in multiset(r);
    }
    Sorting.PermutationKeepsDistinct(kept, r, BenchedId);
  }

  /** Every reported swap is one of the swaps the fold collected. */
  lemma SwapChainsInFold(actualLineup: seq<Assignment>, optimalLineup: OptimalLineup, fullRoster: seq<Player>)
    ensures forall s :: s in SwapChainsOf(actualLineup, optimalLineup, fullRoster) ==>
      s in AllSwaps(BucketsOf(actualLineup, optimalLineup, fullRoster))
  {
    var all := AllSwaps(BucketsOf(actualLineup, optimalLineup, fullRoster));
    var kept := Sorting.Filter(all, Meaningful);
    Sorting.FilterMembers(all, Meaningful);
    forall s | s in SwapChainsOf(actualLineup, optimalLineup, fullRoster) ensures s in all {
      assert s in multiset(Sorting.Sort(kept, SwapAhead));
    }
  }

  /** Being the swap of some turn carries over to any sub-collection of swaps. */
  lemma TurnsOfSubset(r: seq<SwapV2>, all: seq<SwapV2>, order: seq<PlayerChange>,
                      starterToBench: seq<PlayerChange>, slotChanges: seq<PlayerChange>)
    requires forall s :: s in r ==> s in all
    requires forall s :: s in all ==> IsTurnSwap(s, order, starterToBench, slotChanges)
    ensures forall s :: s in r ==> IsTurnSwap(s, order, starterToBench, slotChanges)
  {
  }

  /** Every reported swap is the swap of one turn, over the bench players in points order. */
  lemma SwapChainsAreTurns(actualLineup: seq<Assignment>, optimalLineup: OptimalLineup, fullRoster: seq<Player>)
    ensures var b := BucketsOf(actualLineup, optimalLineup, fullRoster);
      var order := Sorting.Sort(b.benchToStarter, PointsAhead);
      forall s :: s in SwapChainsOf(actualLineup, optimalLineup, fullRoster) ==>
        IsTurnSwap(s, order, b.starterToBench, b.slotChanges)
  {
    var b := BucketsOf(actualLineup, optimalLineup, fullRoster);
    var order := Sorting.Sort(b.benchToStarter, PointsAhead);
    ChainFoldSwapsAreTurns(order, b.starterToBench, b.slotChanges);
    assert AllSwaps(b) == ChainFold(order, b.starterToBench, b.slotChanges).swaps;
    SwapChainsInFold(actualLineup, optimalLineup, fullRoster);
    TurnsOfSubset(SwapChainsOf(actualLineup, optimalLineup, fullRoster), AllSwaps(b), order, b.starterToBench, b.slotChanges);
  }

  /** The swap a turn records once its trace reached a benched starter. */
  method SwapFor(bts: PlayerChange, chain: seq<PlayerChange>, benched: PlayerChange) returns (swap: SwapV2)
    ensures swap == MakeSwap(bts, chain, benched)
  {
    var pointsGained := bts.player.totalPoints - benched.player.totalPoints;
    if |chain| > 0 {
      var benchedPlayerOriginalSlot := benched.actualSlot;
      var eligible := IsPlayerEligibleForSlot(bts.player, EligiblePositionsFor(benchedPlayerOriginalSlot));
      if eligible {
        swap := SimpleSwap(bts.player, benched.player, benchedPlayerOriginalSlot, pointsGained);
      } else {
        var lastMove := chain[|chain| - 1];
        swap := ChainSwap(bts.player, lastMove.actualSlot,
                          IntermediateMove(lastMove.player, lastMove.actualSlot, lastMove.optimalSlot),
                          benched.player, pointsGained);
      }
    } else {
      swap := SimpleSwap(bts.player, benched.player, bts.optimalSlot, pointsGained);
    }
  }

  /** The turns of buildSwapChains over the sorted bench-to-starter bucket. */
  method ChainSwapsFor(benchToStarter: seq<PlayerChange>, starterToBench: seq<PlayerChange>, slotChanges: seq<PlayerChange>)
    returns (swaps: seq<SwapV2>)
    ensures swaps == ChainFold(benchToStarter, starterToBench, slotChanges).swaps
  {
    swaps := [];
    var usedSlotChanges: set<int> := {};
    var usedStarterToBench: set<int> := {};
    for i := 0 to |benchToStarter|
      invariant ChainState(swaps, usedSlotChanges, usedStarterToBench) == ChainFold(benchToStarter[..i], starterToBench, slotChanges)
    {
      var bts := benchToStarter[i];
      assert benchToStarter[..i + 1][..i] == benchToStarter[..i];
      var targetSlot := bts.optimalSlot;
      ghost var st := ChainState(swaps, usedSlotChanges, usedStarterToBench);
      var chain, benchedPlayer;
      chain, benchedPlayer, usedSlotChanges := TraceChainToEnd(starterToBench, slotChanges, targetSlot, usedSlotChanges, usedStarterToBench);
      ChainStepIs(st, bts, starterToBench, slotChanges, TraceResult(chain, benchedPlayer, usedSlotChanges));
      if benchedPlayer.Some? {
        var benched := benchedPlayer.value;
        usedStarterToBench := usedStarterToBench + {benched.player.id};
        var swap := SwapFor(bts, chain, benched);
        swaps := swaps + [swap];
      }
    }
    assert benchToStarter[..|benchToStarter|] == benchToStarter;
  }

  /** buildSwapChains. */
  method BuildSwapChains(actualLineup: seq<Assignment>, optimalLineup: OptimalLineup, fullRoster: seq<Player>)
    returns (meaningfulSwaps: seq<SwapV2>)
    ensures meaningfulSwaps == SwapChainsOf(actualLineup, optimalLineup, fullRoster)
    ensures var b := BucketsOf(actualLineup, optimalLineup, fullRoster);
      forall s :: s in meaningfulSwaps ==> s.pointsGained > 0.0 && Explained(s, b.benchToStarter, b.starterToBench, b.slotChanges)
    ensures Sorting.SortedBy(meaningfulSwaps, SwapAhead)
    ensures Sorting.DistinctBy(meaningfulSwaps, BenchedId)
  {
    var actualSlotMap := BuildSlotMap(actualLineup);
    var optimalSlotMap := BuildSlotMap(optimalLineup.starters);
    var benchToStarter, starterToBench, slotChanges := CategorizeChanges(fullRoster, actualSlotMap, optimalSlotMap);
    benchToStarter := Sorting.Sort(benchToStarter, PointsAhead);
    var swaps := ChainSwapsFor(benchToStarter, starterToBench, slotChanges);
    meaningfulSwaps := Sorting.Sort(Sorting.Filter(swaps, Meaningful), SwapAhead);
    SwapChainsFacts(actualLineup, optimalLineup, fullRoster);
  }
}

/**
 * The records the lineup engine works on and the league-rule tables that say
 * which player positions may fill which lineup slot.
 */
module Types {
  import opened Wrappers

  /** A rostered player of one team for one scoring week. */
  datatype Player = Player(
    id: int,
    firstName: string,
    lastName: string,
    fullName: string,
    proTeam: string,
    proTeamAbbreviation: string,
    defaultPosition: string,
    eligiblePositions: seq<string>,
    rosteredPosition: string,
    totalPoints: real,
    projectedPoints: Option<real>)

  /** One matchup of a week; a roster or score the provider left out is `None`. */
  datatype Boxscore = Boxscore(
    homeTeamId: int,
    awayTeamId: int,
    homeScore: Option<real>,
    awayScore: Option<real>,
    homeRoster: Option<seq<Player>>,
    awayRoster: Option<seq<Player>>)

  /** The league settings the engine reads: the slot counts, in the order of their keys. */
  datatype League = League(name: string, lineupPositionCount: Option<seq<(string, int)>>)

  /** A player placed in a slot (PlayerSlotAssignment). */
  datatype Assignment = Assignment(player: Player, slot: string, points: real)

  datatype OptimalLineup = OptimalLineup(starters: seq<Assignment>, totalPoints: real)

  /** The swap record of the older greedy explainer. */
  datatype LineupSwap = LineupSwap(benchPlayer: Player, startedPlayer: Player, pointsGained: real, slot: string)

  datatype IntermediateMove = IntermediateMove(player: Player, fromSlot: string, toSlot: string)

  /** The swap record of the chain-aware explainer (SimpleSwap | ChainSwap). */
  datatype SwapV2 =
    | SimpleSwap(benchPlayer: Player, benchedPlayer: Player, slot: string, pointsGained: real)
    | ChainSwap(benchPlayer: Player, targetSlot: string, intermediateMove: IntermediateMove,
                benchedPlayer: Player, pointsGained: real)

  datatype TeamInfo = TeamInfo(
    id: int, name: string, ownerName: string, logoURL: Option<string>, finalStandingsPosition: Option<int>)

  datatype WeekResult = WeekResult(
    week: int,
    isPlayoffs: bool,
    opponentName: string,
    actualScore: real,
    opponentScore: real,
    won: bool,
    optimalScore: real,
    pointsMissed: real,
    isBlownWin: bool,
    blownWinMargin: real,
    swaps: seq<SwapV2>)

  datatype ReportData = ReportData(
    teamName: string,
    ownerName: string,
    teamLogoURL: Option<string>,
    finalStandingsPosition: Option<int>,
    leagueSize: int,
    leagueName: string,
    seasonId: int,
    totalPointsLeftOnBench: real,
    blownWins: int,
    regularSeasonWins: int,
    regularSeasonLosses: int,
    playoffWins: int,
    playoffLosses: int,
    weeks: seq<WeekResult>,
    worstWeek: Option<WeekResult>)

  /** SLOT_ELIGIBILITY: slot label to the player positions that may fill it. */
  const SlotEligibility: map<string, seq<string>> := map[
    "QB" := ["QB"],
    "RB" := ["RB"],
    "WR" := ["WR"],
    "TE" := ["TE"],
    "K" := ["K"],
    "D/ST" := ["D/ST"],
    "FLEX" := ["RB", "WR", "TE"],
    "RB/WR" := ["RB", "WR"],
    "WR/TE" := ["WR", "TE"],
    "RB/WR/TE" := ["RB", "WR", "TE"],
    "OP" := ["QB", "RB", "WR", "TE"],
    "DL" := ["DT", "DE"],
    "LB" := ["LB"],
    "DB" := ["CB", "S"],
    "DP" := ["DT", "DE", "LB", "CB", "S"]
  ]

  /** The keys of SLOT_ELIGIBILITY in declaration order, the order `Object.entries` visits them. */
  const SlotEligibilityOrder: seq<string> := [
    "QB", "RB", "WR", "TE", "K", "D/ST",
    "FLEX", "RB/WR", "WR/TE", "RB/WR/TE", "OP",
    "DL", "LB", "DB", "DP"
  ]

  const StarterSlots: seq<string> := [
    "QB", "RB", "WR", "TE", "K", "D/ST",
    "FLEX", "RB/WR", "WR/TE", "RB/WR/TE", "OP",
    "DL", "LB", "DB", "DP"
  ]

  const BenchSlots: seq<string> := ["Bench", "IR"]

  const SlotDisplayNames: map<string, string> := map[
    "RB/WR/TE" := "FLEX",
    "RB/WR" := "FLEX",
    "WR/TE" := "FLEX",
    "OP" := "SUPERFLEX",
    "D/ST" := "D/ST"
  ]

  predicate IsBenchSlot(slot: string) {
    slot in BenchSlots
  }

  /**
   * `SLOT_ELIGIBILITY[slot] || [slot]`: every table entry is a non-empty array,
   * so the fallback applies exactly to labels missing from the table.
   */
  function EligiblePositionsFor(slot: string): (r: seq<string>)
    ensures slot !in StarterSlots ==> r == [slot]
    ensures slot in StarterSlots ==> slot in SlotEligibility && r == SlotEligibility[slot] && |r| > 0
  {
    StarterSlotsAreTableKeys();
    if slot in SlotEligibility then SlotEligibility[slot] else [slot]
  }

  /** STARTER_SLOTS lists exactly the keys of SLOT_ELIGIBILITY, in its declaration order, once each. */
  lemma StarterSlotsAreTableKeys()
    ensures forall l :: l in StarterSlots <==> l in SlotEligibility
    ensures StarterSlots == SlotEligibilityOrder
    ensures forall i, j :: 0 <= i < j < |SlotEligibilityOrder| ==> SlotEligibilityOrder[i] != SlotEligibilityOrder[j]
    ensures forall l :: l in SlotEligibility ==> |SlotEligibility[l]| > 0
  {
  }

  /** The single-position slots accept exactly their own position. */
  lemma SinglePositionSlots()
    ensures forall l :: l in ["QB", "RB", "WR", "TE", "K", "D/ST", "LB"] ==> l in SlotEligibility && SlotEligibility[l] == [l]
  {
  }

  /** FLEX and RB/WR/TE accept running backs, receivers and tight ends; OP (superflex) adds quarterbacks. */
  lemma FlexSlots()
    ensures SlotEligibility["FLEX"] == ["RB", "WR", "TE"]
    ensures SlotEligibility["RB/WR/TE"] == ["RB", "WR", "TE"]
    ensures SlotEligibility["OP"] == ["QB", "RB", "WR", "TE"]
  {
  }

  predicate Within(a: seq<string>, b: seq<string>) {
    forall x :: x in a ==> x in b
  }

  /** The flex slots nest: every position a narrower flex accepts, the wider one accepts too. */
  lemma FlexSlotsNest()
    ensures Within(EligiblePositionsFor("RB/WR"), EligiblePositionsFor("RB/WR/TE"))
    ensures Within(EligiblePositionsFor("WR/TE"), EligiblePositionsFor("RB/WR/TE"))
    ensures Within(EligiblePositionsFor("RB/WR/TE"), EligiblePositionsFor("OP"))
    ensures Within(EligiblePositionsFor("FLEX"), EligiblePositionsFor("OP"))
    ensures Within(EligiblePositionsFor("DL"), EligiblePositionsFor("DP"))
    ensures Within(EligiblePositionsFor("LB"), EligiblePositionsFor("DP"))
    ensures Within(EligiblePositionsFor("DB"), EligiblePositionsFor("DP"))
  {
  }

  /** Bench and IR are the bench-like labels, and none of them is a starter slot. */
  lemma BenchSlotsDisjoint()
    ensures forall l :: IsBenchSlot(l) <==> l == "Bench" || l == "IR"
    ensures forall l :: IsBenchSlot(l) ==> l !in StarterSlots
  {
  }

  /** The flex slots are displayed as FLEX, OP as SUPERFLEX. */
  lemma DisplayNames()
    ensures forall l :: l in ["RB/WR/TE", "RB/WR", "WR/TE"] ==> l in SlotDisplayNames && SlotDisplayNames[l] == "FLEX"
    ensures "OP" in SlotDisplayNames && SlotDisplayNames["OP"] == "SUPERFLEX"
    ensures SlotDisplayNames.Keys == {"RB/WR/TE", "RB/WR", "WR/TE", "OP", "D/ST"}
  {
  }
}

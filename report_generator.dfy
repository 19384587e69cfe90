/**
 * generateReport after its fetches: the loop over the season's weeks that
 * finds the team's matchup, scores the actual and the optimal lineup, counts
 * wins, losses and blown wins, and keeps the week with the most points missed.
 * The three fetched inputs (boxscores by week, league settings, teams) are
 * parameters.
 */
module ReportGenerator {
  import opened Wrappers
  import opened Types
  import opened LineupSearch
  import opened Lineup
  import SwapChains
  import Sorting

  // ---------------------------------------------------------------------------
  // Looking things up

  /** The matchup involves the team, home or away. */
  predicate Involves(b: Boxscore, teamId: int) {
    b.homeTeamId == teamId || b.awayTeamId == teamId
  }

  /** `boxscores.find(...)`: the first matchup involving the team. */
  function FindMatchup(boxscores: seq<Boxscore>, teamId: int): (r: Option<Boxscore>)
    ensures r.None? <==> forall j :: 0 <= j < |boxscores| ==> !Involves(boxscores[j], teamId)
    ensures r.Some? ==>
      (exists k :: 0 <= k < |boxscores| && boxscores[k] == r.value && Involves(r.value, teamId)
         && forall j :: 0 <= j < k ==> !Involves(boxscores[j], teamId))
  {
    if boxscores == [] then None
    else if Involves(boxscores[0], teamId) then Some(boxscores[0])
    else
      var r := FindMatchup(boxscores[1..], teamId);
      assert forall j :: 0 < j < |boxscores| ==> boxscores[j] == boxscores[1..][j - 1];
      r
  }

  /** `teams.find(t => t.id === teamId)`. */
  function FindTeam(teams: seq<TeamInfo>, teamId: int): (r: Option<TeamInfo>)
    ensures r.None? <==> forall t :: t in teams ==> t.id != teamId
    ensures r.Some? ==> r.value in teams && r.value.id == teamId
  {
    if teams == [] then None
    else if teams[0].id == teamId then Some(teams[0])
    else
      assert teams == [teams[0]] + teams[1..];
      FindTeam(teams[1..], teamId)
  }

  function OurRoster(m: Boxscore, teamId: int): Option<seq<Player>> {
    if m.homeTeamId == teamId then m.homeRoster else m.awayRoster
  }

  function OurScore(m: Boxscore, teamId: int): Option<real> {
    if m.homeTeamId == teamId then m.homeScore else m.awayScore
  }

  function OpponentScore(m: Boxscore, teamId: int): Option<real> {
    if m.homeTeamId == teamId then m.awayScore else m.homeScore
  }

  function OpponentId(m: Boxscore, teamId: int): int {
    if m.homeTeamId == teamId then m.awayTeamId else m.homeTeamId
  }

  /** The team's matchup of a week. */
  function MatchupOf(boxscoresByWeek: map<int, seq<Boxscore>>, week: int, teamId: int): Option<Boxscore> {
    if week in boxscoresByWeek then FindMatchup(boxscoresByWeek[week], teamId) else None
  }

  /** A week is reported when it has boxscores, a matchup of the team, a non-empty roster and both scores. */
  predicate Playable(boxscoresByWeek: map<int, seq<Boxscore>>, week: int, teamId: int) {
    && MatchupOf(boxscoresByWeek, week, teamId).Some?
    && var m := MatchupOf(boxscoresByWeek, week, teamId).value;
    && OurRoster(m, teamId).Some? && |OurRoster(m, teamId).value| > 0
    && OurScore(m, teamId).Some? && OpponentScore(m, teamId).Some?
  }

  /** Team id to name, a later team with the same id winning. */
  function TeamNameMap(teams: seq<TeamInfo>): map<int, string> {
    if teams == [] then map[]
    else TeamNameMap(teams[..|teams| - 1])[teams[|teams| - 1].id := teams[|teams| - 1].name]
  }

  method BuildTeamNameMap(teams: seq<TeamInfo>) returns (teamNameMap: map<int, string>)
    ensures teamNameMap == TeamNameMap(teams)
  {
    teamNameMap := map[];
    for i := 0 to |teams|
      invariant teamNameMap == TeamNameMap(teams[..i])
    {
      assert teams[..i + 1][..i] == teams[..i];
      teamNameMap := teamNameMap[teams[i].id := teams[i].name];
    }
    assert teams[..|teams|] == teams;
  }

  /** `teamNameMap.get(id) || 'Unknown Team'`: a missing or empty name falls back. */
  function NameOr(teamNameMap: map<int, string>, id: int): string {
    if id in teamNameMap && teamNameMap[id] != "" then teamNameMap[id] else "Unknown Team"
  }

  // ---------------------------------------------------------------------------
  // One week

  predicate Lost(w: WeekResult) {
    w.actualScore < w.opponentScore
  }

  /** The relations between the fields of a reported week. */
  ghost predicate WeekConsistent(w: WeekResult, playoffStartWeek: int) {
    && w.isPlayoffs == (w.week >= playoffStartWeek)
    && w.won == (w.actualScore > w.opponentScore)
    && w.pointsMissed >= 0.0
    && w.isBlownWin == (Lost(w) && w.optimalScore > w.opponentScore)
    && w.blownWinMargin == (if w.isBlownWin then w.optimalScore - w.opponentScore else 0.0)
    && (w.pointsMissed == 0.0 ==> w.swaps == [])
    && (forall s :: s in w.swaps ==> s.pointsGained > 0.0)
    && Sorting.SortedBy(w.swaps, SwapChains.SwapAhead)
  }

  /**
   * The reported week comes from the team's matchup of that week: its optimal
   * score is that of the best lineup of the roster, and it misses that less
   * the actual lineup's sum, or 0.
   */
  ghost predicate WeekFrom(w: WeekResult, boxscoresByWeek: map<int, seq<Boxscore>>, teamId: int, teamNameMap: map<int, string>,
                           leagueSettings: League)
    requires Playable(boxscoresByWeek, w.week, teamId)
  {
    var m := MatchupOf(boxscoresByWeek, w.week, teamId).value;
    var roster := OurRoster(m, teamId).value;
    && w.actualScore == OurScore(m, teamId).value
    && w.opponentScore == OpponentScore(m, teamId).value
    && w.opponentName == NameOr(teamNameMap, OpponentId(m, teamId))
    && w.pointsMissed == Max0(w.optimalScore - SumPoints(GetActualLineup(roster)))
    && Explained(w, roster, leagueSettings)
  }

  /** The week was scored against some best lineup of the roster. */
  ghost predicate Explained(w: WeekResult, roster: seq<Player>, leagueSettings: League) {
    exists lineup: OptimalLineup :: ComparedWith(w, roster, leagueSettings, lineup)
  }

  lemma ExplainedBy(w: WeekResult, roster: seq<Player>, leagueSettings: League, lineup: OptimalLineup)
    requires ComparedWith(w, roster, leagueSettings, lineup)
    ensures Explained(w, roster, leagueSettings)
  {
  }

  /**
   * The week was scored against `lineup`, a best lineup of the roster: its
   * optimal score is that lineup's total, and its swaps are the swap chains
   * from the actual lineup to that one when points were missed, else none.
   */
  ghost predicate ComparedWith(w: WeekResult, roster: seq<Player>, leagueSettings: League, lineup: OptimalLineup) {
    && IsBestLineup(roster, leagueSettings, lineup)
    && w.optimalScore == lineup.totalPoints
    && w.swaps == ExplainingSwaps(GetActualLineup(roster), lineup, roster, w.pointsMissed)
  }

  /** The body of the week loop: nothing for a skipped week, else the week's result. */
  method ProcessWeek(boxscoresByWeek: map<int, seq<Boxscore>>, week: int, teamId: int, teamNameMap: map<int, string>,
                     leagueSettings: League, playoffStartWeek: int)
    returns (result: Option<WeekResult>)
    ensures result.None? <==> !Playable(boxscoresByWeek, week, teamId)
    ensures result.Some? ==> result.value.week == week
    ensures result.Some? ==> WeekConsistent(result.value, playoffStartWeek)
    ensures result.Some? && Playable(boxscoresByWeek, week, teamId) ==> WeekFrom(result.value, boxscoresByWeek, teamId, teamNameMap, leagueSettings)
  {
    if week !in boxscoresByWeek {
      return None;
    }
    var boxscores := boxscoresByWeek[week];
    var found := FindMatchup(boxscores, teamId);
    if found.None? {
      return None;
    }
    var matchup := found.value;
    assert MatchupOf(boxscoresByWeek, week, teamId) == found;
    var ourRoster := OurRoster(matchup, teamId);
    var ourScore := OurScore(matchup, teamId);
    var opponentScore := OpponentScore(matchup, teamId);
    var opponentName := NameOr(teamNameMap, OpponentId(matchup, teamId));
    if ourRoster.None? || |ourRoster.value| == 0 {
      return None;
    }
    if ourScore.None? || opponentScore.None? {
      return None;
    }
    var weekResult;
    ghost var optimalLineup;
    weekResult, optimalLineup := ScoreWeek(ourRoster.value, ourScore.value, opponentScore.value, opponentName, week,
                                           leagueSettings, playoffStartWeek);
    ScoredWeekFrom(weekResult, boxscoresByWeek, teamId, teamNameMap, leagueSettings, playoffStartWeek, optimalLineup);
    result := Some(weekResult);
  }

  /** A week scored from the team's matchup of that week, against a best lineup, is reported from it. */
  lemma ScoredWeekFrom(w: WeekResult, boxscoresByWeek: map<int, seq<Boxscore>>, teamId: int, teamNameMap: map<int, string>,
                       leagueSettings: League, playoffStartWeek: int, lineup: OptimalLineup)
    requires Playable(boxscoresByWeek, w.week, teamId)
    requires var m := MatchupOf(boxscoresByWeek, w.week, teamId).value;
      && WeekScored(w, OurRoster(m, teamId).value, OurScore(m, teamId).value, OpponentScore(m, teamId).value,
                    NameOr(teamNameMap, OpponentId(m, teamId)), w.week, playoffStartWeek)
      && ComparedWith(w, OurRoster(m, teamId).value, leagueSettings, lineup)
    ensures WeekFrom(w, boxscoresByWeek, teamId, teamNameMap, leagueSettings)
  {
    var m := MatchupOf(boxscoresByWeek, w.week, teamId).value;
    var roster := OurRoster(m, teamId).value;
    ExplainedBy(w, roster, leagueSettings, lineup);
  }

  /** A week scored from the team's roster and the two scores: it misses the optimum less the actual lineup's sum, or 0. */
  ghost predicate WeekScored(w: WeekResult, roster: seq<Player>, ourScore: real, opponentScore: real,
                             opponentName: string, week: int, playoffStartWeek: int)
  {
    && w.week == week && w.opponentName == opponentName
    && w.actualScore == ourScore && w.opponentScore == opponentScore
    && w.pointsMissed == Max0(w.optimalScore - SumPoints(GetActualLineup(roster)))
    && WeekConsistent(w, playoffStartWeek)
  }

  /**
   * The scoring part of the week loop, once the roster and both scores are
   * known; `optimalLineup` is the best lineup it computed and compared with.
   */
  method ScoreWeek(roster: seq<Player>, ourScore: real, opponentScore: real, opponentName: string, week: int,
                   leagueSettings: League, playoffStartWeek: int)
    returns (weekResult: WeekResult, ghost optimalLineup: OptimalLineup)
    ensures WeekScored(weekResult, roster, ourScore, opponentScore, opponentName, week, playoffStartWeek)
    ensures IsOptimalTotal(roster, leagueSettings, weekResult.optimalScore)
    ensures ComparedWith(weekResult, roster, leagueSettings, optimalLineup)
  {
    var lineup := ComputeOptimalLineup(roster, leagueSettings);
    optimalLineup := lineup;
    weekResult := CompareWeek(roster, lineup, ourScore, opponentScore, opponentName, week, playoffStartWeek);
  }

  /** Compares the lineup that was set with the best one and explains the difference. */
  method CompareWeek(roster: seq<Player>, optimalLineup: OptimalLineup, ourScore: real, opponentScore: real,
                     opponentName: string, week: int, playoffStartWeek: int)
    returns (weekResult: WeekResult)
    ensures weekResult.optimalScore == optimalLineup.totalPoints
    ensures weekResult.swaps == ExplainingSwaps(GetActualLineup(roster), optimalLineup, roster, weekResult.pointsMissed)
    ensures WeekScored(weekResult, roster, ourScore, opponentScore, opponentName, week, playoffStartWeek)
  {
    var actualLineup := GetActualLineup(roster);
    var actualScore := SumPoints(actualLineup);
    var pointsMissed := Max0(optimalLineup.totalPoints - actualScore);

    var won := ourScore > opponentScore;
    var lost := ourScore < opponentScore;
    var isPlayoffs := week >= playoffStartWeek;

    var isBlownWin := lost && optimalLineup.totalPoints > opponentScore;
    var blownWinMargin := if isBlownWin then optimalLineup.totalPoints - opponentScore else 0.0;

    var swaps := WeekSwaps(actualLineup, optimalLineup, roster, pointsMissed);
    weekResult := WeekResult(week, isPlayoffs, opponentName, ourScore, opponentScore, won,
                             optimalLineup.totalPoints, pointsMissed, isBlownWin, blownWinMargin, swaps);
  }

  /** The swaps a week shows: the swap chains to the best lineup when points were missed, else none. */
  function ExplainingSwaps(actualLineup: seq<Assignment>, optimalLineup: OptimalLineup, roster: seq<Player>,
                           pointsMissed: real): seq<SwapV2> {
    if pointsMissed > 0.0 then SwapChains.SwapChainsOf(actualLineup, optimalLineup, roster) else []
  }

  /** The swaps explaining the points missed: none when nothing was missed. */
  method WeekSwaps(actualLineup: seq<Assignment>, optimalLineup: OptimalLineup, roster: seq<Player>, pointsMissed: real)
    returns (swaps: seq<SwapV2>)
    ensures swaps == ExplainingSwaps(actualLineup, optimalLineup, roster, pointsMissed)
    ensures forall s :: s in swaps ==> s.pointsGained > 0.0
    ensures Sorting.SortedBy(swaps, SwapChains.SwapAhead)
  {
    swaps := [];
    if pointsMissed > 0.0 {
      swaps := SwapChains.BuildSwapChains(actualLineup, optimalLineup, roster);
    }
  }

  // ---------------------------------------------------------------------------
  // The season's totals, as functions of the reported weeks

  function SumMissed(weeks: seq<WeekResult>): real {
    if weeks == [] then 0.0 else SumMissed(weeks[..|weeks| - 1]) + weeks[|weeks| - 1].pointsMissed
  }

  function CountWins(weeks: seq<WeekResult>, playoffs: bool): nat {
    if weeks == [] then 0
    else CountWins(weeks[..|weeks| - 1], playoffs) + (if weeks[|weeks| - 1].won && weeks[|weeks| - 1].isPlayoffs == playoffs then 1 else 0)
  }

  function CountLosses(weeks: seq<WeekResult>, playoffs: bool): nat {
    if weeks == [] then 0
    else CountLosses(weeks[..|weeks| - 1], playoffs) + (if Lost(weeks[|weeks| - 1]) && weeks[|weeks| - 1].isPlayoffs == playoffs then 1 else 0)
  }

  function CountTies(weeks: seq<WeekResult>): nat {
    if weeks == [] then 0
    else CountTies(weeks[..|weeks| - 1]) + (if weeks[|weeks| - 1].actualScore == weeks[|weeks| - 1].opponentScore then 1 else 0)
  }

  function CountBlown(weeks: seq<WeekResult>): nat {
    if weeks == [] then 0
    else CountBlown(weeks[..|weeks| - 1]) + (if weeks[|weeks| - 1].isBlownWin then 1 else 0)
  }

  /** The running `worstWeek`: replaced only by a week that missed strictly more. */
  function WorstOf(weeks: seq<WeekResult>): Option<WeekResult> {
    if weeks == [] then None
    else
      var w := WorstOf(weeks[..|weeks| - 1]);
      var last := weeks[|weeks| - 1];
      if w.None? || last.pointsMissed > w.value.pointsMissed then Some(last) else w
  }

  function WeekNumbers(weeks: seq<WeekResult>): seq<int> {
    if weeks == [] then [] else WeekNumbers(weeks[..|weeks| - 1]) + [weeks[|weeks| - 1].week]
  }

  /** The weeks 1 to `last` that are reported, in order. */
  function PlayableWeeks(boxscoresByWeek: map<int, seq<Boxscore>>, teamId: int, last: int): seq<int>
    decreases last
  {
    if last < 1 then []
    else PlayableWeeks(boxscoresByWeek, teamId, last - 1) + (if Playable(boxscoresByWeek, last, teamId) then [last] else [])
  }

  /** The report's team and league fields. */
  ghost predicate HeaderFrom(r: ReportData, team: TeamInfo, teams: seq<TeamInfo>, leagueSettings: League, seasonId: int) {
    && r.teamName == team.name
    && r.ownerName == (if team.ownerName == "" then "Unknown Owner" else team.ownerName)
    && r.teamLogoURL == team.logoURL
    && r.finalStandingsPosition == team.finalStandingsPosition
    && r.leagueSize == |teams|
    && r.leagueName == leagueSettings.name
    && r.seasonId == seasonId
  }

  /** The report's totals are those of its weeks. */
  ghost predicate TotalsOf(r: ReportData) {
    && r.totalPointsLeftOnBench == SumMissed(r.weeks)
    && r.blownWins == CountBlown(r.weeks)
    && r.regularSeasonWins == CountWins(r.weeks, false)
    && r.regularSeasonLosses == CountLosses(r.weeks, false)
    && r.playoffWins == CountWins(r.weeks, true)
    && r.playoffLosses == CountLosses(r.weeks, true)
    && r.worstWeek == WorstOf(r.weeks)
  }

  /** Every reported week is consistent and comes from its matchup. */
  ghost predicate WeeksFrom(weeks: seq<WeekResult>, boxscoresByWeek: map<int, seq<Boxscore>>, teamId: int,
                            teamNameMap: map<int, string>, leagueSettings: League, playoffStartWeek: int) {
    forall i :: 0 <= i < |weeks| ==>
      && WeekConsistent(weeks[i], playoffStartWeek)
      && Playable(boxscoresByWeek, weeks[i].week, teamId)
      && WeekFrom(weeks[i], boxscoresByWeek, teamId, teamNameMap, leagueSettings)
  }

  /** One more reported week adds its own share to every total. */
  lemma TotalsAppend(weeks: seq<WeekResult>, w: WeekResult)
    ensures SumMissed(weeks + [w]) == SumMissed(weeks) + w.pointsMissed
    ensures CountBlown(weeks + [w]) == CountBlown(weeks) + (if w.isBlownWin then 1 else 0)
    ensures forall playoffs :: CountWins(weeks + [w], playoffs) == CountWins(weeks, playoffs) + (if w.won && w.isPlayoffs == playoffs then 1 else 0)
    ensures forall playoffs :: CountLosses(weeks + [w], playoffs) == CountLosses(weeks, playoffs) + (if Lost(w) && w.isPlayoffs == playoffs then 1 else 0)
    ensures WorstOf(weeks + [w]) == (if WorstOf(weeks).None? || w.pointsMissed > WorstOf(weeks).value.pointsMissed then Some(w) else WorstOf(weeks))
    ensures WeekNumbers(weeks + [w]) == WeekNumbers(weeks) + [w.week]
  {
    assert (weeks + [w])[..|weeks|] == weeks;
  }

  /** The running totals of the week loop are those of the weeks reported so far. */
  ghost predicate Tallied(weeks: seq<WeekResult>, totalPointsLeftOnBench: real, blownWins: int,
                          regularSeasonWins: int, regularSeasonLosses: int, playoffWins: int, playoffLosses: int,
                          worstWeek: Option<WeekResult>) {
    && totalPointsLeftOnBench == SumMissed(weeks)
    && blownWins == CountBlown(weeks)
    && regularSeasonWins == CountWins(weeks, false) && playoffWins == CountWins(weeks, true)
    && regularSeasonLosses == CountLosses(weeks, false) && playoffLosses == CountLosses(weeks, true)
    && worstWeek == WorstOf(weeks)
  }

  /** The loop body's updates of the totals keep them those of the weeks. */
  lemma TalliedAppend(weeks: seq<WeekResult>, w: WeekResult, totalPointsLeftOnBench: real, blownWins: int,
                      regularSeasonWins: int, regularSeasonLosses: int, playoffWins: int, playoffLosses: int,
                      worstWeek: Option<WeekResult>)
    requires Tallied(weeks, totalPointsLeftOnBench, blownWins, regularSeasonWins, regularSeasonLosses, playoffWins, playoffLosses, worstWeek)
    ensures Tallied(weeks + [w], totalPointsLeftOnBench + w.pointsMissed, blownWins + (if w.isBlownWin then 1 else 0),
                    regularSeasonWins + (if w.won && !w.isPlayoffs then 1 else 0),
                    regularSeasonLosses + (if Lost(w) && !w.isPlayoffs then 1 else 0),
                    playoffWins + (if w.won && w.isPlayoffs then 1 else 0),
                    playoffLosses + (if Lost(w) && w.isPlayoffs then 1 else 0),
                    if worstWeek.None? || w.pointsMissed > worstWeek.value.pointsMissed then Some(w) else worstWeek)
  {
    TotalsAppend(weeks, w);
  }

  /** The weeks reported after the loop has looked at weeks 1 to `last`. */
  ghost predicate ReportedThrough(weeks: seq<WeekResult>, boxscoresByWeek: map<int, seq<Boxscore>>, teamId: int,
                                  teamNameMap: map<int, string>, leagueSettings: League, playoffStartWeek: int, last: int) {
    && WeekNumbers(weeks) == PlayableWeeks(boxscoresByWeek, teamId, last)
    && WeeksFrom(weeks, boxscoresByWeek, teamId, teamNameMap, leagueSettings, playoffStartWeek)
  }

  /** One turn of the week loop keeps the reported weeks those of the playable weeks so far. */
  lemma ReportedStep(weeks: seq<WeekResult>, r: Option<WeekResult>, week: int, boxscoresByWeek: map<int, seq<Boxscore>>,
                     teamId: int, teamNameMap: map<int, string>, leagueSettings: League, playoffStartWeek: int)
    requires 1 <= week
    requires ReportedThrough(weeks, boxscoresByWeek, teamId, teamNameMap, leagueSettings, playoffStartWeek, week - 1)
    requires r.None? <==> !Playable(boxscoresByWeek, week, teamId)
    requires r.Some? ==> r.value.week == week && WeekConsistent(r.value, playoffStartWeek)
    requires r.Some? && Playable(boxscoresByWeek, week, teamId) ==> WeekFrom(r.value, boxscoresByWeek, teamId, teamNameMap, leagueSettings)
    ensures ReportedThrough(weeks + (if r.Some? then [r.value] else []), boxscoresByWeek, teamId, teamNameMap,
                            leagueSettings, playoffStartWeek, week)
  {
    if r.Some? {
      WeeksFromAppend(weeks, r.value, boxscoresByWeek, teamId, teamNameMap, leagueSettings, playoffStartWeek);
      TotalsAppend(weeks, r.value);
    } else {
      assert weeks + [] == weeks;
    }
  }

  lemma WeeksFromAppend(weeks: seq<WeekResult>, w: WeekResult, boxscoresByWeek: map<int, seq<Boxscore>>, teamId: int,
                        teamNameMap: map<int, string>, leagueSettings: League, playoffStartWeek: int)
    requires WeeksFrom(weeks, boxscoresByWeek, teamId, teamNameMap, leagueSettings, playoffStartWeek)
    requires WeekConsistent(w, playoffStartWeek) && Playable(boxscoresByWeek, w.week, teamId)
    requires WeekFrom(w, boxscoresByWeek, teamId, teamNameMap, leagueSettings)
    ensures WeeksFrom(weeks + [w], boxscoresByWeek, teamId, teamNameMap, leagueSettings, playoffStartWeek)
  {
    var ws := weeks + [w];
    forall i | 0 <= i < |ws|
      ensures WeekConsistent(ws[i], playoffStartWeek) && Playable(boxscoresByWeek, ws[i].week, teamId)
      ensures WeekFrom(ws[i], boxscoresByWeek, teamId, teamNameMap, leagueSettings)
    {
      if i < |weeks| {
        assert ws[i] == weeks[i];
      }
    }
  }

  /**
   * generateReport after its fetches: "Team not found" exactly when no team
   * has the id; otherwise the reported weeks are exactly the playable weeks in
   * order, each consistent, taken from its matchup and scored against the
   * best lineup of its roster, and every total is
   * that of the weeks.
   */
  method GenerateReport(boxscoresByWeek: map<int, seq<Boxscore>>, leagueSettings: League, teams: seq<TeamInfo>,
                        teamId: int, totalWeeks: int, playoffStartWeek: int, seasonId: int)
    returns (result: Result<ReportData>)
    ensures result.Err? <==> FindTeam(teams, teamId).None?
    ensures result.Err? ==> result.error == "Team not found"
    ensures result.Ok? ==> HeaderFrom(result.value, FindTeam(teams, teamId).value, teams, leagueSettings, seasonId)
    ensures result.Ok? ==> TotalsOf(result.value)
    ensures result.Ok? ==> WeekNumbers(result.value.weeks) == PlayableWeeks(boxscoresByWeek, teamId, totalWeeks)
    ensures result.Ok? ==> WeeksFrom(result.value.weeks, boxscoresByWeek, teamId, TeamNameMap(teams), leagueSettings, playoffStartWeek)
  {
    var selectedTeam := FindTeam(teams, teamId);
    if selectedTeam.None? {
      return Err("Team not found");
    }
    var team := selectedTeam.value;
    var teamNameMap := BuildTeamNameMap(teams);

    var weeks: seq<WeekResult> := [];
    var totalPointsLeftOnBench := 0.0;
    var blownWins := 0;
    var regularSeasonWins := 0;
    var regularSeasonLosses := 0;
    var playoffWins := 0;
    var playoffLosses := 0;
    var worstWeek: Option<WeekResult> := None;

    var week := 1;
    while week <= totalWeeks
      invariant 1 <= week && (totalWeeks < 1 ==> week == 1) && (totalWeeks >= 1 ==> week <= totalWeeks + 1)
      invariant ReportedThrough(weeks, boxscoresByWeek, teamId, teamNameMap, leagueSettings, playoffStartWeek, week - 1)
      invariant Tallied(weeks, totalPointsLeftOnBench, blownWins, regularSeasonWins, regularSeasonLosses, playoffWins, playoffLosses, worstWeek)
      decreases totalWeeks - week
    {
      var r := ProcessWeek(boxscoresByWeek, week, teamId, teamNameMap, leagueSettings, playoffStartWeek);
      ReportedStep(weeks, r, week, boxscoresByWeek, teamId, teamNameMap, leagueSettings, playoffStartWeek);
      if r.Some? {
        var weekResult := r.value;
        var lost := weekResult.actualScore < weekResult.opponentScore;
        TalliedAppend(weeks, weekResult, totalPointsLeftOnBench, blownWins, regularSeasonWins, regularSeasonLosses,
                      playoffWins, playoffLosses, worstWeek);
        playoffWins := playoffWins + (if weekResult.won && weekResult.isPlayoffs then 1 else 0);
        regularSeasonWins := regularSeasonWins + (if weekResult.won && !weekResult.isPlayoffs then 1 else 0);
        playoffLosses := playoffLosses + (if lost && weekResult.isPlayoffs then 1 else 0);
        regularSeasonLosses := regularSeasonLosses + (if lost && !weekResult.isPlayoffs then 1 else 0);
        blownWins := blownWins + (if weekResult.isBlownWin then 1 else 0);
        weeks := weeks + [weekResult];
        totalPointsLeftOnBench := totalPointsLeftOnBench + weekResult.pointsMissed;
        if worstWeek.None? || weekResult.pointsMissed > worstWeek.value.pointsMissed {
          worstWeek := Some(weekResult);
        }
      }
      week := week + 1;
    }

    var ownerName := if team.ownerName == "" then "Unknown Owner" else team.ownerName;
    result := Ok(ReportData(team.name, ownerName, team.logoURL, team.finalStandingsPosition, |teams|,
                            leagueSettings.name, seasonId, totalPointsLeftOnBench, blownWins,
                            regularSeasonWins, regularSeasonLosses, playoffWins, playoffLosses, weeks, worstWeek));
  }

  // ---------------------------------------------------------------------------
  // What the totals mean

  /** A tied week is neither won, nor lost, nor a blown win. */
  lemma TiedWeek(w: WeekResult, playoffStartWeek: int)
    requires WeekConsistent(w, playoffStartWeek) && w.actualScore == w.opponentScore
    ensures !w.won && !Lost(w) && !w.isBlownWin && w.blownWinMargin == 0.0
  {
  }

  /** A blown win has a positive margin, an ordinary week a margin of 0. */
  lemma BlownWinMargin(w: WeekResult, playoffStartWeek: int)
    requires WeekConsistent(w, playoffStartWeek)
    ensures w.isBlownWin <==> w.blownWinMargin > 0.0
    ensures w.isBlownWin ==> w.blownWinMargin == w.optimalScore - w.opponentScore
  {
  }

  /**
   * Every week is exactly one of won, lost or tied, each win and loss counted
   * once as regular season or playoff; blown wins are losses; and the points
   * left on the bench are never negative.
   */
  lemma {:induction false} SeasonCounts(weeks: seq<WeekResult>, playoffStartWeek: int)
    requires forall i :: 0 <= i < |weeks| ==> WeekConsistent(weeks[i], playoffStartWeek)
    ensures CountWins(weeks, false) + CountWins(weeks, true) + CountLosses(weeks, false) + CountLosses(weeks, true) + CountTies(weeks) == |weeks|
    ensures CountBlown(weeks) <= CountLosses(weeks, false) + CountLosses(weeks, true)
    ensures SumMissed(weeks) >= 0.0
  {
    if weeks != [] {
      var init := weeks[..|weeks| - 1];
      assert forall i :: 0 <= i < |init| ==> init[i] == weeks[i];
      SeasonCounts(init, playoffStartWeek);
      assert WeekConsistent(weeks[|weeks| - 1], playoffStartWeek);
    }
  }

  /** The worst week is absent exactly when no week is reported; otherwise it is the first week that missed the most. */
  lemma {:induction false} WorstOfSpec(weeks: seq<WeekResult>)
    ensures WorstOf(weeks).None? <==> weeks == []
    ensures WorstOf(weeks).Some? ==>
      (exists k :: 0 <= k < |weeks| && weeks[k] == WorstOf(weeks).value && FirstMostMissed(weeks, k))
  {
    if weeks != [] {
      var n := |weeks|;
      var init := weeks[..n - 1];
      WorstOfSpec(init);
      assert forall i :: 0 <= i < |init| ==> init[i] == weeks[i];
      var w := WorstOf(init);
      if w.None? {
        assert FirstMostMissed(weeks, 0);
      } else {
        var k :| 0 <= k < |init| && init[k] == w.value && FirstMostMissed(init, k);
        if weeks[n - 1].pointsMissed > w.value.pointsMissed {
          assert FirstMostMissed(weeks, n - 1);
        } else {
          assert FirstMostMissed(weeks, k);
        }
      }
    }
  }

  /** Week k missed the most points, and every earlier week missed fewer. */
  ghost predicate FirstMostMissed(weeks: seq<WeekResult>, k: int)
    requires 0 <= k < |weeks|
  {
    && (forall j :: 0 <= j < |weeks| ==> weeks[j].pointsMissed <= weeks[k].pointsMissed)
    && (forall j :: 0 <= j < k ==> weeks[j].pointsMissed < weeks[k].pointsMissed)
  }

  /** The reported weeks are increasing, between 1 and the last week, and are exactly the playable ones. */
  lemma {:induction false} PlayableWeeksSpec(boxscoresByWeek: map<int, seq<Boxscore>>, teamId: int, last: int)
    ensures forall i, j :: 0 <= i < j < |PlayableWeeks(boxscoresByWeek, teamId, last)| ==>
      PlayableWeeks(boxscoresByWeek, teamId, last)[i] < PlayableWeeks(boxscoresByWeek, teamId, last)[j]
    ensures forall w :: w in PlayableWeeks(boxscoresByWeek, teamId, last) <==> 1 <= w <= last && Playable(boxscoresByWeek, w, teamId)
    decreases last
  {
    if last >= 1 {
      PlayableWeeksSpec(boxscoresByWeek, teamId, last - 1);
      var p := PlayableWeeks(boxscoresByWeek, teamId, last - 1);
      var r := PlayableWeeks(boxscoresByWeek, teamId, last);
      if Playable(boxscoresByWeek, last, teamId) {
        assert r == p + [last];
        forall i, j | 0 <= i < j < |r| ensures r[i] < r[j] {
          if j < |p| {
            assert r[i] == p[i] && r[j] == p[j];
          } else {
            assert r[i] == p[i] && p[i] in p;
          }
        }
      }
    }
  }
}

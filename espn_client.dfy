/**
 * The clean-up the ESPN client applies to every fetched boxscore: slot labels
 * that the provider reports as player positions are removed, and the one
 * such default position is corrected.
 */
module EspnClient {
  import opened Wrappers
  import opened Types
  import Sorting

  /** INVALID_PLAYER_POSITIONS: slot types that are not real player positions. */
  const InvalidPlayerPositions: seq<string> := ["RB/WR", "RB/WR/TE", "WR/TE", "OP"]

  predicate RealPosition(pos: string) {
    pos !in InvalidPlayerPositions
  }

  /** sanitizePlayer: "RB/WR" as default position becomes "WR"; the slot types leave the eligible positions. */
  function SanitizePlayer(player: Player): Player {
    var defaultPosition := if player.defaultPosition == "RB/WR" then "WR" else player.defaultPosition;
    var eligiblePositions := Sorting.Filter(player.eligiblePositions, RealPosition);
    player.(defaultPosition := defaultPosition, eligiblePositions := eligiblePositions)
  }

  /** The sanitised positions are the real positions of the input, each kept where it was. */
  lemma SanitizedPositions(player: Player)
    ensures forall pos :: pos in SanitizePlayer(player).eligiblePositions ==> pos in player.eligiblePositions
    ensures forall pos :: pos in SanitizePlayer(player).eligiblePositions ==>
      pos != "RB/WR" && pos != "RB/WR/TE" && pos != "WR/TE" && pos != "OP"
    ensures forall pos :: pos in player.eligiblePositions && RealPosition(pos) ==> pos in SanitizePlayer(player).eligiblePositions
  {
    Sorting.FilterMembers(player.eligiblePositions, RealPosition);
  }

  /**
   * The removal keeps order: the positions of `a + b` sanitise to those of
   * `a` followed by those of `b`, and a single position is kept exactly when
   * it is real. Together these fix the result as the input with exactly the
   * slot types struck out.
   */
  lemma SanitizeKeepsOrder(player: Player, a: seq<string>, b: seq<string>, pos: string)
    ensures player.eligiblePositions == a + b ==>
      SanitizePlayer(player).eligiblePositions ==
        SanitizePlayer(player.(eligiblePositions := a)).eligiblePositions
        + SanitizePlayer(player.(eligiblePositions := b)).eligiblePositions
    ensures SanitizePlayer(player.(eligiblePositions := [pos])).eligiblePositions == (if RealPosition(pos) then [pos] else [])
  {
    Sorting.FilterAppend(a, b, RealPosition);
    assert [pos][..0] == [];
  }

  /** Only "RB/WR" as default position changes, and every other field is left as it was. */
  lemma SanitizedFields(player: Player)
    ensures player.defaultPosition == "RB/WR" ==> SanitizePlayer(player).defaultPosition == "WR"
    ensures player.defaultPosition != "RB/WR" ==> SanitizePlayer(player).defaultPosition == player.defaultPosition
    ensures SanitizePlayer(player).(defaultPosition := player.defaultPosition, eligiblePositions := player.eligiblePositions) == player
  {
  }

  /** Sanitising twice changes nothing more. */
  lemma SanitizeIdempotent(player: Player)
    ensures SanitizePlayer(SanitizePlayer(player)) == SanitizePlayer(player)
  {
    var once := SanitizePlayer(player);
    SanitizedPositions(player);
    forall i | 0 <= i < |once.eligiblePositions| ensures RealPosition(once.eligiblePositions[i]) {
      assert once.eligiblePositions[i] in once.eligiblePositions;
    }
    Sorting.FilterAllKept(once.eligiblePositions, RealPosition);
  }

  /** `roster.map(sanitizePlayer)`. */
  function SanitizeAll(roster: seq<Player>): (r: seq<Player>)
    ensures |r| == |roster|
    ensures forall i :: 0 <= i < |r| ==> r[i] == SanitizePlayer(roster[i])
  {
    if roster == [] then []
    else SanitizeAll(roster[..|roster| - 1]) + [SanitizePlayer(roster[|roster| - 1])]
  }

  /** `roster?.map(sanitizePlayer) || []`: a missing roster becomes the empty one (an empty array is truthy). */
  function SanitizeRoster(roster: Option<seq<Player>>): seq<Player> {
    match roster
    case None => []
    case Some(players) => SanitizeAll(players)
  }

  /** sanitizeBoxscore: both rosters sanitised and always present. */
  function SanitizeBoxscore(boxscore: Boxscore): Boxscore {
    boxscore.(homeRoster := Some(SanitizeRoster(boxscore.homeRoster)),
              awayRoster := Some(SanitizeRoster(boxscore.awayRoster)))
  }

  /** Both rosters keep their length and each player is sanitised in place; the teams and scores are kept. */
  lemma SanitizedBoxscore(boxscore: Boxscore)
    ensures var r := SanitizeBoxscore(boxscore);
      && r.homeRoster.Some? && r.awayRoster.Some?
      && r.homeTeamId == boxscore.homeTeamId && r.awayTeamId == boxscore.awayTeamId
      && r.homeScore == boxscore.homeScore && r.awayScore == boxscore.awayScore
    ensures boxscore.homeRoster.None? ==> SanitizeBoxscore(boxscore).homeRoster == Some([])
    ensures boxscore.awayRoster.None? ==> SanitizeBoxscore(boxscore).awayRoster == Some([])
    ensures boxscore.homeRoster.Some? ==> |SanitizeBoxscore(boxscore).homeRoster.value| == |boxscore.homeRoster.value|
    ensures boxscore.awayRoster.Some? ==> |SanitizeBoxscore(boxscore).awayRoster.value| == |boxscore.awayRoster.value|
    ensures boxscore.homeRoster.Some? ==> forall i :: 0 <= i < |boxscore.homeRoster.value| ==>
      SanitizeBoxscore(boxscore).homeRoster.value[i] == SanitizePlayer(boxscore.homeRoster.value[i])
    ensures boxscore.awayRoster.Some? ==> forall i :: 0 <= i < |boxscore.awayRoster.value| ==>
      SanitizeBoxscore(boxscore).awayRoster.value[i] == SanitizePlayer(boxscore.awayRoster.value[i])
  {
  }

  /** Sanitising a boxscore twice changes nothing more. */
  lemma SanitizeBoxscoreIdempotent(boxscore: Boxscore)
    ensures SanitizeBoxscore(SanitizeBoxscore(boxscore)) == SanitizeBoxscore(boxscore)
  {
    var once := SanitizeBoxscore(boxscore);
    forall roster: Option<seq<Player>> ensures SanitizeRoster(Some(SanitizeRoster(roster))) == SanitizeRoster(roster) {
      var r := SanitizeRoster(roster);
      forall i | 0 <= i < |r| ensures SanitizeAll(r)[i] == r[i] {
        if roster.Some? {
          SanitizeIdempotent(roster.value[i]);
        }
      }
    }
  }
}

/**
 * The roast copy: a 32-bit string hash seeds the choice of one line out of a
 * bucket, and threshold ladders over the season's numbers choose the bucket.
 * The lines themselves are constants; a line that shows a number formatted
 * with `toFixed` takes that text as a parameter.
 */
module Copy {
  import opened Wrappers
  import opened Types
  import Decimal

  // ---------------------------------------------------------------------------
  // 32-bit integers, as JavaScript's bitwise operators see numbers

  const TwoPow31: int := 0x8000_0000
  const TwoPow32: int := 0x1_0000_0000

  /** ToInt32: the value modulo 2^32, read as a signed 32-bit integer. */
  function ToInt32(x: int): (r: int)
    ensures -TwoPow31 <= r < TwoPow31
    ensures (r - x) % TwoPow32 == 0
  {
    var m := x % TwoPow32;
    assert x == TwoPow32 * (x / TwoPow32) + m;
    if m >= TwoPow31 then m - TwoPow32 else m
  }

  /** A value that already fits is its own 32-bit reading. */
  lemma ToInt32InRange(x: int)
    requires -TwoPow31 <= x < TwoPow31
    ensures ToInt32(x) == x
  {
  }

  lemma MultipleRemainder(x: int, y: int)
    requires (x - y) % TwoPow32 == 0
    ensures x % TwoPow32 == y % TwoPow32
  {
    var a, b := x / TwoPow32, y / TwoPow32;
    assert x == TwoPow32 * a + x % TwoPow32;
    assert y == TwoPow32 * b + y % TwoPow32;
    var d := x - y;
    assert d == TwoPow32 * (d / TwoPow32);
    assert x % TwoPow32 - y % TwoPow32 == TwoPow32 * (d / TwoPow32 - a + b);
  }

  /** Numbers equal modulo 2^32 have the same 32-bit reading. */
  lemma ToInt32Congruent(x: int, y: int)
    requires (x - y) % TwoPow32 == 0
    ensures ToInt32(x) == ToInt32(y)
  {
    MultipleRemainder(x, y);
  }

  lemma ScaledMultiple(k: int, j: int)
    requires k % TwoPow32 == 0
    ensures (j * k) % TwoPow32 == 0
  {
    var q := k / TwoPow32;
    assert k == TwoPow32 * q;
    assert j * k == TwoPow32 * (j * q);
  }

  // ---------------------------------------------------------------------------
  // hashString

  /** `str.charCodeAt(i)` for every i: the string's UTF-16 code units. */
  function CodeUnits(s: string): (r: seq<int>)
    ensures forall i :: 0 <= i < |r| ==> 0 <= r[i] < 0x1_0000
  {
    if s == [] then []
    else
      var c := s[|s| - 1] as int;
      CodeUnits(s[..|s| - 1])
        + (if c < 0x1_0000 then [c]
           else [0xD800 + (c - 0x1_0000) / 0x400, 0xDC00 + (c - 0x1_0000) % 0x400])
  }

  /** One turn of the loop: `hash = ((hash << 5) - hash) + char`, then `hash & hash`. */
  function HashStep(hash: int, unit: int): int {
    ToInt32(ToInt32(hash * 32) - hash + unit)
  }

  /** The loop's `hash` after the given code units, from 0. */
  function HashOf(units: seq<int>): int {
    if units == [] then 0 else HashStep(HashOf(units[..|units| - 1]), units[|units| - 1])
  }

  /** `Math.abs`. */
  function Abs(x: int): int {
    if x < 0 then -x else x
  }

  /** The polynomial string hash: each code unit added to 31 times the hash of what came before. */
  function PolyHash(units: seq<int>): int {
    if units == [] then 0 else 31 * PolyHash(units[..|units| - 1]) + units[|units| - 1]
  }

  /** A turn of the loop multiplies by 31 and adds the code unit, in 32 bits. */
  lemma HashStepIsTimes31(hash: int, unit: int)
    ensures HashStep(hash, unit) == ToInt32(31 * hash + unit)
  {
    ToInt32Congruent(ToInt32(hash * 32) - hash + unit, 31 * hash + unit);
  }

  /** The loop computes the polynomial hash of the code units, read as a signed 32-bit integer. */
  lemma {:induction false} HashOfIsPolyHash(units: seq<int>)
    ensures HashOf(units) == ToInt32(PolyHash(units))
  {
    if units != [] {
      var init := units[..|units| - 1];
      var c := units[|units| - 1];
      HashOfIsPolyHash(init);
      HashStepIsTimes31(HashOf(init), c);
      var p := PolyHash(init);
      ScaledMultiple(ToInt32(p) - p, 31);
      assert (31 * ToInt32(p) + c) - (31 * p + c) == 31 * (ToInt32(p) - p);
      ToInt32Congruent(31 * ToInt32(p) + c, 31 * p + c);
    }
  }

  /** hashString: the absolute value of the loop's 32-bit hash. */
  function Hash(str: string): (r: int)
    ensures 0 <= r <= TwoPow31
  {
    Abs(HashOf(CodeUnits(str)))
  }

  method HashString(str: string) returns (hash: int)
    ensures hash == Hash(str)
    ensures 0 <= hash <= TwoPow31
  {
    var units := CodeUnits(str);
    hash := 0;
    for i := 0 to |units|
      invariant hash == HashOf(units[..i])
    {
      assert units[..i + 1][..i] == units[..i];
      var unit := units[i];
      hash := ToInt32(hash * 32) - hash + unit;
      hash := ToInt32(hash);
    }
    assert units[..|units|] == units;
    hash := Abs(hash);
  }

  // ---------------------------------------------------------------------------
  // pickOne

  /** JavaScript's `%` for a non-zero divisor: the remainder takes the sign of the dividend. */
  function JsRem(a: int, b: int): (r: int)
    requires b != 0
    ensures a >= 0 ==> 0 <= r < Abs(b)
    ensures a < 0 ==> -Abs(b) < r <= 0
  {
    if a >= 0 then a % Abs(b) else -((-a) % Abs(b))
  }

  /** `options[seed % options.length]`: undefined for an empty list or a negative index. */
  function PickOne<T>(options: seq<T>, seed: int): Option<T> {
    if |options| == 0 then None
    else
      var i := JsRem(seed, |options|);
      if 0 <= i then Some(options[i]) else None
  }

  /** A non-negative seed picks the option at the seed modulo the count. */
  lemma PickOneMember<T>(options: seq<T>, seed: int)
    requires seed >= 0 && |options| > 0
    ensures PickOne(options, seed) == Some(options[seed % |options|])
    ensures PickOne(options, seed).value in options
  {
  }

  /** A negative seed picks only when it is a multiple of the count (JavaScript's `-0`). */
  lemma PickOneNegative<T>(options: seq<T>, seed: int)
    requires seed < 0 && |options| > 0
    ensures PickOne(options, seed).Some? <==> seed % |options| == 0
    ensures PickOne(options, seed).Some? ==> PickOne(options, seed).value == options[0]
  {
    var n := |options|;
    var x := -seed;
    if seed % n == 0 {
      assert x == n * (-(seed / n)) + 0;
      ModUnique(x, n, -(seed / n), 0);
    }
    if x % n == 0 {
      assert seed == n * (-(x / n)) + 0;
      ModUnique(seed, n, -(x / n), 0);
    }
  }

  lemma {:induction false} MulAtLeast(n: nat, t: int)
    requires t >= 1
    ensures n * t >= n
  {
    if t > 1 {
      MulAtLeast(n, t - 1);
      assert n * t == n * (t - 1) + n;
    }
  }

  lemma MulAtMost(n: int, t: int)
    requires n >= 0 && t <= -1
    ensures n * t <= -n
  {
    MulAtLeast(n, -t);
    assert n * t == -(n * (-t));
  }

  /** Euclidean division has one quotient and one remainder. */
  lemma ModUnique(x: int, n: int, q: int, r: int)
    requires n > 0 && 0 <= r < n && x == n * q + r
    ensures x % n == r
  {
    var t := q - x / n;
    assert x == n * (x / n) + x % n;
    assert n * t == x % n - r;
    if t >= 1 {
      MulAtLeast(n, t);
    } else if t <= -1 {
      MulAtMost(n, t);
    }
  }

  // ---------------------------------------------------------------------------
  // Numbers that may be NaN or infinite

  /** The double a division of points by a count yields. */
  datatype Num = Finite(v: real) | NaN | PosInf | NegInf

  /** `x / n`: division by zero gives an infinity, or NaN for 0 / 0. */
  function Divide(x: real, n: int): Num {
    if n != 0 then Finite(x / n as real)
    else if x > 0.0 then PosInf
    else if x < 0.0 then NegInf
    else NaN
  }

  /** `x > c`; every comparison with NaN is false. */
  predicate Above(x: Num, c: real) {
    match x
    case Finite(v) => v > c
    case PosInf => true
    case _ => false
  }

  /** `x < c`. */
  predicate Below(x: Num, c: real) {
    match x
    case Finite(v) => v < c
    case NegInf => true
    case _ => false
  }

  /** `x <= c`. */
  predicate AtMost(x: Num, c: real) {
    match x
    case Finite(v) => v <= c
    case NegInf => true
    case _ => false
  }

  /** A number that is neither above c nor at most c is NaN. */
  lemma OnlyNaNIsIncomparable(x: Num, c: real)
    ensures !Above(x, c) && !AtMost(x, c) <==> x == NaN
  {
  }

  // ---------------------------------------------------------------------------
  // getWeekPraiseDeterministic

  const WeekPraises: seq<string> := [
    "Shockingly competent this week.",
    "No points left on the bench. A rare achievement.",
    "Perfect lineup. Mark your calendar.",
    "You actually set the optimal lineup. Impressive.",
    "Nothing to roast here. Enjoy this moment.",
    "Optimal decisions all around. Who are you?",
    "Zero points missed. Did someone else set your lineup?",
    "A flawless week. Treasure it."
  ]

  function WeekPraise(week: int): Option<string> {
    PickOne(WeekPraises, week)
  }

  /** From week 0 on, the praise is one of the eight lines and repeats every eight weeks. */
  lemma WeekPraisePeriodic(week: int)
    requires week >= 0
    ensures WeekPraise(week).Some? && WeekPraise(week).value in WeekPraises
    ensures WeekPraise(week + 8) == WeekPraise(week)
    ensures WeekPraise(week) == Some(WeekPraises[week % 8])
  {
    PickOneMember(WeekPraises, week);
    PickOneMember(WeekPraises, week + 8);
  }

  /** Before week 0, only a multiple of eight finds a line, and it is the first. */
  lemma WeekPraiseNegative(week: int)
    requires week < 0
    ensures WeekPraise(week).Some? <==> week % 8 == 0
    ensures WeekPraise(week).Some? ==> WeekPraise(week).value == WeekPraises[0]
  {
    PickOneNegative(WeekPraises, week);
  }

  // ---------------------------------------------------------------------------
  // getBlownWinsSummary

  datatype BlownWinsCase = NoBlownWins | OneBlownWin | TwoBlownWins | ThreeBlownWins | ManyBlownWins

  function BlownWinsCaseOf(blownWins: int): BlownWinsCase {
    if blownWins == 0 then NoBlownWins
    else if blownWins == 1 then OneBlownWin
    else if blownWins == 2 then TwoBlownWins
    else if blownWins == 3 then ThreeBlownWins
    else ManyBlownWins
  }

  /** The bucket is the count itself for 0 to 3 and the catch-all bucket for anything else. */
  lemma BlownWinsCases(blownWins: int)
    ensures BlownWinsCaseOf(blownWins) == ManyBlownWins <==> !(0 <= blownWins <= 3)
    ensures 0 <= blownWins <= 3 ==>
      BlownWinsCaseOf(blownWins) == [NoBlownWins, OneBlownWin, TwoBlownWins, ThreeBlownWins][blownWins]
  {
  }

  const NoBlownWins1: string := "At least your losses were legitimate."
  const NoBlownWins2: string := "No games thrown away. A small consolation."
  const NoBlownWins3: string := "You lost fair and square. No excuses here."
  const NoBlownWinsLines: seq<string> := [NoBlownWins1, NoBlownWins2, NoBlownWins3]

  const OneBlownWin1: string := "One game you could have won. One game you threw away."
  const OneBlownWin2: string := "A single win slipped through your fingers."
  const OneBlownWin3: string := "One blown win. It stings, doesn't it?"
  const OneBlownWinLines: seq<string> := [OneBlownWin1, OneBlownWin2, OneBlownWin3]

  const TwoBlownWins1: string := "Two games. You lost two games you should have won."
  const TwoBlownWins2: string := "A pair of wins, donated to your opponents."
  const TwoBlownWins3: string := "Two blown wins. That's a pattern, not a fluke."
  const TwoBlownWinsLines: seq<string> := [TwoBlownWins1, TwoBlownWins2, TwoBlownWins3]

  const ThreeBlownWins1: string := "Three wins you gave away. That's impressive in the worst way."
  const ThreeBlownWins2: string := "A hat trick of failure. Three blown wins."
  const ThreeBlownWins3: string := "Three games lost to poor lineup decisions. Ouch."
  const ThreeBlownWinsLines: seq<string> := [ThreeBlownWins1, ThreeBlownWins2, ThreeBlownWins3]

  function ManyBlownWinsLines(n: string): seq<string> {
    [
      n + " games lost due to your own decisions. Remarkable.",
      n + " blown wins. At this point, it's a lifestyle choice.",
      n + " wins thrown away. Were you even trying?"]
  }

  function BlownWinsLines(c: BlownWinsCase, blownWins: int): (r: seq<string>)
    ensures |r| == 3
  {
    var n := Decimal.IntToString(blownWins);
    match c
    case NoBlownWins => NoBlownWinsLines
    case OneBlownWin => OneBlownWinLines
    case TwoBlownWins => TwoBlownWinsLines
    case ThreeBlownWins => ThreeBlownWinsLines
    case ManyBlownWins => ManyBlownWinsLines(n)
  }


  function BlownWinsSummary(blownWins: int, report: ReportData): Option<string> {
    PickOne(BlownWinsLines(BlownWinsCaseOf(blownWins), blownWins), Hash(report.teamName))
  }

  /** The summary is always a line of the chosen bucket. */
  lemma BlownWinsSummaryDefined(blownWins: int, report: ReportData)
    ensures BlownWinsSummary(blownWins, report).Some?
    ensures BlownWinsSummary(blownWins, report).value in BlownWinsLines(BlownWinsCaseOf(blownWins), blownWins)
  {
    PickOneMember(BlownWinsLines(BlownWinsCaseOf(blownWins), blownWins), Hash(report.teamName));
  }

  // ---------------------------------------------------------------------------
  // getWeekRoastHeadline

  datatype HeadlineCase = Over40 | Over25 | Over15 | Over8 | Minor

  function HeadlineCaseOf(pointsMissed: real): HeadlineCase {
    if pointsMissed > 40.0 then Over40
    else if pointsMissed > 25.0 then Over25
    else if pointsMissed > 15.0 then Over15
    else if pointsMissed > 8.0 then Over8
    else Minor
  }

  /** Each bucket covers the half-open range between its threshold and the one above it. */
  lemma HeadlineRanges(pointsMissed: real)
    ensures HeadlineCaseOf(pointsMissed) == Over40 <==> pointsMissed > 40.0
    ensures HeadlineCaseOf(pointsMissed) == Over25 <==> 25.0 < pointsMissed <= 40.0
    ensures HeadlineCaseOf(pointsMissed) == Over15 <==> 15.0 < pointsMissed <= 25.0
    ensures HeadlineCaseOf(pointsMissed) == Over8 <==> 8.0 < pointsMissed <= 15.0
    ensures HeadlineCaseOf(pointsMissed) == Minor <==> pointsMissed <= 8.0
  {
  }

  const MinorHeadline: string := "Minor, but every point counts in fantasy."

  const Over401: string := "Did you even check your lineup this week?"
  const Over402: string := "This is the kind of mismanagement that loses championships."
  const Over403: string := "Your bench players are begging for playing time."
  const Over40Lines: seq<string> := [Over401, Over402, Over403]

  const Over251: string := "That's a lot of wasted potential sitting on your bench."
  const Over252: string := "Your lineup decisions need some serious work."
  const Over253: string := "Those bench points could have changed everything."
  const Over25Lines: seq<string> := [Over251, Over252, Over253]

  const Over151: string := "Not your finest lineup management work."
  const Over152: string := "A few better decisions and this looks different."
  const Over153: string := "Your bench was quietly outperforming your starters."
  const Over15Lines: seq<string> := [Over151, Over152, Over153]

  const Over81: string := "Room for improvement in the lineup department."
  const Over82: string := "A modest oversight, but oversights add up."
  const Over8Lines: seq<string> := [Over81, Over82]

  function HeadlineLines(c: HeadlineCase): (r: seq<string>)
    ensures c != Minor ==> |r| >= 2
  {
    match c
    case Over40 => Over40Lines
    case Over25 => Over25Lines
    case Over15 => Over15Lines
    case Over8 => Over8Lines
    case Minor => [MinorHeadline]
  }


  /** getWeekRoastHeadline, seeded by the week number. */
  function WeekRoastHeadline(pointsMissed: real, week: int): Option<string> {
    var c := HeadlineCaseOf(pointsMissed);
    if c == Minor then Some(MinorHeadline) else PickOne(HeadlineLines(c), week)
  }

  /** Up to 8 points missed gives the fixed line; otherwise, from week 0 on, a line of the bucket. */
  lemma WeekRoastHeadlineDefined(pointsMissed: real, week: int)
    ensures pointsMissed <= 8.0 ==> WeekRoastHeadline(pointsMissed, week) == Some(MinorHeadline)
    ensures pointsMissed > 8.0 && week >= 0 ==>
      WeekRoastHeadline(pointsMissed, week).Some? &&
      WeekRoastHeadline(pointsMissed, week).value in HeadlineLines(HeadlineCaseOf(pointsMissed))
  {
    if pointsMissed > 8.0 && week >= 0 {
      PickOneMember(HeadlineLines(HeadlineCaseOf(pointsMissed)), week);
    }
  }

  // ---------------------------------------------------------------------------
  // getBenchPointsSummary

  datatype BenchCase = Graveyard | DoubleDigits | AddsUp | SomeMissed | Solid

  function BenchCaseOf(pointsPerGame: Num): BenchCase {
    if Above(pointsPerGame, 15.0) then Graveyard
    else if Above(pointsPerGame, 10.0) then DoubleDigits
    else if Above(pointsPerGame, 6.0) then AddsUp
    else if Above(pointsPerGame, 3.0) then SomeMissed
    else Solid
  }

  /** For a finite average the buckets are the ranges between the thresholds; NaN lands in the last one. */
  lemma BenchRanges(v: real)
    ensures BenchCaseOf(Finite(v)) == Graveyard <==> v > 15.0
    ensures BenchCaseOf(Finite(v)) == DoubleDigits <==> 10.0 < v <= 15.0
    ensures BenchCaseOf(Finite(v)) == AddsUp <==> 6.0 < v <= 10.0
    ensures BenchCaseOf(Finite(v)) == SomeMissed <==> 3.0 < v <= 6.0
    ensures BenchCaseOf(Finite(v)) == Solid <==> v <= 3.0
    ensures BenchCaseOf(NaN) == Solid && BenchCaseOf(PosInf) == Graveyard
  {
  }

  const Graveyard1: string := "That's not a bench, that's a graveyard of missed opportunities."
  const Graveyard2: string := "Your bench was basically a second starting lineup."
  const Graveyard3: string := "Those points were begging to play. You ignored them."
  const GraveyardLines: seq<string> := [Graveyard1, Graveyard2, Graveyard3]

  const DoubleDigits1: string := "Double digits per week just sitting there. Painful."
  const DoubleDigits2: string := "That's a lot of points collecting dust on your bench."
  const DoubleDigits3: string := "Your bench players deserved better than you."
  const DoubleDigitsLines: seq<string> := [DoubleDigits1, DoubleDigits2, DoubleDigits3]

  const AddsUp1: string := "Not catastrophic, but those points add up over a season."
  const AddsUp2: string := "A few better decisions and this number shrinks significantly."
  const AddsUp3: string := "Every week, a little bit of value slipping away."
  const AddsUpLines: seq<string> := [AddsUp1, AddsUp2, AddsUp3]

  const SomeMissed1: string := "Some missed opportunities, but nothing too egregious."
  const SomeMissed2: string := "Room for improvement, but you weren't asleep at the wheel."
  const SomeMissed3: string := "A respectable amount of regret. Not too much, not too little."
  const SomeMissedLines: seq<string> := [SomeMissed1, SomeMissed2, SomeMissed3]

  const SolidBench1: string := "Your bench management was actually solid. Weird."
  const SolidBench2: string := "Minimal points left behind. Well done, I suppose."
  const SolidBench3: string := "Not much to criticize here. How disappointing for us."
  const SolidBenchLines: seq<string> := [SolidBench1, SolidBench2, SolidBench3]

  function BenchLines(c: BenchCase): (r: seq<string>)
    ensures |r| == 3
  {
    match c
    case Graveyard => GraveyardLines
    case DoubleDigits => DoubleDigitsLines
    case AddsUp => AddsUpLines
    case SomeMissed => SomeMissedLines
    case Solid => SolidBenchLines
  }


  function BenchPointsSummary(totalPoints: real, report: ReportData): Option<string> {
    PickOne(BenchLines(BenchCaseOf(Divide(totalPoints, |report.weeks|))), Hash(report.teamName))
  }

  /** The summary is always a line of the bucket of the points per game. */
  lemma BenchPointsSummaryDefined(totalPoints: real, report: ReportData)
    ensures BenchPointsSummary(totalPoints, report).Some?
    ensures BenchPointsSummary(totalPoints, report).value in BenchLines(BenchCaseOf(Divide(totalPoints, |report.weeks|)))
  {
    PickOneMember(BenchLines(BenchCaseOf(Divide(totalPoints, |report.weeks|))), Hash(report.teamName));
  }

  // ---------------------------------------------------------------------------
  // getVerdict

  datatype VerdictCase =
    | IronicChampion | CompetentChampion | MessyChampion | LastPlace | ManyBlown
    | HugeBench | BigBench | LostWithBlown | TwoBlown | OneBlown
    | LuckyRecord | CompetentRecord | ModerateBench | LowBench | Average

  /** The statistics the ladder reads. */
  function PointsPerGame(report: ReportData): Num {
    Divide(report.totalPointsLeftOnBench, |report.weeks|)
  }

  function WinPct(report: ReportData): real {
    var totalGames := report.regularSeasonWins + report.regularSeasonLosses;
    if totalGames > 0 then report.regularSeasonWins as real / totalGames as real else 0.0
  }

  function Champion(report: ReportData): bool {
    report.finalStandingsPosition == Some(1)
  }

  /** The ladder of getVerdict, taken top to bottom. */
  function VerdictCaseOf(report: ReportData): VerdictCase {
    var ppg := PointsPerGame(report);
    var winPct := WinPct(report);
    if Champion(report) && report.blownWins > 0 then IronicChampion
    else if Champion(report) && report.totalPointsLeftOnBench < 50.0 then CompetentChampion
    else if Champion(report) then MessyChampion
    else if report.finalStandingsPosition == Some(report.leagueSize) then LastPlace
    else if report.blownWins >= 3 then ManyBlown
    else if Above(ppg, 15.0) then HugeBench
    else if Above(ppg, 10.0) then BigBench
    else if winPct < 0.4 && report.blownWins >= 2 then LostWithBlown
    else if report.blownWins == 2 then TwoBlown
    else if report.blownWins == 1 then OneBlown
    else if winPct >= 0.6 && Above(ppg, 8.0) then LuckyRecord
    else if winPct >= 0.6 && Below(ppg, 5.0) then CompetentRecord
    else if Above(ppg, 5.0) then ModerateBench
    else if AtMost(ppg, 5.0) then LowBench
    else Average
  }

  /** The condition written at each rung, on its own. */
  predicate Rung(c: VerdictCase, report: ReportData) {
    var ppg := PointsPerGame(report);
    var winPct := WinPct(report);
    match c
    case IronicChampion => Champion(report) && report.blownWins > 0
    case CompetentChampion => Champion(report) && report.totalPointsLeftOnBench < 50.0
    case MessyChampion => Champion(report)
    case LastPlace => report.finalStandingsPosition == Some(report.leagueSize)
    case ManyBlown => report.blownWins >= 3
    case HugeBench => Above(ppg, 15.0)
    case BigBench => Above(ppg, 10.0)
    case LostWithBlown => winPct < 0.4 && report.blownWins >= 2
    case TwoBlown => report.blownWins == 2
    case OneBlown => report.blownWins == 1
    case LuckyRecord => winPct >= 0.6 && Above(ppg, 8.0)
    case CompetentRecord => winPct >= 0.6 && Below(ppg, 5.0)
    case ModerateBench => Above(ppg, 5.0)
    case LowBench => AtMost(ppg, 5.0)
    case Average => true
  }

  const VerdictLadder: seq<VerdictCase> := [
    IronicChampion, CompetentChampion, MessyChampion, LastPlace, ManyBlown,
    HugeBench, BigBench, LostWithBlown, TwoBlown, OneBlown,
    LuckyRecord, CompetentRecord, ModerateBench, LowBench, Average]

  function LadderIndex(c: VerdictCase): (k: nat)
    ensures k < |VerdictLadder| && VerdictLadder[k] == c
  {
    match c
    case IronicChampion => 0
    case CompetentChampion => 1
    case MessyChampion => 2
    case LastPlace => 3
    case ManyBlown => 4
    case HugeBench => 5
    case BigBench => 6
    case LostWithBlown => 7
    case TwoBlown => 8
    case OneBlown => 9
    case LuckyRecord => 10
    case CompetentRecord => 11
    case ModerateBench => 12
    case LowBench => 13
    case Average => 14
  }

  /** The verdict's bucket is the first rung of the ladder whose condition holds. */
  lemma VerdictFirstMatch(report: ReportData)
    ensures (exists k :: 0 <= k < |VerdictLadder| && VerdictLadder[k] == VerdictCaseOf(report) &&
               Rung(VerdictLadder[k], report) && forall j :: 0 <= j < k ==> !Rung(VerdictLadder[j], report))
  {
    var c := VerdictCaseOf(report);
    var k := LadderIndex(c);
    assert Rung(c, report);
    forall j | 0 <= j < k ensures !Rung(VerdictLadder[j], report) {
      assert VerdictLadder[j] != c;
    }
  }

  /** A champion who blew a win gets the ironic line, whatever else the season shows. */
  lemma IronicChampionWins(report: ReportData)
    requires report.finalStandingsPosition == Some(1) && report.blownWins > 0
    ensures VerdictCaseOf(report) == IronicChampion
  {
  }

  /** The closing constant is reached only without a number to average: no weeks and no points. */
  lemma AverageOnlyWithoutWeeks(report: ReportData)
    ensures VerdictCaseOf(report) == Average <==>
      && PointsPerGame(report) == NaN
      && !Champion(report) && report.finalStandingsPosition != Some(report.leagueSize)
      && report.blownWins < 3 && report.blownWins != 2 && report.blownWins != 1
    ensures PointsPerGame(report) == NaN <==> |report.weeks| == 0 && report.totalPointsLeftOnBench == 0.0
  {
    OnlyNaNIsIncomparable(PointsPerGame(report), 5.0);
  }

  const IronicChampion1: string := "Final verdict: You won the league despite your best efforts to lose it."
  const IronicChampion2: string := "Final verdict: Champion by luck, not by skill."
  const IronicChampion3: string := "Final verdict: You stumbled into a championship. Congrats, I guess."
  const IronicChampionLines: seq<string> := [IronicChampion1, IronicChampion2, IronicChampion3]

  const CompetentChampion1: string := "Final verdict: Annoyingly competent. You actually deserved this one."
  const CompetentChampion2: string := "Final verdict: A well-managed championship run. How boring."
  const CompetentChampion3: string := "Final verdict: You did everything right. There's nothing to roast here. Disgusting."
  const CompetentChampionLines: seq<string> := [CompetentChampion1, CompetentChampion2, CompetentChampion3]

  const MessyChampion1: string := "Final verdict: You won, but let's talk about how messy that journey was."
  const MessyChampion2: string := "Final verdict: Champion, but your bench management needs work."
  const MessyChampionLines: seq<string> := [MessyChampion1, MessyChampion2]

  const LastPlace1: string := "Final verdict: Dead last. At least you're consistent."
  const LastPlace2: string := "Final verdict: Someone had to finish last. Congrats, it was you."
  const LastPlace3: string := "Final verdict: The toilet bowl is yours. Wear it proudly."
  const LastPlace4: string := "Final verdict: You didn't just lose, you committed to losing."
  const LastPlaceLines: seq<string> := [LastPlace1, LastPlace2, LastPlace3, LastPlace4]

  function ManyBlownLines(blownWins: int): (r: seq<string>)
    ensures |r| == 4
  {
    var n := Decimal.IntToString(blownWins);
    [
      "Final verdict: You didn't just lose games, you donated them.",
      "Final verdict: " + n + " blown wins. That's a talent, honestly.",
      "Final verdict: Your lineup decisions were an act of self-sabotage.",
      "Final verdict: You're not unlucky. You're just bad at this."]
  }

  function HugeBenchLines(pointsPerGameFixed: string): (r: seq<string>)
    ensures |r| == 4
  {
    [
      "Final verdict: Your bench was a fantasy team unto itself.",
      "Final verdict: You left a whole roster's worth of points sitting there.",
      "Final verdict: " + pointsPerGameFixed + " points per week on your bench. Impressive incompetence.",
      "Final verdict: You are impressively bad at fantasy football."]
  }

  const BigBench1: string := "Final verdict: Your bench outscored some people's starters."
  const BigBench2: string := "Final verdict: You are bad at fantasy football. The numbers don't lie."
  const BigBench3: string := "Final verdict: Double-digit points per week left on the bench. Classic."
  const BigBenchLines: seq<string> := [BigBench1, BigBench2, BigBench3]

  function LostWithBlownLines(blownWins: int): (r: seq<string>)
    ensures |r| == 3
  {
    var n := Decimal.IntToString(blownWins);
    [
      "Final verdict: Your record could have been respectable. But here we are.",
      "Final verdict: " + n + " wins you threw away. That's the difference between bad and tragic.",
      "Final verdict: You weren't just unlucky. You actively sabotaged yourself."]
  }

  const TwoBlown1: string := "Final verdict: Two wins walked right out the door because of you."
  const TwoBlown2: string := "Final verdict: Imagine your season with two more wins. Now stop imagining."
  const TwoBlown3: string := "Final verdict: Two games. You blew two games. Let that marinate."
  const TwoBlownLines: seq<string> := [TwoBlown1, TwoBlown2, TwoBlown3]

  const OneBlown1: string := "Final verdict: One win. You threw away one win. That's on you."
  const OneBlown2: string := "Final verdict: A single blown win. It happens. But it happened to you."
  const OneBlown3: string := "Final verdict: One game you should have won. One game you didn't."
  const OneBlownLines: seq<string> := [OneBlown1, OneBlown2, OneBlown3]

  const LuckyRecord1: string := "Final verdict: You won games despite your lineup decisions, not because of them."
  const LuckyRecord2: string := "Final verdict: A winning record built on luck and vibes."
  const LuckyRecord3: string := "Final verdict: Solid record, sloppy execution. You got away with it."
  const LuckyRecordLines: seq<string> := [LuckyRecord1, LuckyRecord2, LuckyRecord3]

  const CompetentRecord1: string := "Final verdict: Competent. Boring, but competent."
  const CompetentRecord2: string := "Final verdict: Not much to roast here. Try being worse next year."
  const CompetentRecord3: string := "Final verdict: You actually know what you're doing. Annoying."
  const CompetentRecordLines: seq<string> := [CompetentRecord1, CompetentRecord2, CompetentRecord3]

  const ModerateBench1: string := "Final verdict: Room for improvement. Lots of room."
  const ModerateBench2: string := "Final verdict: Mediocre lineup management from a mediocre manager."
  const ModerateBench3: string := "Final verdict: Not a disaster, but nothing to brag about either."
  const ModerateBench4: string := "Final verdict: You could be better. You should be better."
  const ModerateBenchLines: seq<string> := [ModerateBench1, ModerateBench2, ModerateBench3, ModerateBench4]

  const LowBench1: string := "Final verdict: Surprisingly competent. We're almost disappointed."
  const LowBench2: string := "Final verdict: Not much to criticize. How unsatisfying."
  const LowBench3: string := "Final verdict: You actually managed your lineup well. Boring."
  const LowBench4: string := "Final verdict: Solid management. Where's the fun in that?"
  const LowBenchLines: seq<string> := [LowBench1, LowBench2, LowBench3, LowBench4]

  /** The lines of the champion and last-place buckets. */
  function StandingVerdictLines(c: VerdictCase): (r: seq<string>)
    requires c.IronicChampion? || c.CompetentChampion? || c.MessyChampion? || c.LastPlace?
    ensures |r| >= 2
  {
    match c
    case IronicChampion => IronicChampionLines
    case CompetentChampion => CompetentChampionLines
    case MessyChampion => MessyChampionLines
    case LastPlace => LastPlaceLines
  }

  /** The lines of the blown-win and bench buckets. */
  function BlunderVerdictLines(c: VerdictCase, blownWins: int, pointsPerGameFixed: string): (r: seq<string>)
    requires c.ManyBlown? || c.HugeBench? || c.BigBench? || c.LostWithBlown? || c.TwoBlown? || c.OneBlown?
    ensures |r| >= 3
  {
    match c
    case ManyBlown => ManyBlownLines(blownWins)
    case HugeBench => HugeBenchLines(pointsPerGameFixed)
    case BigBench => BigBenchLines
    case LostWithBlown => LostWithBlownLines(blownWins)
    case TwoBlown => TwoBlownLines
    case OneBlown => OneBlownLines
  }

  /** The lines of the record and bench-average buckets. */
  function RecordVerdictLines(c: VerdictCase): (r: seq<string>)
    requires c.LuckyRecord? || c.CompetentRecord? || c.ModerateBench? || c.LowBench?
    ensures |r| >= 3
  {
    match c
    case LuckyRecord => LuckyRecordLines
    case CompetentRecord => CompetentRecordLines
    case ModerateBench => ModerateBenchLines
    case LowBench => LowBenchLines
  }

  /** The lines of each bucket of getVerdict; the last bucket has the one fixed line. */
  function VerdictLines(c: VerdictCase, blownWins: int, pointsPerGameFixed: string): (r: seq<string>)
    ensures c != Average ==> |r| >= 2
    ensures c == Average ==> r == [AverageVerdict]
  {
    match c
    case IronicChampion | CompetentChampion | MessyChampion | LastPlace => StandingVerdictLines(c)
    case ManyBlown | HugeBench | BigBench | LostWithBlown | TwoBlown | OneBlown =>
      BlunderVerdictLines(c, blownWins, pointsPerGameFixed)
    case LuckyRecord | CompetentRecord | ModerateBench | LowBench => RecordVerdictLines(c)
    case Average => [AverageVerdict]
  }

  const AverageVerdict: string := "Final verdict: An average season from an average manager."

  /** The seed of the verdict: the hash of the team name followed by the season. */
  function VerdictSeed(report: ReportData): int {
    Hash(report.teamName + Decimal.IntToString(report.seasonId))
  }

  /** getVerdict; `pointsPerGameFixed` is the caller's `pointsPerGame.toFixed(1)`. */
  function Verdict(report: ReportData, pointsPerGameFixed: string): Option<string> {
    var c := VerdictCaseOf(report);
    if c == Average then Some(AverageVerdict) else PickOne(VerdictLines(c, report.blownWins, pointsPerGameFixed), VerdictSeed(report))
  }

  /** The verdict is always a line of its bucket, or the closing constant. */
  lemma VerdictDefined(report: ReportData, pointsPerGameFixed: string)
    ensures Verdict(report, pointsPerGameFixed).Some?
    ensures VerdictCaseOf(report) == Average ==> Verdict(report, pointsPerGameFixed).value == AverageVerdict
    ensures VerdictCaseOf(report) != Average ==>
      Verdict(report, pointsPerGameFixed).value in VerdictLines(VerdictCaseOf(report), report.blownWins, pointsPerGameFixed)
  {
    var c := VerdictCaseOf(report);
    if c != Average {
      PickOneMember(VerdictLines(c, report.blownWins, pointsPerGameFixed), VerdictSeed(report));
    }
  }

  // ---------------------------------------------------------------------------
  // formatRecord

  /** `${wins}-${losses}`. */
  function FormatRecord(wins: int, losses: int): string {
    Decimal.IntToString(wins) + "-" + Decimal.IntToString(losses)
  }

  /** The first '-' at or after position `from`. */
  function DashFrom(s: string, from: nat): (r: Option<nat>)
    ensures r.Some? ==> from <= r.value < |s| && s[r.value] == '-'
    ensures r.Some? ==> forall i :: from <= i < r.value ==> s[i] != '-'
    ensures r.None? ==> forall i :: from <= i < |s| ==> s[i] != '-'
    decreases |s| - from
  {
    if from >= |s| then None
    else if s[from] == '-' then Some(from)
    else DashFrom(s, from + 1)
  }

  /** Reads a record back: the first number may carry a sign, so the separator is the first '-' after position 0. */
  function ParseRecord(s: string): Option<(int, int)> {
    match DashFrom(s, 1)
    case None => None
    case Some(k) =>
      if Decimal.IsSignedDigits(s[..k]) && Decimal.IsSignedDigits(s[k + 1..])
      then Some((Decimal.ParseInt(s[..k]), Decimal.ParseInt(s[k + 1..])))
      else None
  }

  /** A formatted record reads back as the same wins and losses. */
  lemma FormatRecordRoundTrip(wins: int, losses: int)
    ensures ParseRecord(FormatRecord(wins, losses)) == Some((wins, losses))
  {
    var w := Decimal.IntToString(wins);
    var l := Decimal.IntToString(losses);
    var s := FormatRecord(wins, losses);
    assert s == w + "-" + l;
    assert |w| > 0;
    Decimal.ParseIntToString(wins);
    Decimal.ParseIntToString(losses);
    forall i | 1 <= i < |w| ensures s[i] != '-' {
      assert s[i] == w[i];
      if wins < 0 {
        assert w[1..][i - 1] == w[i];
      }
    }
    assert s[|w|] == '-';
    var d := DashFrom(s, 1);
    assert d == Some(|w|) by {
      if |w| == 1 {
        assert s[1] == '-';
      }
    }
    assert s[..|w|] == w;
    assert s[|w| + 1..] == l;
  }
}

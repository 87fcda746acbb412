/** The estimates the format picker shows next to each tournament format:
    how many matches, how long they take at six minutes each, and whether the
    current number of players is within the format's recommended size. */
module FormatEstimates {
  import opened Types
  import Text
  import Generation

  /** The picker cards; only the fields the estimates read are kept. */
  datatype FormatOption = FormatOption(format: Format, recommended: Option<int>)

  const FormatOptions: seq<FormatOption> := [
    FormatOption(League, Some(8)),
    FormatOption(Knockout, Some(16)),
    FormatOption(Champions, Some(8))
  ]

  /** Matches a format needs for `n` players: n(n-1)/2 for a league, n - 1 for
      a knockout, and for champions a group stage (N rounds of floor(N/2) for
      odd N, 3 rounds of N/2 for even N) plus 4 knockout matches, or 0 below 4
      players. */
  function GetMatchCount(format: Format, n: nat): int {
    match format
    case League => (n * (n - 1)) / 2
    case Knockout => n - 1
    case Champions =>
      if n < 4 then 0
      else
        var groupMatches := if n % 2 == 1 then (n / 2) * n else (n / 2) * 3;
        groupMatches + 4
  }

  /** `totalMinutes % 60` with JavaScript's `%`, whose result takes the sign
      of the dividend. */
  function TruncatedRemainder(a: int, d: int): int
    requires d > 0
  {
    if a >= 0 then a % d else -((-a) % d)
  }

  /** `Math.floor(totalMinutes / 60)`. */
  function Hours(matchCount: int): int {
    (matchCount * 6) / 60
  }

  function Minutes(matchCount: int): int {
    TruncatedRemainder(matchCount * 6, 60)
  }

  /** "<h>h <m>min" when there is at least one full hour, "<m>min" otherwise. */
  function GetEstimatedTime(matchCount: int): string {
    var hours := Hours(matchCount);
    var minutes := Minutes(matchCount);
    if hours > 0 then Text.IntToString(hours) + "h " + Text.IntToString(minutes) + "min"
    else Text.IntToString(minutes) + "min"
  }

  /** `!option.recommended` treats both a missing value and 0 as "no recommendation". */
  predicate IsRecommended(option: FormatOption, n: int) {
    match option.recommended
    case None => false
    case Some(rec) => rec != 0 && n <= rec
  }

  // ---------------------------------------------------------------------
  // Properties

  /** For a non-negative count the estimate splits 6 minutes per match into
      whole hours and the 0..59 minutes left over. */
  lemma EstimateSplitsMinutes(matchCount: int)
    requires matchCount >= 0
    ensures 60 * Hours(matchCount) + Minutes(matchCount) == 6 * matchCount
    ensures 0 <= Minutes(matchCount) < 60 && Hours(matchCount) >= 0
    ensures Hours(matchCount) > 0 <==> matchCount >= 10
  {
  }

  /** The text shown: the hours part appears exactly from 10 matches on, and
      the numbers in it read back as the hours and minutes. */
  lemma EstimateText(matchCount: int)
    requires matchCount >= 0
    ensures matchCount >= 10 ==>
              GetEstimatedTime(matchCount)
              == Text.NatToString(Hours(matchCount)) + "h " + Text.NatToString(Minutes(matchCount)) + "min"
    ensures matchCount < 10 ==> GetEstimatedTime(matchCount) == Text.NatToString(6 * matchCount) + "min"
    ensures Text.DecimalValue(Text.NatToString(Hours(matchCount))) * 60
            + Text.DecimalValue(Text.NatToString(Minutes(matchCount))) == 6 * matchCount
  {
    EstimateSplitsMinutes(matchCount);
    var h := Hours(matchCount);
    var m := Minutes(matchCount);
    assert Text.IntToString(h) == Text.NatToString(h);
    assert Text.IntToString(m) == Text.NatToString(m);
    Text.NatToStringRoundTrip(h);
    Text.NatToStringRoundTrip(m);
  }

  /** A knockout with no players counts -1 matches; the estimate then reads "-6min". */
  lemma EmptyKnockoutEstimate()
    ensures GetMatchCount(Knockout, 0) == -1
    ensures GetEstimatedTime(GetMatchCount(Knockout, 0)) == "-6min"
  {
    assert Hours(-1) == -1 && Minutes(-1) == -6;
    assert Text.NatToString(6) == "6";
  }

  /** League and champions cards are recommended up to 8 players, the knockout card up to 16. */
  lemma RecommendedSizes(n: int)
    ensures IsRecommended(FormatOptions[0], n) <==> n <= 8
    ensures IsRecommended(FormatOptions[1], n) <==> n <= 16
    ensures IsRecommended(FormatOptions[2], n) <==> n <= 8
    ensures forall i :: 0 <= i < |FormatOptions| ==> (IsRecommended(FormatOptions[i], n) ==> n <= 16)
  {
  }

  /** An option with no recommendation, or a recommendation of 0, is never recommended. */
  lemma NoRecommendationNeverRecommended(option: FormatOption, n: int)
    requires option.recommended == None || option.recommended == Some(0)
    ensures !IsRecommended(option, n)
  {
  }

  /** Recommendation is downward closed: fewer players stay recommended. */
  lemma RecommendedMonotone(option: FormatOption, n: int, m: int)
    requires m <= n && IsRecommended(option, n)
    ensures IsRecommended(option, m)
  {
  }

  // ---------------------------------------------------------------------
  // The counts against the generated schedules

  /** The league estimate is the number of matches the league generator creates. */
  lemma LeagueCountMatchesSchedule(ps: seq<Player>)
    ensures GetMatchCount(League, |ps|) == |Generation.LeagueFixtures(ps)|
  {
    Generation.LeagueSchedule(ps);
  }

  /** From 4 players on, the champions estimate is the number of matches generated. */
  lemma ChampionsCountMatchesSchedule(sh: seq<Player>, pick: (nat, nat) -> nat, now: Time)
    requires |sh| >= 4
    ensures GetMatchCount(Champions, |sh|) == |Generation.ChampionsFixtures(sh, pick, now)|
  {
    Generation.ChampionsMatchCount(sh, pick, now);
    var n := |sh|;
    GroupCountsAgree(Generation.GroupRounds(n), n / 2, n, n % 2 == 1);
  }

  lemma GroupCountsAgree(g: int, h: int, n: int, odd: bool)
    requires g == if odd then n else 3
    ensures g * h == if odd then h * n else h * 3
  {
  }

  /** With 2 or 3 players the champions card estimates 0 matches, while the
      generator still creates 3 group matches and the 4 knockout matches. */
  lemma ChampionsEstimateBelowFour(sh: seq<Player>, pick: (nat, nat) -> nat, now: Time)
    requires 2 <= |sh| <= 3
    ensures GetMatchCount(Champions, |sh|) == 0
    ensures |Generation.ChampionsFixtures(sh, pick, now)| == 7
  {
    Generation.ChampionsMatchCount(sh, pick, now);
  }

  lemma {:induction false} CeilLog2OfPower(k: nat)
    ensures Generation.CeilLog2(Generation.Pow2(k)) == k
  {
    if k > 0 {
      CeilLog2OfPower(k - 1);
      assert (Generation.Pow2(k) + 1) / 2 == Generation.Pow2(k - 1);
    }
  }

  lemma {:induction false} PlaceholderTotal(round: int, j: nat, now: Time)
    ensures |Generation.PlaceholderRounds(round, round + j - 1, Generation.Pow2(j), now)| == Generation.Pow2(j) - 1
    decreases j
  {
    if j > 0 {
      assert Generation.Pow2(j) / 2 == Generation.Pow2(j - 1);
      PlaceholderTotal(round + 1, j - 1, now);
      assert (round + 1) + (j - 1) - 1 == round + j - 1;
    }
  }

  /** For a power-of-two number of players the knockout estimate N - 1 is the
      number of matches generated. */
  lemma KnockoutCountMatchesPowerOfTwo(sh: seq<Player>, k: nat, now: Time)
    requires |sh| == Generation.Pow2(k)
    ensures GetMatchCount(Knockout, |sh|) == |Generation.KnockoutFixtures(sh, now)|
  {
    CeilLog2OfPower(k);
    if k > 0 {
      assert (|sh| + 1) / 2 == Generation.Pow2(k - 1) && |sh| / 2 == Generation.Pow2(k - 1);
      PlaceholderTotal(2, k - 1, now);
    } else {
      assert Generation.PlaceholderRounds(2, 0, 1, now) == [];
    }
  }

  /** Otherwise the two can differ: with 5 players the generator creates 3
      matches (2 in round 1, 1 placeholder in round 2, none in round 3), the
      estimate says 4. */
  lemma KnockoutFivePlayersShort(sh: seq<Player>, now: Time)
    requires |sh| == 5
    ensures |Generation.KnockoutFixtures(sh, now)| == 3
    ensures GetMatchCount(Knockout, |sh|) == 4
  {
    assert Generation.CeilLog2(5) == 3 by {
      assert Generation.CeilLog2(2) == 1;
      assert Generation.CeilLog2(3) == 2;
    }
    var tbd := Generation.TbdPlayer(now);
    assert Generation.PlaceholderRounds(4, 3, 0, now) == [];
    assert Generation.PlaceholderRounds(3, 3, 1, now) == [];
    assert |Generation.PlaceholderRounds(2, 3, 3, now)| == 1;
  }
}

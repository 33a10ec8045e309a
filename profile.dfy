/** The statistics of the player profile view (components/Profile.tsx):
    average and best score, the newest-first round list, and the handicap
    and trend wiring. "N/A" is `None`; the trend is computed as of a given
    six-months-ago day. */
module Profile {
  import opened Common
  import opened Types
  import opened Numeric
  import opened Handicap
  import opened RoundLists

  function Scores(rounds: seq<Round>): (xs: seq<real>)
    ensures |xs| == |rounds|
    ensures forall i :: 0 <= i < |rounds| ==> xs[i] == rounds[i].score as real
  {
    seq(|rounds|, i requires 0 <= i < |rounds| => rounds[i].score as real)
  }

  /** `averageScore`: "N/A" without rounds, otherwise the mean score as
      `toFixed(1)` shows it. */
  function AverageScore(rounds: seq<Round>): (a: Option<real>)
    ensures a.None? <==> rounds == []
    ensures a.Some? ==> IsTenths(a.value)
    ensures a.Some? && Mean(Scores(rounds)) >= 0.0 ==> -0.05 < a.value - Mean(Scores(rounds)) <= 0.05
    ensures a.Some? && Mean(Scores(rounds)) < 0.0 ==> -0.05 <= a.value - Mean(Scores(rounds)) < 0.05
  {
    if |rounds| == 0 then None else Some(ToFixed1(Mean(Scores(rounds))))
  }

  /** The shown average lies between the best and the worst score. */
  lemma AverageWithinScores(rounds: seq<Round>)
    requires rounds != []
    ensures AverageScore(rounds).Some?
    ensures BestScore(rounds).Some?
    ensures BestScore(rounds).value as real <= AverageScore(rounds).value <= WorstScore(rounds) as real
  {
    var lo := MinScore(rounds);
    var hi := WorstScore(rounds);
    MeanBounds(Scores(rounds), lo as real, hi as real);
    ToFixed1BetweenIntegers(Mean(Scores(rounds)), lo, hi);
  }

  /** `Math.min` over the scores of a non-empty list. */
  function MinScore(rounds: seq<Round>): (m: int)
    requires rounds != []
    ensures forall i :: 0 <= i < |rounds| ==> m <= rounds[i].score
    ensures exists i :: 0 <= i < |rounds| && m == rounds[i].score
  {
    if |rounds| == 1 then rounds[0].score
    else
      var rest := MinScore(rounds[1..]);
      assert forall i :: 1 <= i < |rounds| ==> rounds[i] == rounds[1..][i - 1];
      if rest <= rounds[0].score then rest else rounds[0].score
  }

  /** The highest score, the upper counterpart of `MinScore`. */
  function WorstScore(rounds: seq<Round>): (m: int)
    requires rounds != []
    ensures forall i :: 0 <= i < |rounds| ==> rounds[i].score <= m
    ensures exists i :: 0 <= i < |rounds| && m == rounds[i].score
  {
    if |rounds| == 1 then rounds[0].score
    else
      var rest := WorstScore(rounds[1..]);
      assert forall i :: 1 <= i < |rounds| ==> rounds[i] == rounds[1..][i - 1];
      if rounds[0].score <= rest then rest else rounds[0].score
  }

  /** `bestScore`: "N/A" without rounds, otherwise the lowest score, which
      is no more than any round's score and is some round's score. */
  function BestScore(rounds: seq<Round>): (b: Option<int>)
    ensures b.None? <==> rounds == []
    ensures b.Some? ==> forall i :: 0 <= i < |rounds| ==> b.value <= rounds[i].score
    ensures b.Some? ==> exists i :: 0 <= i < |rounds| && b.value == rounds[i].score
  {
    if |rounds| == 0 then None else Some(MinScore(rounds))
  }

  datatype ProfileView = ProfileView(
    handicap: real,
    history: seq<HandicapHistory>,
    sortedRounds: seq<Round>,
    averageScore: Option<real>,
    bestScore: Option<int>,
    roundsLabel: string,
    homeCourse: string)

  /** Everything the profile shows for a player and their rounds. */
  function ProfileOf(player: Player, rounds: seq<Round>, sixMonthsAgo: int): (v: ProfileView)
    requires NonZeroSlopes(rounds)
    ensures v.handicap == CalculateHandicap(rounds)
    ensures v.history == HandicapHistoryOf(rounds, sixMonthsAgo)
    ensures |rounds| < 3 ==> v.handicap == 0.0 && v.history == []
    ensures |v.sortedRounds| == |rounds| && multiset(v.sortedRounds) == multiset(rounds)
    ensures forall i, j :: 0 <= i < j < |v.sortedRounds| ==> v.sortedRounds[i].date >= v.sortedRounds[j].date
    ensures v.roundsLabel == "round" <==> |rounds| == 1
    ensures Truthy(player.favoriteCourse) ==> v.homeCourse == player.favoriteCourse.value
    ensures !Truthy(player.favoriteCourse) ==> v.homeCourse == "Not set"
    ensures v.averageScore == AverageScore(rounds) && v.bestScore == BestScore(rounds)
  {
    ProfileView(
      CalculateHandicap(rounds),
      HandicapHistoryOf(rounds, sixMonthsAgo),
      NewestFirst(rounds),
      AverageScore(rounds),
      BestScore(rounds),
      RoundsWord(|rounds|),
      OrElse(if player.favoriteCourse.Some? then player.favoriteCourse.value else "", "Not set"))
  }
}

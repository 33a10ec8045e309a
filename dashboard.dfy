/** The dashboard's round statistics (components/Dashboard.tsx): rounds in
    the current year, the ten most recent rounds, the "View All" condition
    and the handicap card. The current year and the calendar year of a day
    are parameters. */
module Dashboard {
  import opened Types
  import opened Sequences
  import opened Handicap
  import opened RoundLists

  predicate InYear(yearOf: int -> int, year: int, r: Round)
  {
    yearOf(r.date) == year
  }

  /** The rounds played in the given calendar year. */
  function RoundsInYear(rounds: seq<Round>, currentYear: int, yearOf: int -> int): (rs: seq<Round>)
    ensures forall i :: 0 <= i < |rs| ==> yearOf(rs[i].date) == currentYear
    ensures forall r :: multiset(rs)[r] == if yearOf(r.date) == currentYear then multiset(rounds)[r] else 0
  {
    Filter(rounds, r => InYear(yearOf, currentYear, r))
  }

  /** `roundsThisYear`: how many rounds fall in the current year; all of them
      exactly when every round does, none exactly when no round does. */
  function RoundsThisYear(rounds: seq<Round>, currentYear: int, yearOf: int -> int): (n: nat)
    ensures n <= |rounds|
    ensures n == |RoundsInYear(rounds, currentYear, yearOf)|
    ensures n == |rounds| <==> forall i :: 0 <= i < |rounds| ==> yearOf(rounds[i].date) == currentYear
    ensures n == 0 <==> forall i :: 0 <= i < |rounds| ==> yearOf(rounds[i].date) != currentYear
  {
    AllInYearIff(rounds, currentYear, yearOf);
    NoneInYearIff(rounds, currentYear, yearOf);
    |RoundsInYear(rounds, currentYear, yearOf)|
  }

  /** Every round is kept exactly when every round was played in the year. */
  lemma AllInYearIff(rounds: seq<Round>, currentYear: int, yearOf: int -> int)
    ensures |RoundsInYear(rounds, currentYear, yearOf)| == |rounds|
      <==> forall i :: 0 <= i < |rounds| ==> yearOf(rounds[i].date) == currentYear
  {
    var keep := r => InYear(yearOf, currentYear, r);
    FilterKeepsAllIff(rounds, keep);
    assert (forall i :: 0 <= i < |rounds| ==> keep(rounds[i]))
      <==> forall i :: 0 <= i < |rounds| ==> yearOf(rounds[i].date) == currentYear;
  }

  /** No round is kept exactly when no round was played in the year. */
  lemma NoneInYearIff(rounds: seq<Round>, currentYear: int, yearOf: int -> int)
    ensures |RoundsInYear(rounds, currentYear, yearOf)| == 0
      <==> forall i :: 0 <= i < |rounds| ==> yearOf(rounds[i].date) != currentYear
  {
    var keep := r => InYear(yearOf, currentYear, r);
    FilterKeepsNoneIff(rounds, keep);
    assert (forall i :: 0 <= i < |rounds| ==> !keep(rounds[i]))
      <==> forall i :: 0 <= i < |rounds| ==> yearOf(rounds[i].date) != currentYear;
  }

  const RecentLimit: nat := 10

  /** `recentRounds`: the first ten rounds of the newest-first list. */
  function RecentRounds(rounds: seq<Round>): (recent: seq<Round>)
    ensures |recent| == if |rounds| < RecentLimit then |rounds| else RecentLimit
    ensures forall i, j :: 0 <= i < j < |recent| ==> recent[i].date >= recent[j].date
  {
    var sorted := NewestFirst(rounds);
    sorted[..if |sorted| < RecentLimit then |sorted| else RecentLimit]
  }

  /** The recent rounds are taken from the rounds, and no round left out is
      newer than one shown. */
  lemma RecentRoundsAreNewest(rounds: seq<Round>)
    ensures multiset(RecentRounds(rounds)) <= multiset(rounds)
    ensures forall x, i :: x in multiset(rounds) - multiset(RecentRounds(rounds)) && 0 <= i < |RecentRounds(rounds)| ==>
      x.date <= RecentRounds(rounds)[i].date
  {
    var sorted := NewestFirst(rounds);
    PrefixHoldsNewest(sorted, |RecentRounds(rounds)|);
  }

  /** Cutting a newest-first list after `k` rounds leaves out only rounds no
      newer than any kept one. */
  lemma PrefixHoldsNewest(sorted: seq<Round>, k: nat)
    requires k <= |sorted|
    requires forall i, j :: 0 <= i < j < |sorted| ==> sorted[i].date >= sorted[j].date
    ensures multiset(sorted[..k]) <= multiset(sorted)
    ensures forall x, i :: x in multiset(sorted) - multiset(sorted[..k]) && 0 <= i < k ==>
      x.date <= sorted[i].date
  {
    var recent := sorted[..k];
    assert sorted == recent + sorted[k..];
    assert multiset(sorted) == multiset(recent) + multiset(sorted[k..]);
    forall x, i | x in multiset(sorted) - multiset(recent) && 0 <= i < k
      ensures x.date <= sorted[i].date
    {
      assert x in multiset(sorted[k..]);
      var j :| 0 <= j < |sorted[k..]| && sorted[k..][j] == x;
      assert sorted[k + j] == x;
    }
  }

  /** "View All" is offered exactly when the recent list leaves rounds out. */
  function ShowViewAll(rounds: seq<Round>): (b: bool)
    ensures b <==> |RecentRounds(rounds)| < |rounds|
  {
    |rounds| > 10
  }

  /** The handicap card: the index of all the player's rounds, with its
      "Based on n round(s)" subtitle. */
  function HandicapCard(rounds: seq<Round>): (card: (real, string))
    requires NonZeroSlopes(rounds)
    ensures card.0 == CalculateHandicap(rounds)
    ensures |rounds| < 3 ==> card.0 == 0.0
    ensures card.1 == "round" <==> |rounds| == 1
  {
    (CalculateHandicap(rounds), RoundsWord(|rounds|))
  }
}

/** The handicap engine of lib/handicap.ts: per-round differentials, the
    Handicap Index (the mean of the best differentials, scaled by 0.96 and
    rounded to one decimal), and the six-month trend of the index. */
module Handicap {
  import opened Types
  import opened Numeric
  import opened Sequences

  /** The standard slope rating every differential is normalised to. */
  const StandardSlope: real := 113.0
  /** The multiplier applied to the averaged best differentials. */
  const Adjustment: real := 0.96
  /** Below this many rounds no index is published. */
  const MinRounds: nat := 3

  /** Every round can be divided by its slope. */
  predicate NonZeroSlopes(rounds: seq<Round>)
  {
    forall i :: 0 <= i < |rounds| ==> rounds[i].slope != 0
  }

  /** `(score - rating) * 113 / slope`, the same expression `calculateHandicap`
      applies to every round. */
  function Differential(r: Round): (d: real)
    requires r.slope != 0
    ensures d * r.slope as real == (r.score as real - r.rating) * StandardSlope
  {
    (r.score as real - r.rating) * StandardSlope / r.slope as real
  }

  /** A round played to the course rating has differential 0; on a positive
      slope the differential has the sign of score minus rating. */
  lemma DifferentialSign(r: Round)
    requires r.slope != 0
    ensures r.score as real == r.rating ==> Differential(r) == 0.0
    ensures r.slope > 0 ==> (Differential(r) > 0.0 <==> r.score as real > r.rating)
    ensures r.slope > 0 ==> (Differential(r) < 0.0 <==> r.score as real < r.rating)
  {
    var over := r.score as real - r.rating;
    if r.slope > 0 {
      QuotientSign(over * StandardSlope, r.slope as real);
    }
  }

  lemma QuotientSign(a: real, b: real)
    requires b > 0.0
    ensures a / b > 0.0 <==> a > 0.0
    ensures a / b < 0.0 <==> a < 0.0
  {
    assert a == (a / b) * b;
  }

  /** `rounds.map(differential)`. */
  function Differentials(rounds: seq<Round>): (ds: seq<real>)
    requires NonZeroSlopes(rounds)
    ensures |ds| == |rounds|
    ensures forall i :: 0 <= i < |rounds| ==> ds[i] == Differential(rounds[i])
  {
    seq(|rounds|, i requires 0 <= i < |rounds| => Differential(rounds[i]))
  }

  /** How many of the lowest differentials are averaged for `n` rounds; 0 means
      that no index is published. */
  function NumToUse(n: nat): (k: nat)
    ensures n < MinRounds <==> k == 0
    ensures n >= MinRounds ==> 1 <= k <= 8 && k <= n
    ensures n >= 20 ==> k == 8
  {
    if n >= 20 then 8
    else if n == 19 then 7
    else if n == 18 then 6
    else if n >= 15 then 5
    else if n >= 12 then 4
    else if n >= 9 then 3
    else if n >= 6 then 2
    else if n >= 3 then 1
    else 0
  }

  /** More rounds never means fewer averaged differentials. */
  lemma NumToUseMonotone(m: nat, n: nat)
    requires m <= n
    ensures NumToUse(m) <= NumToUse(n)
  {
  }

  /** The differentials in ascending order (`[...diffs].sort((a, b) => a - b)`). */
  function SortedDifferentials(rounds: seq<Round>): (s: seq<real>)
    requires NonZeroSlopes(rounds)
    ensures |s| == |rounds|
    ensures multiset(s) == multiset(Differentials(rounds))
    ensures SortedBy(s, RealLe)
  {
    RealLeIsTotalPreorder();
    Sort(Differentials(rounds), RealLe)
  }

  /** The `NumToUse(n)` lowest differentials, in ascending order and drawn
      from the differentials; `BestDifferentialsLowest` shows that none of
      them is above a differential left out. */
  function BestDifferentials(rounds: seq<Round>): (best: seq<real>)
    requires NonZeroSlopes(rounds)
    ensures |best| == NumToUse(|rounds|)
    ensures SortedBy(best, RealLe)
    ensures multiset(best) <= multiset(Differentials(rounds))
  {
    var sorted := SortedDifferentials(rounds);
    var k := NumToUse(|rounds|);
    LowestOfSorted(Differentials(rounds), sorted, k);
    sorted[..k]
  }

  /** The first `k` values of an ascending rearrangement of `ds` are `k`
      lowest values of `ds`. */
  lemma LowestOfSorted(ds: seq<real>, sorted: seq<real>, k: nat)
    requires SortedBy(sorted, RealLe) && multiset(sorted) == multiset(ds) && k <= |sorted|
    ensures SortedBy(sorted[..k], RealLe)
    ensures multiset(sorted[..k]) <= multiset(ds)
    ensures forall x, y :: x in multiset(sorted[..k]) && y in multiset(ds) - multiset(sorted[..k]) ==> x <= y
  {
    SortedPrefixSmallest(sorted, k, RealLe);
  }

  /** The kept differentials are the lowest ones: each is at most every
      differential left out. */
  lemma BestDifferentialsLowest(rounds: seq<Round>)
    requires NonZeroSlopes(rounds)
    ensures var best := BestDifferentials(rounds);
      forall x, y :: x in multiset(best) && y in multiset(Differentials(rounds)) - multiset(best) ==> x <= y
  {
    LowestOfSorted(Differentials(rounds), SortedDifferentials(rounds), NumToUse(|rounds|));
  }

  /** Every round was played at or over the course rating, on a positive
      slope. */
  predicate AtOrOverRating(rounds: seq<Round>)
  {
    forall i :: 0 <= i < |rounds| ==> rounds[i].slope > 0 && rounds[i].score as real >= rounds[i].rating
  }

  /** The index before rounding: 0.96 times the mean of the best differentials.
      It is negative (a plus handicap) only if some round beat the rating. */
  function UnroundedIndex(rounds: seq<Round>): (u: real)
    requires NonZeroSlopes(rounds)
    requires |rounds| >= MinRounds
    ensures AtOrOverRating(rounds) ==> u >= 0.0
  {
    var best := BestDifferentials(rounds);
    if AtOrOverRating(rounds) then
      BestNotNegative(rounds);
      MeanBounds(best, 0.0, MaxOf(best));
      Mean(best) * Adjustment
    else
      Mean(best) * Adjustment
  }

  /** Rounds at or over the rating keep only non-negative differentials. */
  lemma BestNotNegative(rounds: seq<Round>)
    requires NonZeroSlopes(rounds) && |rounds| >= MinRounds
    requires AtOrOverRating(rounds)
    ensures var best := BestDifferentials(rounds);
      forall i :: 0 <= i < |best| ==> 0.0 <= best[i] <= MaxOf(best)
  {
    var best := BestDifferentials(rounds);
    var ds := Differentials(rounds);
    forall i | 0 <= i < |best|
      ensures 0.0 <= best[i]
    {
      assert best[i] in multiset(ds);
      var j :| 0 <= j < |ds| && ds[j] == best[i];
      DifferentialSign(rounds[j]);
    }
  }

  /** `calculateHandicap`: 0 below three rounds, otherwise the unrounded index
      rounded with `toFixed(1)`. */
  function CalculateHandicap(rounds: seq<Round>): (h: real)
    requires NonZeroSlopes(rounds)
    ensures |rounds| < MinRounds ==> h == 0.0
    ensures IsTenths(h)
    ensures |rounds| >= MinRounds && UnroundedIndex(rounds) >= 0.0 ==> -0.05 < h - UnroundedIndex(rounds) <= 0.05
    ensures |rounds| >= MinRounds && UnroundedIndex(rounds) < 0.0 ==> -0.05 <= h - UnroundedIndex(rounds) < 0.05
  {
    if |rounds| == 0 then 0.0
    else if NumToUse(|rounds|) == 0 then 0.0
    else ToFixed1(UnroundedIndex(rounds))
  }

  /** Taking one round out of the list takes its differential out of the
      differentials. */
  lemma DifferentialsRemoveAt(b: seq<Round>, j: nat)
    requires NonZeroSlopes(b) && j < |b|
    ensures NonZeroSlopes(b[..j] + b[j + 1..])
    ensures multiset(Differentials(b))
         == multiset(Differentials(b[..j] + b[j + 1..])) + multiset{Differential(b[j])}
  {
    var rest := b[..j] + b[j + 1..];
    assert forall i :: 0 <= i < |rest| ==> rest[i] == if i < j then b[i] else b[i + 1];
    var d := Differentials(b);
    assert Differentials(rest) == d[..j] + d[j + 1..];
    MultisetRemoveAt(d, j);
  }

  /** A rearrangement of rounds with usable slopes has usable slopes. */
  lemma NonZeroSlopesPermutation(a: seq<Round>, b: seq<Round>)
    requires NonZeroSlopes(a)
    requires multiset(a) == multiset(b)
    ensures NonZeroSlopes(b)
  {
    forall i | 0 <= i < |b| ensures b[i].slope != 0 {
      assert b[i] in multiset(a);
    }
  }

  /** Matching the first round of `a` with an equal round at `j` in its
      rearrangement `b` takes the same differential out of both. */
  lemma DifferentialsPeel(a: seq<Round>, b: seq<Round>, j: nat)
    requires NonZeroSlopes(a) && NonZeroSlopes(b)
    requires multiset(a) == multiset(b)
    requires a != [] && j < |b| && b[j] == a[0]
    ensures NonZeroSlopes(a[1..]) && NonZeroSlopes(b[..j] + b[j + 1..])
    ensures multiset(a[1..]) == multiset(b[..j] + b[j + 1..])
    ensures multiset(Differentials(a)) == multiset(Differentials(a[1..])) + multiset{Differential(a[0])}
    ensures multiset(Differentials(b))
         == multiset(Differentials(b[..j] + b[j + 1..])) + multiset{Differential(a[0])}
  {
    var rest := b[..j] + b[j + 1..];
    DifferentialsRemoveAt(b, j);
    PermutationPeel(a, b, j);
    NonZeroSlopesPermutation(rest, a[1..]);
    DifferentialsCons(a);
  }

  /** The differentials of a non-empty list: its first round's, then the rest's. */
  lemma DifferentialsCons(a: seq<Round>)
    requires NonZeroSlopes(a) && a != []
    ensures NonZeroSlopes(a[1..])
    ensures Differentials(a) == [Differential(a[0])] + Differentials(a[1..])
  {
    assert forall i :: 0 <= i < |a| - 1 ==> a[1..][i] == a[i + 1];
  }

  /** Rearranging the rounds rearranges their differentials the same way. */
  lemma {:induction false} DifferentialsPermutation(a: seq<Round>, b: seq<Round>)
    requires NonZeroSlopes(a)
    requires multiset(a) == multiset(b)
    ensures NonZeroSlopes(b)
    ensures multiset(Differentials(a)) == multiset(Differentials(b))
  {
    NonZeroSlopesPermutation(a, b);
    if a != [] {
      assert a[0] in multiset(b);
      var j :| 0 <= j < |b| && b[j] == a[0];
      DifferentialsPeel(a, b, j);
      DifferentialsPermutation(a[1..], b[..j] + b[j + 1..]);
    }
  }

  /** The index does not depend on the order in which the rounds are given:
      the differentials are sorted before the best ones are taken. */
  lemma HandicapPermutationInvariant(a: seq<Round>, b: seq<Round>)
    requires NonZeroSlopes(a)
    requires multiset(a) == multiset(b)
    ensures NonZeroSlopes(b)
    ensures CalculateHandicap(a) == CalculateHandicap(b)
  {
    DifferentialsPermutation(a, b);
    assert |a| == |b| by {
      assert |a| == |multiset(a)| == |multiset(b)| == |b|;
    }
    if |a| >= MinRounds {
      assert BestDifferentials(a) == BestDifferentials(b) by {
        SortedRealsUnique(SortedDifferentials(a), SortedDifferentials(b));
      }
      HandicapOfSameBest(a, b);
    }
  }

  /** Before rounding, the index lies between 0.96 times the lowest and 0.96
      times the highest differential; rounding moves it by at most 0.05. */
  lemma HandicapBounds(rounds: seq<Round>)
    requires NonZeroSlopes(rounds)
    requires |rounds| >= MinRounds
    ensures Adjustment * MinOf(Differentials(rounds)) <= UnroundedIndex(rounds)
    ensures UnroundedIndex(rounds) <= Adjustment * MaxOf(Differentials(rounds))
    ensures Adjustment * MinOf(Differentials(rounds)) - 0.05 <= CalculateHandicap(rounds)
    ensures CalculateHandicap(rounds) <= Adjustment * MaxOf(Differentials(rounds)) + 0.05
  {
    var ds := Differentials(rounds);
    var lo, hi := MinOf(ds), MaxOf(ds);
    var sorted := SortedDifferentials(rounds);
    var best := BestDifferentials(rounds);
    forall i | 0 <= i < |best|
      ensures lo <= best[i] <= hi
    {
      assert best[i] == sorted[i];
      assert sorted[i] in multiset(ds);
    }
    MeanBounds(best, lo, hi);
  }

  /** Inserting a value no smaller than the k-th element of an ascending
      sequence leaves its first k elements as they were. */
  lemma {:induction false} InsertKeepsPrefix(d: real, s: seq<real>, k: nat)
    requires SortedBy(s, RealLe)
    requires 1 <= k <= |s| && s[k - 1] <= d
    ensures Insert(d, s, RealLe)[..k] == s[..k]
  {
    if RealLe(d, s[0]) {
      assert forall i :: 0 <= i < k ==> s[i] == d by {
        forall i | 0 <= i < k ensures s[i] == d {
          assert i == 0 || RealLe(s[0], s[i]);
          assert i == k - 1 || RealLe(s[i], s[k - 1]);
        }
      }
      assert Insert(d, s, RealLe)[..k] == [d] + s[..k - 1];
    } else if k > 1 {
      assert SortedBy(s[1..], RealLe);
      InsertKeepsPrefix(d, s[1..], k - 1);
      assert s[..k] == [s[0]] + s[1..][..k - 1];
    }
  }

  /** With twenty or more rounds, adding a round whose differential is not
      below the current eighth-lowest one does not change the index. */
  lemma HandicapIgnoresWorseRound(rounds: seq<Round>, r: Round)
    requires NonZeroSlopes(rounds) && r.slope != 0
    requires |rounds| >= 20
    requires Differential(r) >= SortedDifferentials(rounds)[7]
    ensures NonZeroSlopes(rounds + [r])
    ensures CalculateHandicap(rounds + [r]) == CalculateHandicap(rounds)
  {
    var more := rounds + [r];
    SortedDifferentialsAppend(rounds, r);
    assert BestDifferentials(more) == BestDifferentials(rounds) by {
      InsertKeepsPrefix(Differential(r), SortedDifferentials(rounds), 8);
      assert BestDifferentials(more) == SortedDifferentials(more)[..8];
    }
    HandicapOfSameBest(more, rounds);
  }

  /** Two lists of at least three rounds with the same best differentials
      have the same index. */
  lemma HandicapOfSameBest(a: seq<Round>, b: seq<Round>)
    requires NonZeroSlopes(a) && NonZeroSlopes(b)
    requires |a| >= MinRounds && |b| >= MinRounds
    requires BestDifferentials(a) == BestDifferentials(b)
    ensures CalculateHandicap(a) == CalculateHandicap(b)
  {
    assert UnroundedIndex(a) == UnroundedIndex(b);
  }

  /** Adding a round inserts its differential into the sorted differentials. */
  lemma SortedDifferentialsAppend(rounds: seq<Round>, r: Round)
    requires NonZeroSlopes(rounds) && r.slope != 0
    ensures NonZeroSlopes(rounds + [r])
    ensures SortedDifferentials(rounds + [r])
         == Insert(Differential(r), SortedDifferentials(rounds), RealLe)
  {
    var more := rounds + [r];
    assert NonZeroSlopes(more) by {
      forall i | 0 <= i < |more| ensures more[i].slope != 0 {
        if i < |rounds| { assert more[i] == rounds[i]; }
      }
    }
    var d := Differential(r);
    assert multiset(Differentials(more)) == multiset(Differentials(rounds)) + multiset{d} by {
      assert Differentials(more) == Differentials(rounds) + [d];
    }
    var s := SortedDifferentials(rounds);
    RealLeIsTotalPreorder();
    InsertSorted(d, s, RealLe);
    SortedRealsUnique(Insert(d, s, RealLe), SortedDifferentials(more));
  }

  /** Sorting three differentials of which the last is the lowest. */
  lemma SortThree(a: real, b: real, c: real)
    requires c < a < b
    ensures TotalPreorder(RealLe)
    ensures Sort([a, b, c], RealLe) == [c, a, b]
  {
    RealLeIsTotalPreorder();
    var sorted := [c, a, b];
    assert SortedBy(sorted, RealLe);
    assert multiset(sorted) == multiset([a, b, c]);
    SortedRealsUnique(Sort([a, b, c], RealLe), sorted);
  }

  /** A round at rating 72.5 and slope 130 with the given score. */
  function SampleRound(score: int): Round
  {
    Round("", "", 0, "", "", 72.5, 130, score, Common.None)
  }

  /** Rounds of 85 and 90 at rating 72.5, slope 130 publish no index. With a
      third round of 80 the third differential is 847.5 / 130 = 6.519..., the
      lowest of the three; 0.96 times it is 6.258..., and the index is 6.3. */
  lemma ThreeRoundExample()
    ensures CalculateHandicap([SampleRound(85), SampleRound(90)]) == 0.0
    ensures CalculateHandicap([SampleRound(85), SampleRound(90), SampleRound(80)]) == 6.3
  {
    var rounds := [SampleRound(85), SampleRound(90), SampleRound(80)];
    assert NonZeroSlopes(rounds);
    var x := 847.5 / 130.0 * Adjustment;
    assert Differential(rounds[0]) == 1412.5 / 130.0;
    assert Differential(rounds[1]) == 1977.5 / 130.0;
    assert Differential(rounds[2]) == 847.5 / 130.0;
    ThreeRoundBest(rounds);
    assert UnroundedIndex(rounds) == x;
    ExampleRounding();
    assert CalculateHandicap(rounds) == ToFixed1(x);
  }

  /** 0.96 times 847.5 / 130 is 6.258..., which `toFixed(1)` shows as 6.3. */
  lemma ExampleRounding()
    ensures ToFixed1(847.5 / 130.0 * Adjustment) == 6.3
  {
    var x := 847.5 / 130.0 * Adjustment;
    assert (x * 10.0 + 0.5).Floor == 63;
  }

  /** With three rounds the index comes from the lowest differential alone. */
  lemma ThreeRoundBest(rounds: seq<Round>)
    requires NonZeroSlopes(rounds) && |rounds| == 3
    requires Differential(rounds[2]) < Differential(rounds[0]) < Differential(rounds[1])
    ensures UnroundedIndex(rounds) == Differential(rounds[2]) * Adjustment
  {
    var c := Differential(rounds[2]);
    ThreeRoundSorted(rounds);
    assert BestDifferentials(rounds) == SortedDifferentials(rounds)[..1] == [c];
    MeanOfOne(c);
  }

  /** Three rounds whose last has the lowest differential sort it to the front. */
  lemma ThreeRoundSorted(rounds: seq<Round>)
    requires NonZeroSlopes(rounds) && |rounds| == 3
    requires Differential(rounds[2]) < Differential(rounds[0]) < Differential(rounds[1])
    ensures SortedDifferentials(rounds)
         == [Differential(rounds[2]), Differential(rounds[0]), Differential(rounds[1])]
  {
    var a, b, c := Differential(rounds[0]), Differential(rounds[1]), Differential(rounds[2]);
    assert Differentials(rounds) == [a, b, c];
    SortThree(a, b, c);
  }

  /** The comparator of `calculateHandicapHistory`'s sort: older first. */
  predicate OlderOrSame(a: Round, b: Round)
  {
    a.date <= b.date
  }

  lemma OlderOrSameIsTotalPreorder()
    ensures TotalPreorder(OlderOrSame)
  {
  }

  /** The rounds in chronological order (a stable sort on a copy). */
  function Chronological(rounds: seq<Round>): (sorted: seq<Round>)
    ensures multiset(sorted) == multiset(rounds)
    ensures |sorted| == |rounds|
    ensures SortedBy(sorted, OlderOrSame)
  {
    OlderOrSameIsTotalPreorder();
    Sort(rounds, OlderOrSame)
  }

  /** A prefix of rounds with usable slopes has usable slopes. */
  lemma NonZeroSlopesPrefix(rounds: seq<Round>, n: nat)
    requires NonZeroSlopes(rounds) && n <= |rounds|
    ensures NonZeroSlopes(rounds[..n])
  {
    assert forall i :: 0 <= i < n ==> rounds[..n][i] == rounds[i];
  }

  /** The index after each of the first `n` rounds of the list: element `i`
      is the index of the first `i + 1` rounds. */
  function RunningHandicaps(sorted: seq<Round>, n: nat): (indices: seq<real>)
    requires NonZeroSlopes(sorted) && n <= |sorted|
    ensures |indices| == n
  {
    if n == 0 then []
    else
      NonZeroSlopesPrefix(sorted, n);
      RunningHandicaps(sorted, n - 1) + [CalculateHandicap(sorted[..n])]
  }

  /** Element `i` of the running indices is the index of the first `i + 1`
      rounds, however many rounds the running list covers. */
  lemma {:induction false} RunningHandicapsAt(sorted: seq<Round>, n: nat, i: nat)
    requires NonZeroSlopes(sorted) && i < n <= |sorted|
    ensures NonZeroSlopes(sorted[..i + 1])
    ensures RunningHandicaps(sorted, n)[i] == CalculateHandicap(sorted[..i + 1])
  {
    NonZeroSlopesPrefix(sorted, i + 1);
    NonZeroSlopesPrefix(sorted, n);
    var prev := RunningHandicaps(sorted, n - 1);
    var last := CalculateHandicap(sorted[..n]);
    assert RunningHandicaps(sorted, n) == prev + [last];
    if i < n - 1 {
      RunningHandicapsAt(sorted, n - 1, i);
      assert (prev + [last])[i] == prev[i];
    } else {
      assert sorted[..n] == sorted[..i + 1];
    }
  }

  /** The trend point emitted for the round at position `i` of the
      chronological list, if any: only rounds on or after the cutoff, and only
      once the prefix holds at least three rounds. `indices[i]` stands for the
      index of the first `i + 1` rounds. */
  function PointAt(sorted: seq<Round>, cutoff: int, indices: seq<real>, i: nat): seq<HandicapHistory>
    requires i < |sorted| == |indices|
  {
    if sorted[i].date >= cutoff && i + 1 >= MinRounds then
      [HandicapHistory(sorted[i].date, indices[i], i + 1)]
    else []
  }

  /** The points emitted for the first `i` rounds of the chronological list. */
  function PointsUpTo(sorted: seq<Round>, cutoff: int, indices: seq<real>, i: nat): seq<HandicapHistory>
    requires i <= |sorted| == |indices|
  {
    if i == 0 then [] else PointsUpTo(sorted, cutoff, indices, i - 1) + PointAt(sorted, cutoff, indices, i - 1)
  }

  /** A qualifying position adds its point to the points so far. */
  lemma PointsUpToPush(sorted: seq<Round>, cutoff: int, indices: seq<real>, i: nat, h: real)
    requires i < |sorted| == |indices| && h == indices[i]
    requires sorted[i].date >= cutoff && i + 1 >= MinRounds
    ensures PointsUpTo(sorted, cutoff, indices, i + 1)
         == PointsUpTo(sorted, cutoff, indices, i) + [HandicapHistory(sorted[i].date, h, i + 1)]
  {
  }

  /** Any other position adds nothing. */
  lemma PointsUpToSkip(sorted: seq<Round>, cutoff: int, indices: seq<real>, i: nat)
    requires i < |sorted| == |indices|
    requires !(sorted[i].date >= cutoff && i + 1 >= MinRounds)
    ensures PointsUpTo(sorted, cutoff, indices, i + 1) == PointsUpTo(sorted, cutoff, indices, i)
  {
  }

  /** The trend as `calculateHandicapHistory` defines it, with `sixMonthsAgo`
      the day number of the moment six months before now. */
  function HandicapHistoryOf(rounds: seq<Round>, sixMonthsAgo: int): (h: seq<HandicapHistory>)
    requires NonZeroSlopes(rounds)
    ensures |h| <= |rounds|
  {
    if |rounds| < MinRounds then []
    else
      var sorted := Chronological(rounds);
      NonZeroSlopesPermutation(rounds, sorted);
      PointsUpToMark(sorted, sixMonthsAgo, RunningHandicaps(sorted, |sorted|), |rounds|);
      PointsUpTo(sorted, sixMonthsAgo, RunningHandicaps(sorted, |sorted|), |rounds|)
  }

  /** `calculateHandicapHistory`: sorts a copy of the rounds by date and walks
      it, pushing a point for every qualifying position. */
  method CalculateHandicapHistory(rounds: seq<Round>, sixMonthsAgo: int) returns (history: seq<HandicapHistory>)
    requires NonZeroSlopes(rounds)
    ensures history == HandicapHistoryOf(rounds, sixMonthsAgo)
  {
    if |rounds| < MinRounds {
      return [];
    }
    var sortedRounds := Chronological(rounds);
    NonZeroSlopesPermutation(rounds, sortedRounds);
    history := WalkRounds(sortedRounds, sixMonthsAgo);
  }

  /** The `forEach` of `calculateHandicapHistory` over the rounds in date
      order: a point for every position whose round is on or after the cutoff
      and has at least two rounds before it, carrying the index of the rounds
      up to and including it. */
  method WalkRounds(sortedRounds: seq<Round>, sixMonthsAgo: int) returns (history: seq<HandicapHistory>)
    requires NonZeroSlopes(sortedRounds)
    ensures history == PointsUpTo(sortedRounds, sixMonthsAgo, RunningHandicaps(sortedRounds, |sortedRounds|), |sortedRounds|)
  {
    ghost var indices := RunningHandicaps(sortedRounds, |sortedRounds|);
    history := [];
    var index := 0;
    while index < |sortedRounds|
      invariant 0 <= index <= |sortedRounds|
      invariant history == PointsUpTo(sortedRounds, sixMonthsAgo, indices, index)
    {
      var roundsUpToThis := sortedRounds[..index + 1];
      var round := sortedRounds[index];
      if round.date >= sixMonthsAgo && |roundsUpToThis| >= MinRounds {
        RunningHandicapsAt(sortedRounds, |sortedRounds|, index);
        var handicap := CalculateHandicap(roundsUpToThis);
        PointsUpToPush(sortedRounds, sixMonthsAgo, indices, index, handicap);
        history := history + [HandicapHistory(round.date, handicap, |roundsUpToThis|)];
      } else {
        PointsUpToSkip(sortedRounds, sixMonthsAgo, indices, index);
      }
      index := index + 1;
    }
  }

  /** What a point says about the chronological list it came from, with
      `indices[n - 1]` the index of its first `n` rounds. */
  ghost predicate Marks(sorted: seq<Round>, cutoff: int, indices: seq<real>, p: HandicapHistory)
    requires |sorted| == |indices|
  {
    && MinRounds <= p.rounds <= |sorted|
    && p.date == sorted[p.rounds - 1].date
    && p.date >= cutoff
    && p.handicap == indices[p.rounds - 1]
  }

  /** Every point up to position `i` marks its round, which lies within the
      first `i`. */
  lemma {:induction false} PointsUpToMark(sorted: seq<Round>, cutoff: int, indices: seq<real>, i: nat)
    requires i <= |sorted| == |indices|
    ensures var h := PointsUpTo(sorted, cutoff, indices, i);
      && |h| <= i
      && (forall k :: 0 <= k < |h| ==> Marks(sorted, cutoff, indices, h[k]) && h[k].rounds <= i)
  {
    if i > 0 {
      PointsUpToMark(sorted, cutoff, indices, i - 1);
    }
  }

  /** Points up to position `i` come in strictly increasing position. */
  lemma {:induction false} PointsUpToIncreasing(sorted: seq<Round>, cutoff: int, indices: seq<real>, i: nat)
    requires i <= |sorted| == |indices|
    ensures var h := PointsUpTo(sorted, cutoff, indices, i);
      forall k, l :: 0 <= k < l < |h| ==> h[k].rounds < h[l].rounds
  {
    if i > 0 {
      PointsUpToIncreasing(sorted, cutoff, indices, i - 1);
      PointsUpToMark(sorted, cutoff, indices, i - 1);
      var h0 := PointsUpTo(sorted, cutoff, indices, i - 1);
      var p := PointAt(sorted, cutoff, indices, i - 1);
      var h := PointsUpTo(sorted, cutoff, indices, i);
      assert h == h0 + p;
      forall k, l | 0 <= k < l < |h|
        ensures h[k].rounds < h[l].rounds
      {
        assert h[k] == h0[k];
        if l < |h0| {
          assert h[l] == h0[l];
        } else {
          assert h[l] == p[0] && p[0].rounds == i;
        }
      }
    }
  }

  /** Some point of `h` is the one for the first `n` rounds. */
  ghost predicate HasPointFor(h: seq<HandicapHistory>, n: nat)
  {
    exists k :: 0 <= k < |h| && h[k].rounds == n
  }

  /** A qualifying position `j` below `i` has its point among those up to `i`. */
  lemma {:induction false} PointsUpToComplete(sorted: seq<Round>, cutoff: int, indices: seq<real>, i: nat, j: nat)
    requires i <= |sorted| == |indices|
    requires MinRounds - 1 <= j < i && sorted[j].date >= cutoff
    ensures HasPointFor(PointsUpTo(sorted, cutoff, indices, i), j + 1)
  {
    var h0 := PointsUpTo(sorted, cutoff, indices, i - 1);
    var p := PointAt(sorted, cutoff, indices, i - 1);
    var h := PointsUpTo(sorted, cutoff, indices, i);
    assert h == h0 + p;
    if j < i - 1 {
      PointsUpToComplete(sorted, cutoff, indices, i - 1, j);
      var k :| 0 <= k < |h0| && h0[k].rounds == j + 1;
      assert h[k] == h0[k];
    } else {
      assert h[|h0|] == p[0];
    }
  }

  /** What a point of the trend states: its 1-based position in date order
      (at least 3), its round's date, on or after the cutoff, and the index
      of the rounds up to and including it. */
  ghost predicate Describes(sorted: seq<Round>, cutoff: int, p: HandicapHistory)
    requires NonZeroSlopes(sorted)
  {
    && MinRounds <= p.rounds <= |sorted|
    && p.date == sorted[p.rounds - 1].date
    && p.date >= cutoff
    && NonZeroSlopes(sorted[..p.rounds])
    && p.handicap == CalculateHandicap(sorted[..p.rounds])
  }

  /** The trend is empty below three rounds, holds at most one point per
      round, and every point describes its round. */
  lemma HistoryDescribesRounds(rounds: seq<Round>, sixMonthsAgo: int)
    requires NonZeroSlopes(rounds)
    ensures |rounds| < MinRounds ==> HandicapHistoryOf(rounds, sixMonthsAgo) == []
    ensures var sorted := Chronological(rounds);
      var h := HandicapHistoryOf(rounds, sixMonthsAgo);
      && NonZeroSlopes(sorted)
      && |h| <= |rounds|
      && (forall k :: 0 <= k < |h| ==> Describes(sorted, sixMonthsAgo, h[k]))
  {
    var sorted := Chronological(rounds);
    NonZeroSlopesPermutation(rounds, sorted);
    if |rounds| >= MinRounds {
      var indices := RunningHandicaps(sorted, |sorted|);
      PointsUpToMark(sorted, sixMonthsAgo, indices, |rounds|);
      var h := HandicapHistoryOf(rounds, sixMonthsAgo);
      forall k | 0 <= k < |h|
        ensures Describes(sorted, sixMonthsAgo, h[k])
      {
        assert Marks(sorted, sixMonthsAgo, indices, h[k]);
        RunningHandicapsAt(sorted, |sorted|, h[k].rounds - 1);
      }
    }
  }

  /** Points come in date order, one position after another. */
  lemma HistoryInDateOrder(rounds: seq<Round>, sixMonthsAgo: int)
    requires NonZeroSlopes(rounds)
    ensures var h := HandicapHistoryOf(rounds, sixMonthsAgo);
      forall k, l :: 0 <= k < l < |h| ==> h[k].rounds < h[l].rounds && h[k].date <= h[l].date
  {
    var sorted := Chronological(rounds);
    NonZeroSlopesPermutation(rounds, sorted);
    if |rounds| >= MinRounds {
      var indices := RunningHandicaps(sorted, |sorted|);
      PointsUpToMark(sorted, sixMonthsAgo, indices, |rounds|);
      PointsUpToIncreasing(sorted, sixMonthsAgo, indices, |rounds|);
      var h := HandicapHistoryOf(rounds, sixMonthsAgo);
      forall k, l | 0 <= k < l < |h|
        ensures h[k].date <= h[l].date
      {
        assert Marks(sorted, sixMonthsAgo, indices, h[k]) && Marks(sorted, sixMonthsAgo, indices, h[l]);
        assert OlderOrSame(sorted[h[k].rounds - 1], sorted[h[l].rounds - 1]);
      }
    }
  }

  /** Every round from the third on in date order, played on or after the
      cutoff, has its point. */
  lemma HistoryComplete(rounds: seq<Round>, sixMonthsAgo: int)
    requires NonZeroSlopes(rounds)
    ensures var sorted := Chronological(rounds);
      var h := HandicapHistoryOf(rounds, sixMonthsAgo);
      forall j :: MinRounds - 1 <= j < |rounds| && sorted[j].date >= sixMonthsAgo ==>
        exists k :: 0 <= k < |h| && h[k].rounds == j + 1
  {
    var sorted := Chronological(rounds);
    NonZeroSlopesPermutation(rounds, sorted);
    var h := HandicapHistoryOf(rounds, sixMonthsAgo);
    forall j | MinRounds - 1 <= j < |rounds| && sorted[j].date >= sixMonthsAgo
      ensures exists k :: 0 <= k < |h| && h[k].rounds == j + 1
    {
      var indices := RunningHandicaps(sorted, |sorted|);
      PointsUpToComplete(sorted, sixMonthsAgo, indices, |rounds|, j);
    }
  }
}

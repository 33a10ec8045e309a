/** Exact arithmetic standing in for the JavaScript number operations the
    application uses: sums and means of `reduce`, `toFixed(1)` and
    `Math.round(x * 10) / 10`. Numbers are mathematical reals; IEEE-754
    rounding artefacts are not modelled. */
module Numeric {

  function Sum(s: seq<real>): real
  {
    if s == [] then 0.0 else s[0] + Sum(s[1..])
  }

  /** The average of the values; the average of equal values is that value
      (its bounds in general are `MeanBounds`). */
  function Mean(s: seq<real>): (m: real)
    requires s != []
    ensures (forall i :: 0 <= i < |s| ==> s[i] == s[0]) ==> m == s[0]
  {
    var n := |s| as real;
    if forall i :: 0 <= i < |s| ==> s[i] == s[0] then
      SumBounds(s, s[0], s[0]);
      assert s[0] == (n * s[0]) / n;
      Sum(s) / n
    else Sum(s) / n
  }

  /** The smallest element of a non-empty sequence. */
  function MinOf(s: seq<real>): (m: real)
    requires s != []
    ensures m in s
    ensures forall i :: 0 <= i < |s| ==> m <= s[i]
  {
    if |s| == 1 then s[0]
    else
      var rest := MinOf(s[1..]);
      assert rest in s;
      if s[0] <= rest then s[0] else rest
  }

  /** The largest element of a non-empty sequence. */
  function MaxOf(s: seq<real>): (m: real)
    requires s != []
    ensures m in s
    ensures forall i :: 0 <= i < |s| ==> s[i] <= m
  {
    if |s| == 1 then s[0]
    else
      var rest := MaxOf(s[1..]);
      assert rest in s;
      if rest <= s[0] then s[0] else rest
  }

  /** A value with at most one decimal digit. */
  predicate IsTenths(x: real)
  {
    (x * 10.0).Floor as real == x * 10.0
  }

  /** `Number.parseFloat(x.toFixed(1))`: the multiple of 0.1 nearest to `x`,
      ties rounded away from zero (toFixed rounds the magnitude and keeps the
      sign). */
  function ToFixed1(x: real): (r: real)
    ensures IsTenths(r)
    ensures x >= 0.0 ==> x - 0.05 < r <= x + 0.05
    ensures x < 0.0 ==> x - 0.05 <= r < x + 0.05
  {
    if x >= 0.0 then
      var k := (x * 10.0 + 0.5).Floor;
      TenthsOfFloor(x * 10.0 + 0.5);
      k as real / 10.0
    else
      var k := ((-x) * 10.0 + 0.5).Floor;
      TenthsOfFloor((-x) * 10.0 + 0.5);
      assert (-k) as real / 10.0 == -(k as real / 10.0);
      IntegerIsTenths(-k);
      -(k as real / 10.0)
  }

  /** The two facts every rounding step rests on: dividing a whole number by
      ten gives tenths, and the floor is within one of its argument. */
  lemma TenthsOfFloor(y: real)
    ensures IsTenths(y.Floor as real / 10.0)
    ensures y - 1.0 < y.Floor as real <= y
  {
    IntegerIsTenths(y.Floor);
  }

  lemma IntegerIsTenths(k: int)
    ensures IsTenths(k as real / 10.0)
  {
    assert (k as real / 10.0) * 10.0 == k as real;
  }

  /** `Math.round(x * 10) / 10`: Math.round rounds halves towards +infinity. */
  function RoundTenths(x: real): (r: real)
    ensures IsTenths(r)
    ensures x - 0.05 < r <= x + 0.05
  {
    TenthsOfFloor(x * 10.0 + 0.5);
    ((x * 10.0 + 0.5).Floor as real) / 10.0
  }

  /** A value that already has one decimal is left unchanged by `toFixed(1)`. */
  lemma ToFixed1OfTenths(x: real)
    requires IsTenths(x)
    ensures ToFixed1(x) == x
  {
    var k := (x * 10.0).Floor;
    if x >= 0.0 {
      assert (x * 10.0 + 0.5).Floor == k;
    } else {
      assert ((-x) * 10.0).Floor == -k;
      assert ((-x) * 10.0 + 0.5).Floor == -k;
    }
  }

  lemma MeanOfOne(x: real)
    ensures Mean([x]) == x
  {
    assert [x][1..] == [];
    assert Sum([x]) == x;
  }

  /** A mean lies between the minimum and the maximum of what it averages. */
  lemma {:induction false} SumBounds(s: seq<real>, lo: real, hi: real)
    requires forall i :: 0 <= i < |s| ==> lo <= s[i] <= hi
    ensures |s| as real * lo <= Sum(s) <= |s| as real * hi
  {
    if s != [] {
      SumBounds(s[1..], lo, hi);
    }
  }

  lemma MeanBounds(s: seq<real>, lo: real, hi: real)
    requires s != []
    requires forall i :: 0 <= i < |s| ==> lo <= s[i] <= hi
    ensures lo <= Mean(s) <= hi
  {
    SumBounds(s, lo, hi);
    var n := |s| as real;
    assert n * lo <= Sum(s) <= n * hi;
    assert lo == (n * lo) / n && hi == (n * hi) / n;
    DivMonotone(n * lo, Sum(s), n);
    DivMonotone(Sum(s), n * hi, n);
  }

  lemma DivMonotone(a: real, b: real, n: real)
    requires n > 0.0 && a <= b
    ensures a / n <= b / n
  {
  }

  /** Rounding with `Math.round` to tenths keeps a mean of whole numbers
      between their least and greatest. */
  lemma RoundTenthsBetweenIntegers(x: real, lo: int, hi: int)
    requires lo as real <= x <= hi as real
    ensures lo as real <= RoundTenths(x) <= hi as real
  {
    var f := (x * 10.0 + 0.5).Floor;
    assert (10 * lo) as real <= x * 10.0 + 0.5;
    assert 10 * lo <= f;
    assert x * 10.0 + 0.5 < (10 * hi + 1) as real;
    assert f <= 10 * hi;
  }

  /** The same for `toFixed(1)`, which rounds the magnitude. */
  lemma ToFixed1BetweenIntegers(x: real, lo: int, hi: int)
    requires lo as real <= x <= hi as real
    ensures lo as real <= ToFixed1(x) <= hi as real
  {
    if x >= 0.0 {
      assert ToFixed1(x) == RoundTenths(x);
      RoundTenthsBetweenIntegers(x, lo, hi);
    } else {
      assert ToFixed1(x) == -RoundTenths(-x);
      RoundTenthsBetweenIntegers(-x, -hi, -lo);
    }
  }
}

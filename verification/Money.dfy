/**
 Money arithmetic. Decimal amounts are exact rationals here (type real); a quantized amount is the integer
 number of its currency's minor units.
 */
module MoneyMath {
  import opened Wrappers

  // ---- rounding --------------------------------------------------------------------------------

  function Abs(x: real): real { if x < 0.0 then -x else x }

  /** ROUND_HALF_UP: a nearest integer, and of two nearest ones the one farther from zero. */
  function RoundHalfUp(x: real): (n: int)
    ensures Abs(n as real - x) <= 0.5
    ensures Abs(n as real - x) == 0.5 ==> Abs(n as real) > Abs(x)
  {
    if x >= 0.0 then (x + 0.5).Floor else -(0.5 - x).Floor
  }

  /** The contract of RoundHalfUp has only one solution. */
  lemma RoundingIsUnique(x: real, n: int)
    requires Abs(n as real - x) <= 0.5
    requires Abs(n as real - x) == 0.5 ==> Abs(n as real) > Abs(x)
    ensures n == RoundHalfUp(x)
  {
    assert Abs((n - RoundHalfUp(x)) as real) <= 1.0;
  }

  lemma RoundingIsOdd(x: real)
    ensures RoundHalfUp(-x) == -RoundHalfUp(x)
  {
    RoundingIsUnique(-x, -RoundHalfUp(x));
  }

  lemma RoundingKeepsIntegers(n: int)
    ensures RoundHalfUp(n as real) == n
  {
    RoundingIsUnique(n as real, n);
  }

  // ---- currencies ------------------------------------------------------------------------------

  function UpperChar(c: char): char {
    if 'a' <= c <= 'z' then (c as int - 32) as char else c
  }

  /** str.upper on ASCII text. */
  function Upper(s: string): (u: string)
    ensures |u| == |s| && forall i :: 0 <= i < |s| ==> u[i] == UpperChar(s[i])
  {
    if s == "" then "" else [UpperChar(s[0])] + Upper(s[1..])
  }

  /** Small letters become the capitals 32 places before them, and nothing else changes. */
  lemma UpperRaisesLetters(s: string, i: nat)
    requires i < |s|
    ensures 'a' <= s[i] <= 'z' ==> Upper(s)[i] as int == s[i] as int - 32
    ensures !('a' <= s[i] <= 'z') ==> Upper(s)[i] == s[i]
  {
  }

  predicate IsZeroDecimalCode(code: string) {
    code == "JPY" || code == "KRW"
  }

  predicate ZeroDecimal(currency: string) {
    IsZeroDecimalCode(Upper(currency))
  }

  /** Minor units per unit of the currency. */
  function Scale(currency: string): real {
    if ZeroDecimal(currency) then 1.0 else 100.0
  }

  /** The decimal value of a number of minor units. */
  function Amount(minor: int, currency: string): real {
    minor as real / Scale(currency)
  }

  function Quantize(amount: real, currency: string): int {
    RoundHalfUp(amount * Scale(currency))
  }

  /** Yen and won, in letters of either case, are rounded to whole units, every other currency to hundredths. */
  lemma QuantizeIsNearest(amount: real, currency: string)
    ensures Upper(currency) == "JPY" || Upper(currency) == "KRW" ==> Abs(Quantize(amount, currency) as real - amount) <= 0.5
    ensures Upper(currency) != "JPY" && Upper(currency) != "KRW" ==> Abs(Quantize(amount, currency) as real / 100.0 - amount) <= 0.005
  {
    assert 0.5 / 100.0 == 0.005;
  }

  lemma QuantizeKeepsQuantized(minor: int, currency: string)
    ensures Quantize(Amount(minor, currency), currency) == minor
  {
    assert Amount(minor, currency) * Scale(currency) == minor as real;
    RoundingKeepsIntegers(minor);
  }

  /** Sums of quantized amounts are exact. */
  lemma QuantizeKeepsSums(a: int, b: int, currency: string)
    ensures Quantize(Amount(a, currency) + Amount(b, currency), currency) == a + b
  {
    assert (Amount(a, currency) + Amount(b, currency)) * Scale(currency) == (a + b) as real;
    RoundingKeepsIntegers(a + b);
  }

  // ---- the balanced split ----------------------------------------------------------------------

  function SumReal(xs: seq<real>): real {
    if xs == [] then 0.0 else SumReal(xs[..|xs| - 1]) + xs[|xs| - 1]
  }

  function SumInt(xs: seq<int>): int {
    if xs == [] then 0 else SumInt(xs[..|xs| - 1]) + xs[|xs| - 1]
  }

  /** The exact share of a weight, in minor units. */
  function Share(total: int, weight: real, weightSum: real): real
    requires weightSum != 0.0
  {
    total as real * weight / weightSum
  }

  function Shares(total: int, weights: seq<real>, weightSum: real): seq<real>
    requires weightSum != 0.0
  {
    seq(|weights|, i requires 0 <= i < |weights| => Share(total, weights[i], weightSum))
  }

  function Rounded(xs: seq<real>): seq<int> {
    seq(|xs|, i requires 0 <= i < |xs| => RoundHalfUp(xs[i]))
  }

  /** All parts but the last, and what then remains of the total. */
  function WithRemainder(total: int, parts: seq<int>): (r: seq<int>)
    requires parts != []
    ensures |r| == |parts|
  {
    parts[..|parts| - 1] + [total - SumInt(parts[..|parts| - 1])]
  }

  /** Specification of the split: half-up rounded shares, except that the last part is what remains of the total. */
  function Split(total: int, weights: seq<real>): (parts: seq<int>)
    requires weights != [] && SumReal(weights) != 0.0
    ensures |parts| == |weights|
  {
    WithRemainder(total, Rounded(Shares(total, weights, SumReal(weights))))
  }

  datatype SplitError = ZeroWeights

  method SumOf(weights: seq<real>) returns (sum: real)
    ensures sum == SumReal(weights)
  {
    sum := 0.0;
    for i := 0 to |weights|
      invariant sum == SumReal(weights[..i])
    {
      assert weights[..i + 1][..i] == weights[..i];
      sum := sum + weights[i];
    }
    assert weights[..|weights|] == weights;
  }

  lemma Regroup(x: real, y: real, k: real, w: real, sum: real)
    requires x * sum == y * w
    ensures (x * k) * sum == (y * k) * w
  {
    calc {
      (x * k) * sum;
      (x * sum) * k;
      (y * w) * k;
      (y * k) * w;
    }
  }

  lemma ScaledQuotient(x: real, t: real, k: real, w: real, sum: real)
    requires k != 0.0 && sum != 0.0 && x == t / k * w / sum
    ensures x * k == t * w / sum
  {
    var y := t / k;
    assert y * k == t && x * sum == y * w;
    Regroup(x, y, k, w, sum);
    CancelFactor(x * k, t * w / sum, sum);
  }

  lemma ShareInMinorUnits(total: int, weight: real, weightSum: real, currency: string, share: real)
    requires weightSum != 0.0 && share == Amount(total, currency) * weight / weightSum
    ensures Quantize(share, currency) == RoundHalfUp(Share(total, weight, weightSum))
  {
    ScaledQuotient(share, total as real, Scale(currency), weight, weightSum);
    var exact := Share(total, weight, weightSum);
    assert share * Scale(currency) == exact;
    assert Quantize(share, currency) == RoundHalfUp(exact);
  }

  lemma CancelFactor(a: real, b: real, c: real)
    requires c != 0.0 && a * c == b * c
    ensures a == b
  {
    assert (a - b) * c == 0.0;
  }

  /** The list of quantized shares, with its sum. */
  method RoundParts(total: int, weights: seq<real>, weightSum: real, currency: string) returns (parts: seq<int>, sum: int)
    requires weightSum != 0.0
    ensures parts == Rounded(Shares(total, weights, weightSum))
    ensures sum == SumInt(parts)
  {
    parts, sum := [], 0;
    for i := 0 to |weights|
      invariant parts == Rounded(Shares(total, weights, weightSum))[..i]
      invariant sum == SumInt(parts)
    {
      var share := Amount(total, currency) * weights[i] / weightSum;
      ShareInMinorUnits(total, weights[i], weightSum, currency, share);
      var part := Quantize(share, currency);
      assert (parts + [part])[..i] == parts;
      parts := parts + [part];
      sum := sum + part;
    }
  }

  /** split_balanced: rounds every share, then moves the drift onto the last part. */
  method SplitBalanced(amount: real, weights: seq<real>, currency: string) returns (r: Result<seq<int>, SplitError>)
    ensures weights == [] ==> r == Ok([])
    ensures weights != [] && SumReal(weights) == 0.0 ==> r == Err(ZeroWeights)
    ensures weights != [] && SumReal(weights) != 0.0 ==> r == Ok(Split(Quantize(amount, currency), weights))
  {
    var total := Quantize(amount, currency);
    if weights == [] {
      return Ok([]);
    }
    var weightSum := SumOf(weights);
    if weightSum == 0.0 {
      return Err(ZeroWeights);
    }
    var parts, sum := RoundParts(total, weights, weightSum, currency);
    var drift := total - sum;
    if drift != 0 {
      var last := |parts| - 1;
      QuantizeKeepsSums(parts[last], drift, currency);
      parts := parts[last := Quantize(Amount(parts[last], currency) + Amount(drift, currency), currency)];
    }
    assert parts == WithRemainder(total, Rounded(Shares(total, weights, weightSum)));
    return Ok(parts);
  }

  /** The parts sum exactly to the total, whatever the weights. */
  lemma SplitSumsToTotal(total: int, weights: seq<real>)
    requires weights != [] && SumReal(weights) != 0.0
    ensures SumInt(Split(total, weights)) == total
  {
    var parts := Rounded(Shares(total, weights, SumReal(weights)));
    assert Split(total, weights)[..|parts| - 1] == parts[..|parts| - 1];
  }

  lemma ShareIsAdditive(total: int, a: real, b: real, weightSum: real)
    requires weightSum != 0.0
    ensures Share(total, a, weightSum) + Share(total, b, weightSum) == Share(total, a + b, weightSum)
  {
    var t := total as real;
    assert t * (a + b) == t * a + t * b;
    assert t * a / weightSum + t * b / weightSum == (t * a + t * b) / weightSum;
  }

  lemma {:induction false} SumOfShares(total: int, weights: seq<real>, weightSum: real)
    requires weightSum != 0.0
    ensures SumReal(Shares(total, weights, weightSum)) == Share(total, SumReal(weights), weightSum)
  {
    if weights == [] {
      assert total as real * 0.0 == 0.0;
      assert 0.0 / weightSum == 0.0;
    } else {
      var n := |weights|;
      SumOfShares(total, weights[..n - 1], weightSum);
      ShareIsAdditive(total, SumReal(weights[..n - 1]), weights[n - 1], weightSum);
      assert Shares(total, weights, weightSum)[..n - 1] == Shares(total, weights[..n - 1], weightSum);
    }
  }

  /** The exact shares sum to the total. */
  lemma SharesSumToTotal(total: int, weights: seq<real>)
    requires SumReal(weights) != 0.0
    ensures SumReal(Shares(total, weights, SumReal(weights))) == total as real
  {
    SumOfShares(total, weights, SumReal(weights));
  }

  /** Rounding n numbers moves their sum by at most n half units. */
  lemma {:induction false} RoundedSumIsClose(xs: seq<real>)
    ensures Abs(SumInt(Rounded(xs)) as real - SumReal(xs)) <= 0.5 * |xs| as real
  {
    if xs != [] {
      RoundedSumIsClose(xs[..|xs| - 1]);
      assert Rounded(xs)[..|xs| - 1] == Rounded(xs[..|xs| - 1]);
    }
  }

  /** Every part but the last is within half a unit of the exact number, the last within (n - 1) / 2 units. */
  predicate CloseTo(parts: seq<int>, exact: seq<real>) {
    && |parts| == |exact| && exact != []
    && (forall i :: 0 <= i < |exact| - 1 ==> Abs(parts[i] as real - exact[i]) <= 0.5)
    && Abs(parts[|exact| - 1] as real - exact[|exact| - 1]) <= 0.5 * (|exact| - 1) as real
  }

  lemma LastIsClose(total: int, xs: seq<real>)
    requires xs != [] && SumReal(xs) == total as real
    ensures Abs(WithRemainder(total, Rounded(xs))[|xs| - 1] as real - xs[|xs| - 1]) <= 0.5 * (|xs| - 1) as real
  {
    RoundedSumIsClose(xs[..|xs| - 1]);
    assert Rounded(xs)[..|xs| - 1] == Rounded(xs[..|xs| - 1]);
  }

  lemma RemainderIsClose(total: int, xs: seq<real>)
    requires xs != [] && SumReal(xs) == total as real
    ensures CloseTo(WithRemainder(total, Rounded(xs)), xs)
  {
    LastIsClose(total, xs);
    var parts := WithRemainder(total, Rounded(xs));
    forall i | 0 <= i < |xs| - 1 ensures Abs(parts[i] as real - xs[i]) <= 0.5 {
      assert parts[i] == RoundHalfUp(xs[i]);
    }
  }

  /** The split stays close to the exact shares of the weights. */
  lemma SplitIsClose(total: int, weights: seq<real>)
    requires weights != [] && SumReal(weights) != 0.0
    ensures CloseTo(Split(total, weights), Shares(total, weights, SumReal(weights)))
  {
    SharesSumToTotal(total, weights);
    RemainderIsClose(total, Shares(total, weights, SumReal(weights)));
  }

  lemma {:induction false} SumIntNegates(xs: seq<int>, ys: seq<int>)
    requires |xs| == |ys| && forall i :: 0 <= i < |xs| ==> ys[i] == -xs[i]
    ensures SumInt(ys) == -SumInt(xs)
  {
    if xs != [] {
      SumIntNegates(xs[..|xs| - 1], ys[..|ys| - 1]);
    }
  }

  lemma ShareIsOdd(total: int, weight: real, weightSum: real)
    requires weightSum != 0.0
    ensures Share(-total, weight, weightSum) == -Share(total, weight, weightSum)
  {
    var t := total as real;
    assert (-t) * weight == -(t * weight);
    assert (-(t * weight)) / weightSum == -(t * weight / weightSum);
  }

  /** A refund is split as the payment was: negating the total negates every part. */
  lemma SplitIsOdd(total: int, weights: seq<real>)
    requires weights != [] && SumReal(weights) != 0.0
    ensures forall i :: 0 <= i < |weights| ==> Split(-total, weights)[i] == -Split(total, weights)[i]
  {
    var n, sum := |weights|, SumReal(weights);
    var a, b := Shares(total, weights, sum), Shares(-total, weights, sum);
    forall i | 0 <= i < n ensures Rounded(b)[i] == -Rounded(a)[i] {
      ShareIsOdd(total, weights[i], sum);
      assert b[i] == -a[i];
      RoundingIsOdd(a[i]);
    }
    SumIntNegates(Rounded(a)[..n - 1], Rounded(b)[..n - 1]);
  }

  function Scaled(c: real, weights: seq<real>): seq<real> {
    seq(|weights|, i requires 0 <= i < |weights| => c * weights[i])
  }

  lemma {:induction false} SumScales(c: real, weights: seq<real>)
    ensures SumReal(Scaled(c, weights)) == c * SumReal(weights)
  {
    if weights != [] {
      var n := |weights|;
      SumScales(c, weights[..n - 1]);
      forall i | 0 <= i < n - 1 ensures Scaled(c, weights)[i] == Scaled(c, weights[..n - 1])[i] {
        assert weights[..n - 1][i] == weights[i];
      }
      assert Scaled(c, weights)[..n - 1] == Scaled(c, weights[..n - 1]);
    }
  }

  lemma ShareScales(total: int, c: real, weight: real, weightSum: real)
    requires weightSum != 0.0 && c * weightSum != 0.0
    ensures Share(total, c * weight, c * weightSum) == Share(total, weight, weightSum)
  {
    var t := total as real;
    var q := t * weight / weightSum;
    assert q * weightSum == t * weight;
    assert q * (c * weightSum) == c * (q * weightSum) == t * (c * weight);
  }

  lemma SharesIgnoreWeightScale(total: int, c: real, weights: seq<real>, sum: real, scaledSum: real)
    requires sum != 0.0 && scaledSum != 0.0 && scaledSum == c * sum
    ensures Shares(total, Scaled(c, weights), scaledSum) == Shares(total, weights, sum)
  {
    forall i | 0 <= i < |weights| ensures Share(total, Scaled(c, weights)[i], c * sum) == Share(total, weights[i], sum) {
      ShareScales(total, c, weights[i], sum);
    }
  }

  /** Only the proportions of the weights matter. */
  lemma SplitIgnoresWeightScale(total: int, c: real, weights: seq<real>)
    requires weights != [] && SumReal(weights) != 0.0 && c != 0.0
    ensures SumReal(Scaled(c, weights)) != 0.0
    ensures Split(total, Scaled(c, weights)) == Split(total, weights)
  {
    SumScales(c, weights);
    SharesIgnoreWeightScale(total, c, weights, SumReal(weights), SumReal(Scaled(c, weights)));
  }

  /** The last part absorbs the rounding and may even be negative: one cent over the weights 1, 1, 0. */
  lemma LastPartCanBeNegative()
    ensures SumReal([1.0, 1.0, 0.0]) == 2.0
    ensures Split(1, [1.0, 1.0, 0.0]) == [1, 1, -1]
  {
    var w := [1.0, 1.0, 0.0];
    assert w[..2] == [1.0, 1.0] && [1.0, 1.0][..1] == [1.0] && [1.0][..0] == [];
    var parts := Rounded(Shares(1, w, 2.0));
    assert Shares(1, w, 2.0)[0] == 0.5 && Shares(1, w, 2.0)[1] == 0.5;
    assert parts[..2] == [1, 1] && [1, 1][..1] == [1] && [1][..0] == [];
  }

  /** The last part is not negative whenever its exact share is at least (n - 1) / 2 minor units. */
  lemma LastPartIsSafe(total: int, weights: seq<real>)
    requires weights != [] && SumReal(weights) != 0.0
    requires Share(total, weights[|weights| - 1], SumReal(weights)) >= 0.5 * (|weights| - 1) as real
    ensures Split(total, weights)[|weights| - 1] >= 0
  {
    var n := |weights|;
    SplitIsClose(total, weights);
    assert Shares(total, weights, SumReal(weights))[n - 1] == Share(total, weights[n - 1], SumReal(weights));
  }

  /** n weights of one, then w. */
  function OnesThen(n: nat, w: nat): seq<real> { seq(n, i => 1.0) + [w as real] }

  lemma {:induction false} SumOfOnes(n: nat)
    ensures SumReal(seq(n, i => 1.0)) == n as real
  {
    if n > 0 {
      SumOfOnes(n - 1);
      assert seq(n, i => 1.0)[..n - 1] == seq(n - 1, i => 1.0);
    }
  }

  lemma {:induction false} SumOfIntOnes(parts: seq<int>)
    requires forall i :: 0 <= i < |parts| ==> parts[i] == 1
    ensures SumInt(parts) == |parts|
  {
    if parts != [] { SumOfIntOnes(parts[..|parts| - 1]); }
  }

  lemma HalfShare(total: int, sum: int)
    requires sum != 0 && 2 * total == sum
    ensures Share(total, 1.0, sum as real) == 0.5
    ensures RoundHalfUp(Share(total, 1.0, sum as real)) == 1
  {
    var t, s := total as real, sum as real;
    assert 2.0 * t == s;
    Half(t, s);
    RoundingIsUnique(0.5, 1);
  }

  lemma Half(t: real, s: real)
    requires 2.0 * t == s && s != 0.0
    ensures t * 1.0 / s == 0.5
  {
    var q := t / s;
    assert q * s == t == 0.5 * s;
    CancelFactor(q, 0.5, s);
  }

  lemma ShareOfLast(total: int, sum: int, w: int)
    requires sum != 0 && 2 * total == sum
    ensures Share(total, w as real, sum as real) == w as real / 2.0
  {
    var t, s, x := total as real, sum as real, w as real;
    assert 2.0 * t == s;
    assert t * x == (x / 2.0) * s;
  }

  /** The bound is reached for every number of parts: over n weights of one and a last weight w, half of their sum is split
      so that the last part lies exactly n / 2 units below its exact share of w / 2. It is negative exactly when w < n. */
  lemma LastPartReachesTheBound(n: nat, w: nat)
    requires n + w > 0 && (n + w) % 2 == 0
    ensures SumReal(OnesThen(n, w)) == (n + w) as real
    ensures var parts := Split((n + w) / 2, OnesThen(n, w));
      && 2 * parts[n] == w - n
      && Share((n + w) / 2, w as real, (n + w) as real) - parts[n] as real == n as real / 2.0
  {
    var weights, total := OnesThen(n, w), (n + w) / 2;
    assert weights[..n] == seq(n, i => 1.0);
    SumOfOnes(n);
    HalfShare(total, n + w);
    ShareOfLast(total, n + w, w);
    var rounded := Rounded(Shares(total, weights, (n + w) as real));
    forall i | 0 <= i < n ensures rounded[..n][i] == 1 {
      assert weights[i] == 1.0;
    }
    SumOfIntOnes(rounded[..n]);
  }
}

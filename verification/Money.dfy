/**
 * Exact money. Amounts are decimals; arithmetic happens in integer minor units, and rounding
 * is half away from zero.
 */
module Money {
  import opened Prelude
  import Sorting

  /** Above this magnitude a value is rejected as not a plausible amount. */
  const MAX_AMOUNT: real := 1000000000000.0

  function RoundHalfUp(x: real): int {
    (x + 0.5).Floor
  }

  function Round(x: real): (n: int)
    ensures -0.5 <= n as real - x <= 0.5
    ensures x >= 0.0 ==> n >= 0
    ensures x <= 0.0 ==> n <= 0
  {
    if x < 0.0 then -RoundHalfUp(-x) else RoundHalfUp(x)
  }

  lemma RoundOfInteger(n: int)
    ensures Round(n as real) == n
  {
    if n < 0 {
      assert -(n as real) == (-n) as real;
    }
  }

  lemma RoundMonotone(x: real, y: real)
    requires x <= y
    ensures Round(x) <= Round(y)
  {
  }

  /** No direction is favoured: a loss rounds exactly as the mirrored gain does. */
  lemma RoundIsSymmetric(x: real)
    ensures Round(-x) == -Round(x)
  {
  }

  /** A tie goes away from zero, for a percentage too. */
  lemma TiesGoAwayFromZero(n: int, minor: int, percentage: real)
    requires n >= 0
    ensures Round(n as real + 0.5) == n + 1 && Round(-(n as real) - 0.5) == -n - 1
    ensures minor as real * percentage / 100.0 == n as real + 0.5 ==> PercentageOf(minor, percentage) == n + 1
    ensures minor as real * percentage / 100.0 == -(n as real) - 0.5 ==> PercentageOf(minor, percentage) == -n - 1
  {
    assert n as real + 0.5 + 0.5 == (n + 1) as real;
  }

  datatype MoneyError = NotUsable

  predicate InRange(value: real) {
    -MAX_AMOUNT <= value <= MAX_AMOUNT
  }

  function ToMinorUnits(value: real): Result<int, MoneyError> {
    if InRange(value) then Ok(Round(value * 100.0)) else Err(NotUsable)
  }

  function FromMinorUnits(minor: int): real {
    minor as real / 100.0
  }

  function RoundMoney(value: real): Result<real, MoneyError> {
    match ToMinorUnits(value)
    case Ok(minor) => Ok(FromMinorUnits(minor))
    case Err(e) => Err(e)
  }

  /** A percentage of an amount already in minor units. */
  function PercentageOf(minor: int, percentage: real): (fee: int)
    ensures AbsReal(fee as real - minor as real * percentage / 100.0) <= 0.5
  {
    Round(minor as real * percentage / 100.0)
  }

  /** Whole minor units survive the trip through major units, and rounding settles in one step. */
  lemma MinorUnitsRoundTrip(minor: int)
    ensures InRange(FromMinorUnits(minor)) ==> ToMinorUnits(FromMinorUnits(minor)) == Ok(minor)
    ensures RoundMoney(FromMinorUnits(minor)).Ok? ==> RoundMoney(FromMinorUnits(minor)) == Ok(FromMinorUnits(minor))
  {
    RoundOfInteger(minor);
    assert FromMinorUnits(minor) * 100.0 == minor as real;
  }

  /** A rounded amount is the nearest whole number of minor units. */
  lemma RoundMoneyIsNearest(value: real, minor: int)
    requires RoundMoney(value).Ok?
    ensures AbsReal(RoundMoney(value).value - value) <= AbsReal(FromMinorUnits(minor) - value)
    ensures AbsReal(RoundMoney(value).value - value) <= 0.005
  {
    NearestInteger(value * 100.0, minor);
  }

  lemma NearestInteger(y: real, m: int)
    ensures AbsReal(Round(y) as real - y) <= AbsReal(m as real - y)
  {
    var n := Round(y);
    if m < n {
      assert m as real <= n as real - 1.0;
    } else if n < m {
      assert n as real + 1.0 <= m as real;
    }
  }

  function AbsReal(x: real): real {
    if x < 0.0 then -x else x
  }

  // ---- sums ----------------------------------------------------------------

  predicate AllUsable(values: seq<Option<real>>) {
    forall v :: v in values && v.Some? ==> InRange(v.value)
  }

  /** The exact total of the present values, in minor units; an absent value is not a zero. */
  function Total(values: seq<Option<real>>): int {
    if values == [] then 0
    else
      Total(values[..|values| - 1])
      + match values[|values| - 1]
        case Some(v) => Round(v * 100.0)
        case None => 0
  }

  /** Sums amounts by accumulating integer minor units. */
  method SumMoney(values: seq<Option<real>>) returns (sum: Result<real, MoneyError>)
    ensures sum.Ok? <==> AllUsable(values)
    ensures sum.Ok? <==> forall v :: v in values && v.Some? ==> -1000000000000.0 <= v.value <= 1000000000000.0
    ensures sum.Ok? ==> sum.value == FromMinorUnits(Total(values))
  {
    var minor := 0;
    for i := 0 to |values|
      invariant AllUsable(values[..i])
      invariant minor == Total(values[..i])
    {
      assert values[..i + 1][..i] == values[..i];
      match values[i] {
        case None =>
          assert AllUsable(values[..i + 1]);
        case Some(v) =>
          match ToMinorUnits(v) {
            case Err(e) => return Err(e);
            case Ok(m) => minor := minor + m;
          }
      }
    }
    assert values[..|values|] == values;
    return Ok(FromMinorUnits(minor));
  }

  lemma {:induction false} TotalAppend(a: seq<Option<real>>, b: seq<Option<real>>)
    ensures Total(a + b) == Total(a) + Total(b)
  {
    if b == [] {
      assert a + b == a;
    } else {
      assert (a + b)[..|a + b| - 1] == a + b[..|b| - 1];
      TotalAppend(a, b[..|b| - 1]);
    }
  }

  /** A sum of one amount is that amount, to the nearest minor unit; an absent one adds nothing. */
  lemma TotalOfOne(value: Option<real>)
    ensures value == None ==> Total([value]) == 0
    ensures value.Some? ==> AbsReal(Total([value]) as real - 100.0 * value.value) <= 0.5
    ensures Total([]) == 0
  {
    assert [value][..0] == [];
  }

  /** Exact sums do not depend on the order of their terms. */
  lemma {:induction false} TotalIgnoresOrder(a: seq<Option<real>>, b: seq<Option<real>>)
    requires multiset(a) == multiset(b)
    ensures Total(a) == Total(b)
    decreases |a|
  {
    if a == [] {
      assert |multiset(b)| == 0;
    } else {
      var last := a[|a| - 1];
      assert a == a[..|a| - 1] + [last];
      assert last in multiset(b);
      var k :| 0 <= k < |b| && b[k] == last;
      assert b == b[..k] + [last] + b[k + 1..];
      TotalAppend(b[..k] + [last], b[k + 1..]);
      TotalAppend(b[..k], [last]);
      TotalAppend(b[..k], b[k + 1..]);
      TotalAppend(a[..|a| - 1], [last]);
      Sorting.RemoveBoth(a, b, k);
      TotalIgnoresOrder(a[..|a| - 1], b[..k] + b[k + 1..]);
    }
  }
}

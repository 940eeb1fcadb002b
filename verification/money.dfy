/** Money as exact reals: absolute value, decimal rounding (`Float#round(n)`),
    and sums over sequences. */
module Money {

  function Abs(x: real): (r: real)
    ensures r >= 0.0 && (r == x || r == -x)
  {
    if x >= 0.0 then x else -x
  }

  function Pow10(n: nat): (r: real)
    ensures r >= 1.0
  {
    if n == 0 then 1.0 else 10.0 * Pow10(n - 1)
  }

  /** Rounds to the nearest whole number, halves away from zero. */
  function RoundUnit(x: real): real {
    if x >= 0.0 then (x + 0.5).Floor as real else -((-x + 0.5).Floor as real)
  }

  /** `Float#round(places)`: round half away from zero at `places` decimals, that is,
      round `x * 10^places` to a whole number and scale back. */
  function Round(x: real, places: nat): real
    decreases places
  {
    if places == 0 then RoundUnit(x) else Round(x * 10.0, places - 1) / 10.0
  }

  /** `.round(2)`, the cents rounding applied to every stored USD amount. */
  function Round2(x: real): real {
    Round(x, 2)
  }

  /** `.round(6)`, applied to the token balances the Alchemy scan stores. */
  function Round6(x: real): real {
    Round(x, 6)
  }

  /** Whole-number rounding is off by at most one half, keeps the sign and is
      symmetric about zero. */
  lemma RoundUnitFacts(x: real)
    ensures x - 0.5 <= RoundUnit(x) <= x + 0.5
    ensures x >= 0.0 ==> RoundUnit(x) >= 0.0
    ensures x <= 0.0 ==> RoundUnit(x) <= 0.0
    ensures RoundUnit(-x) == -RoundUnit(x)
  {
    if x > 0.0 {
      var f := (x + 0.5).Floor;
      assert f as real <= x + 0.5 < f as real + 1.0;
    } else if x < 0.0 {
      var f := (-x + 0.5).Floor;
      assert f as real <= -x + 0.5 < f as real + 1.0;
      assert -(-x) == x;
    }
  }

  /** Rounding is symmetric about zero: debts round like the matching credits. */
  lemma {:induction false} RoundNegate(x: real, places: nat)
    ensures Round(-x, places) == -Round(x, places)
    decreases places
  {
    if places == 0 {
      RoundUnitFacts(x);
    } else {
      assert -x * 10.0 == -(x * 10.0);
      RoundNegate(x * 10.0, places - 1);
    }
  }

  /** Rounding preserves the sign of its argument (zero may result). */
  lemma {:induction false} RoundSign(x: real, places: nat)
    ensures x >= 0.0 ==> Round(x, places) >= 0.0
    ensures x <= 0.0 ==> Round(x, places) <= 0.0
    decreases places
  {
    if places == 0 {
      RoundUnitFacts(x);
    } else {
      RoundSign(x * 10.0, places - 1);
    }
  }

  /** The rounded value is within half a unit of the last place. */
  lemma {:induction false} RoundError(x: real, places: nat)
    ensures -0.5 <= (Round(x, places) - x) * Pow10(places) <= 0.5
    decreases places
  {
    if places == 0 {
      RoundUnitFacts(x);
    } else {
      RoundError(x * 10.0, places - 1);
      var p := Pow10(places - 1);
      var e := Round(x * 10.0, places - 1) - x * 10.0;
      assert Pow10(places) == 10.0 * p;
      assert Round(x, places) - x == e / 10.0;
      assert (e / 10.0) * (10.0 * p) == e * p;
    }
  }

  /** A cents rounding moves a value by at most half a cent. */
  lemma Round2Error(x: real)
    ensures -0.005 <= Round2(x) - x <= 0.005
  {
    RoundError(x, 2);
    assert Pow10(2) == 100.0;
  }

  /** Sum of `f` over a sequence, left to right (`Enumerable#sum` with a block). */
  function SumOf<T>(xs: seq<T>, f: T -> real): real
    decreases |xs|
  {
    if |xs| == 0 then 0.0 else f(xs[0]) + SumOf(xs[1..], f)
  }

  lemma {:induction false} SumOfAppend<T>(xs: seq<T>, ys: seq<T>, f: T -> real)
    ensures SumOf(xs + ys, f) == SumOf(xs, f) + SumOf(ys, f)
    decreases |xs|
  {
    if |xs| == 0 {
      assert xs + ys == ys;
    } else {
      assert (xs + ys)[1..] == xs[1..] + ys;
      SumOfAppend(xs[1..], ys, f);
    }
  }

  lemma SumOfSnoc<T>(xs: seq<T>, x: T, f: T -> real)
    ensures SumOf(xs + [x], f) == SumOf(xs, f) + f(x)
  {
    SumOfAppend(xs, [x], f);
  }

  /** A sum of terms that are all zero is zero. */
  lemma {:induction false} SumOfZero<T>(xs: seq<T>, f: T -> real)
    requires forall i :: 0 <= i < |xs| ==> f(xs[i]) == 0.0
    ensures SumOf(xs, f) == 0.0
    decreases |xs|
  {
    if |xs| > 0 {
      SumOfZero(xs[1..], f);
    }
  }
}

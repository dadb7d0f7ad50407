/** The bigint constant-product swap (the Uniswap V2 `getAmountOut` formula) and
    the two-venue round trip built on it. */
module Simulator {
  import opened Wrappers

  function Abs(x: int): nat {
    if x < 0 then -x else x
  }

  /** BigInt division: the quotient truncated toward zero, so its magnitude is
      the floor of the magnitudes' quotient and its sign is the product of signs. */
  function TDiv(a: int, b: int): (q: int)
    requires b != 0
    ensures Abs(q) == Abs(a) / Abs(b)
    ensures q != 0 ==> (q > 0 <==> (a > 0) == (b > 0))
    ensures a >= 0 && b > 0 ==> q == a / b
  {
    DivFloor(Abs(a), Abs(b));
    var m := Abs(a) / Abs(b);
    assert m > 0 ==> Abs(a) > 0 by { if m > 0 { MulLe(1, m, Abs(b)); } }
    if (a < 0) == (b < 0) then m else -m
  }

  lemma MulNonneg(x: int, y: int)
    requires x >= 0 && y >= 0
    ensures x * y >= 0
  {
  }

  lemma MulLe(a: int, b: int, c: int)
    requires a <= b && c >= 0
    ensures a * c <= b * c
  {
    MulNonneg(b - a, c);
  }

  lemma MulLt(a: int, b: int, c: int)
    requires a < b && c > 0
    ensures a * c < b * c
  {
    MulLe(a + 1, b, c);
  }

  lemma MulLeCancel(a: int, b: int, c: int)
    requires c > 0 && a * c <= b * c
    ensures a <= b
  {
    if a > b {
      MulLt(b, a, c);
    }
  }

  lemma MulLtCancel(a: int, b: int, c: int)
    requires c > 0 && a * c < b * c
    ensures a < b
  {
    if a >= b {
      MulLe(b, a, c);
    }
  }

  /** Euclidean division of naturals is the floor. */
  lemma DivFloor(n: int, d: int)
    requires n >= 0 && d > 0
    ensures n / d >= 0 && (n / d) * d <= n < (n / d) * d + d
  {
  }

  /** getAmountOutRaw: `amountIn * feeNumerator * reserveOut` divided by
      `reserveIn * feeDenominator + amountIn * feeNumerator`; `None` where BigInt
      division by zero throws. */
  function GetAmountOutRaw(amountIn: int, reserveIn: int, reserveOut: int,
                           feeNumerator: int := 997, feeDenominator: int := 1000): (r: Option<int>)
    ensures r.None? <==> reserveIn * feeDenominator + amountIn * feeNumerator == 0
  {
    var amountInWithFee := amountIn * feeNumerator;
    var denominator := reserveIn * feeDenominator + amountInWithFee;
    if denominator == 0 then None else Some(TDiv(amountInWithFee * reserveOut, denominator))
  }

  /** The inputs of a real swap: a non-negative amount, a funded input reserve,
      and a fee numerator no larger than its denominator. */
  predicate SwapInputs(amountIn: int, reserveIn: int, reserveOut: int, feeNumerator: int, feeDenominator: int) {
    && amountIn >= 0 && reserveIn > 0 && reserveOut >= 0
    && 0 <= feeNumerator <= feeDenominator && feeDenominator > 0
  }

  /** On a real swap the output is the floor of the exact quotient. */
  lemma GetAmountOutRawFloor(amountIn: int, reserveIn: int, reserveOut: int, feeNumerator: int, feeDenominator: int)
    requires SwapInputs(amountIn, reserveIn, reserveOut, feeNumerator, feeDenominator)
    ensures var r := GetAmountOutRaw(amountIn, reserveIn, reserveOut, feeNumerator, feeDenominator);
      var w := amountIn * feeNumerator;
      var den := reserveIn * feeDenominator + w;
      && r.Some? && r.value >= 0
      && r.value * den <= w * reserveOut < r.value * den + den
  {
    var w := amountIn * feeNumerator;
    MulNonneg(amountIn, feeNumerator);
    MulLe(1, reserveIn, feeDenominator);
    var den := reserveIn * feeDenominator + w;
    MulNonneg(w, reserveOut);
    DivFloor(w * reserveOut, den);
  }

  /** A swap pays out less than the whole output reserve, and nothing for nothing. */
  lemma GetAmountOutRawBounds(amountIn: int, reserveIn: int, reserveOut: int, feeNumerator: int, feeDenominator: int)
    requires SwapInputs(amountIn, reserveIn, reserveOut, feeNumerator, feeDenominator)
    ensures var r := GetAmountOutRaw(amountIn, reserveIn, reserveOut, feeNumerator, feeDenominator);
      && r.Some? && 0 <= r.value <= reserveOut
      && (reserveOut > 0 ==> r.value < reserveOut)
      && (amountIn == 0 ==> r.value == 0)
  {
    GetAmountOutRawFloor(amountIn, reserveIn, reserveOut, feeNumerator, feeDenominator);
    var r := GetAmountOutRaw(amountIn, reserveIn, reserveOut, feeNumerator, feeDenominator).value;
    var w := amountIn * feeNumerator;
    MulNonneg(amountIn, feeNumerator);
    var base := reserveIn * feeDenominator;
    MulLe(1, reserveIn, feeDenominator);
    var den := base + w;
    if reserveOut > 0 {
      MulLt(w, den, reserveOut);
      MulLtCancel(r, reserveOut, den);
    } else {
      MulLeCancel(r, 0, den);
    }
    if amountIn == 0 {
      MulLeCancel(r, 0, den);
    }
  }

  /** The arithmetic core of the spot bound: with
      `r * (reserveIn * den + amountIn * num) <= amountIn * num * reserveOut`
      and `num <= den`, `r * reserveIn <= amountIn * reserveOut`. */
  lemma SpotCore(r: int, amountIn: int, reserveIn: int, reserveOut: int, num: int, den: int)
    requires r >= 0 && amountIn >= 0 && reserveOut >= 0 && 0 <= num <= den && den > 0
    requires r * (reserveIn * den + amountIn * num) <= amountIn * num * reserveOut
    ensures r * reserveIn <= amountIn * reserveOut
  {
    MulNonneg(amountIn, num);
    MulNonneg(r, amountIn * num);
    MulNonneg(amountIn, reserveOut);
    MulLe(num, den, amountIn * reserveOut);
    MulLeCancel(r * reserveIn, amountIn * reserveOut, den);
  }

  /** A swap never beats the spot price `reserveOut / reserveIn`. */
  lemma GetAmountOutRawSpot(amountIn: int, reserveIn: int, reserveOut: int, feeNumerator: int, feeDenominator: int)
    requires SwapInputs(amountIn, reserveIn, reserveOut, feeNumerator, feeDenominator)
    ensures var r := GetAmountOutRaw(amountIn, reserveIn, reserveOut, feeNumerator, feeDenominator);
      r.Some? && r.value * reserveIn <= amountIn * reserveOut
  {
    GetAmountOutRawFloor(amountIn, reserveIn, reserveOut, feeNumerator, feeDenominator);
    SpotCore(GetAmountOutRaw(amountIn, reserveIn, reserveOut, feeNumerator, feeDenominator).value,
             amountIn, reserveIn, reserveOut, feeNumerator, feeDenominator);
  }

  /** The arithmetic core of monotonicity: with `r` the floor of
      `w * out / (base + w)` and `r'` the floor for a larger `w'`, `r <= r'`. */
  lemma FloorQuotientMonotone(r: int, r': int, base: int, w: int, w': int, out: int)
    requires base > 0 && 0 <= w <= w' && 0 <= r <= out
    requires r * (base + w) <= w * out
    requires w' * out < r' * (base + w') + (base + w')
    ensures r <= r'
  {
    // r * base <= w * (out - r) <= w' * (out - r), so r * (base + w') <= w' * out
    MulLe(w, w', out - r);
    assert r * (base + w') <= w' * out;
    if r > r' {
      MulLe(r' + 1, r, base + w');
    }
  }

  /** A larger input never yields a smaller output. */
  lemma GetAmountOutRawMonotone(amountIn: int, amountIn': int, reserveIn: int, reserveOut: int,
                                feeNumerator: int, feeDenominator: int)
    requires SwapInputs(amountIn, reserveIn, reserveOut, feeNumerator, feeDenominator)
    requires amountIn <= amountIn'
    ensures var r := GetAmountOutRaw(amountIn, reserveIn, reserveOut, feeNumerator, feeDenominator);
      var r' := GetAmountOutRaw(amountIn', reserveIn, reserveOut, feeNumerator, feeDenominator);
      r.Some? && r'.Some? && r.value <= r'.value
  {
    GetAmountOutRawFloor(amountIn, reserveIn, reserveOut, feeNumerator, feeDenominator);
    GetAmountOutRawFloor(amountIn', reserveIn, reserveOut, feeNumerator, feeDenominator);
    GetAmountOutRawBounds(amountIn, reserveIn, reserveOut, feeNumerator, feeDenominator);
    MulLe(amountIn, amountIn', feeNumerator);
    MulNonneg(amountIn, feeNumerator);
    FloorQuotientMonotone(GetAmountOutRaw(amountIn, reserveIn, reserveOut, feeNumerator, feeDenominator).value,
                          GetAmountOutRaw(amountIn', reserveIn, reserveOut, feeNumerator, feeDenominator).value,
                          reserveIn * feeDenominator, amountIn * feeNumerator, amountIn' * feeNumerator, reserveOut);
  }

  /** One venue of a round trip: reserves of the token sent in and the token
      received on the first leg, and its fee as a fraction. */
  datatype Pool = Pool(reserveIn: int, reserveOut: int, fee: real)

  /** `BigInt(Math.floor((1 - fee) * 1000))`, on exact reals. */
  function FeeNumerator(fee: real): int {
    ((1.0 - fee) * 1000.0).Floor
  }

  /** A fee in [0, 1] gives a numerator in [0, 1000]; the common 0.3% gives 997. */
  lemma FeeNumeratorRange(fee: real)
    requires 0.0 <= fee <= 1.0
    ensures 0 <= FeeNumerator(fee) <= 1000
    ensures fee == 0.003 ==> FeeNumerator(fee) == 997
  {
  }

  /** simulateRoundTripRaw: swap on venue A, then swap the proceeds back on venue B. */
  function SimulateRoundTripRaw(amountInRaw: int, dexA: Pool, dexB: Pool): Option<int> {
    var outA := GetAmountOutRaw(amountInRaw, dexA.reserveIn, dexA.reserveOut, FeeNumerator(dexA.fee));
    if outA.None? then None
    else GetAmountOutRaw(outA.value, dexB.reserveOut, dexB.reserveIn, FeeNumerator(dexB.fee))
  }

  /** Both venues can trade: funded reserves on the side each leg pays into, and
      fees in [0, 1]. */
  predicate RoundTripInputs(amountIn: int, dexA: Pool, dexB: Pool) {
    && amountIn >= 0
    && dexA.reserveIn > 0 && dexA.reserveOut >= 0 && 0.0 <= dexA.fee <= 1.0
    && dexB.reserveOut > 0 && dexB.reserveIn >= 0 && 0.0 <= dexB.fee <= 1.0
  }

  /** Two spot bounds chain: `y * a <= x * b` and `z * c <= y * d` give
      `z * a * c <= x * b * d`. */
  lemma ChainSpotBounds(x: int, y: int, z: int, a: int, b: int, c: int, d: int)
    requires a >= 0 && d >= 0
    requires y * a <= x * b && z * c <= y * d
    ensures z * a * c <= x * b * d
  {
    MulLe(z * c, y * d, a);
    MulLe(y * a, x * b, d);
  }

  /** A round trip returns at most what the two spot prices allow:
      `out * A.in * B.out <= in * A.out * B.in`. */
  lemma RoundTripSpotBound(amountIn: int, dexA: Pool, dexB: Pool)
    requires RoundTripInputs(amountIn, dexA, dexB)
    ensures var z := SimulateRoundTripRaw(amountIn, dexA, dexB);
      && z.Some? && z.value >= 0
      && z.value * dexA.reserveIn * dexB.reserveOut <= amountIn * dexA.reserveOut * dexB.reserveIn
  {
    var fA := FeeNumerator(dexA.fee);
    var fB := FeeNumerator(dexB.fee);
    FeeNumeratorRange(dexA.fee);
    FeeNumeratorRange(dexB.fee);
    var y := GetAmountOutRaw(amountIn, dexA.reserveIn, dexA.reserveOut, fA);
    GetAmountOutRawSpot(amountIn, dexA.reserveIn, dexA.reserveOut, fA, 1000);
    GetAmountOutRawBounds(amountIn, dexA.reserveIn, dexA.reserveOut, fA, 1000);
    var z := GetAmountOutRaw(y.value, dexB.reserveOut, dexB.reserveIn, fB);
    GetAmountOutRawSpot(y.value, dexB.reserveOut, dexB.reserveIn, fB, 1000);
    GetAmountOutRawBounds(y.value, dexB.reserveOut, dexB.reserveIn, fB, 1000);
    ChainSpotBounds(amountIn, y.value, z.value, dexA.reserveIn, dexA.reserveOut, dexB.reserveOut, dexB.reserveIn);
  }

  /** Trading out and straight back on venues with the same reserves never gains. */
  lemma RoundTripSamePoolNoProfit(amountIn: int, dexA: Pool, dexB: Pool)
    requires RoundTripInputs(amountIn, dexA, dexB)
    requires dexA.reserveIn == dexB.reserveIn && dexA.reserveOut == dexB.reserveOut
    ensures var z := SimulateRoundTripRaw(amountIn, dexA, dexB);
      z.Some? && 0 <= z.value <= amountIn
  {
    RoundTripSpotBound(amountIn, dexA, dexB);
    CancelPositive(SimulateRoundTripRaw(amountIn, dexA, dexB).value, amountIn, dexA.reserveIn, dexA.reserveOut);
  }

  lemma CancelPositive(z: int, x: int, p: int, q: int)
    requires p > 0 && q > 0 && z * p * q <= x * q * p
    ensures z <= x
  {
    MulLe(1, p, q);
    MulLeCancel(z, x, p * q);
  }
}

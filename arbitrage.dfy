/** The arbitrage engine: rows of the same pair on different venues are compared
    two at a time, and a fixed-size round trip is simulated on their normalized
    reserves. Numbers are JavaScript numbers (see module Numbers). */
module Arbitrage {
  import opened Wrappers
  import opened Text
  import opened Numbers
  import opened Types

  /** The simulated trade: 1000 units of the pair's lower-addressed token. */
  const TRADE_SIZE: real := 1000.0

  // ---------------------------------------------------------------------------
  // Real arithmetic helpers

  lemma RMulLe(a: real, b: real, c: real)
    requires a <= b && c >= 0.0
    ensures a * c <= b * c
  {
    assert (b - a) * c >= 0.0;
  }

  lemma RMulLt(a: real, b: real, c: real)
    requires a < b && c > 0.0
    ensures a * c < b * c
  {
    assert (b - a) * c > 0.0;
  }

  /** `a <= b * c` with `c > 0` gives `a / c <= b`. */
  lemma RDivLe(a: real, b: real, c: real)
    requires c > 0.0 && a <= b * c
    ensures a / c <= b
  {
    assert (a / c) * c == a;
    if a / c > b {
      RMulLt(b, a / c, c);
    }
  }

  // ---------------------------------------------------------------------------
  // getAmountOut (src/arbitrage.ts:3-6)

  /** getAmountOut on JavaScript numbers. A non-finite input gives NaN: the
      fee-adjusted input is then infinite or NaN, and the quotient of two
      infinities, or anything involving NaN, is NaN. */
  function GetAmountOut(amountIn: Num, reserveIn: real, reserveOut: real, fee: real): (r: Num)
    ensures !amountIn.Finite? ==> r.NaN?
  {
    match amountIn
    case Finite(a) =>
      var amountInWithFee := a * (1.0 - fee);
      Div(reserveOut * amountInWithFee, reserveIn + amountInWithFee)
    case _ => NaN
  }

  /** The arithmetic core of a swap `v = out * w / (in + w)` with `0 <= w <= a`. */
  lemma SwapCore(v: real, w: real, a: real, reserveIn: real, reserveOut: real)
    requires 0.0 <= w <= a && reserveIn > 0.0 && reserveOut >= 0.0
    requires v * (reserveIn + w) == reserveOut * w
    ensures 0.0 <= v <= reserveOut
    ensures reserveOut > 0.0 ==> v < reserveOut
    ensures v * reserveIn <= a * reserveOut
  {
    SwapNonneg(v, reserveIn + w, reserveOut * w);
    if reserveOut > 0.0 {
      SwapBelowReserve(v, w, reserveIn, reserveOut);
    } else {
      SwapFromEmpty(v, reserveIn + w);
    }
    SwapSpot(v, w, a, reserveIn, reserveOut);
  }

  lemma SwapNonneg(v: real, d: real, n: real)
    requires d > 0.0 && n >= 0.0 && v * d == n
    ensures v >= 0.0
  {
    if v < 0.0 {
      RMulLt(v, 0.0, d);
    }
  }

  lemma SwapFromEmpty(v: real, d: real)
    requires d > 0.0 && v >= 0.0 && v * d == 0.0
    ensures v == 0.0
  {
    if v > 0.0 {
      RMulLt(0.0, v, d);
    }
  }

  lemma SwapBelowReserve(v: real, w: real, reserveIn: real, reserveOut: real)
    requires w >= 0.0 && reserveIn > 0.0 && reserveOut > 0.0
    requires v * (reserveIn + w) == reserveOut * w
    ensures v < reserveOut
  {
    if v >= reserveOut {
      RMulLe(reserveOut, v, reserveIn + w);
      assert reserveOut * (reserveIn + w) == reserveOut * reserveIn + reserveOut * w;
      RMulLt(0.0, reserveIn, reserveOut);
      assert false;
    }
  }

  lemma SwapSpot(v: real, w: real, a: real, reserveIn: real, reserveOut: real)
    requires 0.0 <= w <= a && v >= 0.0 && reserveOut >= 0.0
    requires v * (reserveIn + w) == reserveOut * w
    ensures v * reserveIn <= a * reserveOut
  {
    assert v * w >= 0.0;
    assert v * (reserveIn + w) == v * reserveIn + v * w;
    RMulLe(w, a, reserveOut);
  }

  /** The fee-adjusted input of a swap on a funded pool, and what it buys. */
  lemma GetAmountOutValue(amountIn: real, reserveIn: real, reserveOut: real, fee: real)
      returns (w: real, v: real)
    requires amountIn >= 0.0 && reserveIn > 0.0 && reserveOut >= 0.0 && 0.0 <= fee <= 1.0
    ensures w == amountIn * (1.0 - fee) && 0.0 <= w <= amountIn
    ensures GetAmountOut(Finite(amountIn), reserveIn, reserveOut, fee) == Finite(v)
    ensures v >= 0.0 && v * (reserveIn + w) == reserveOut * w
  {
    w := amountIn * (1.0 - fee);
    RMulLe(0.0, 1.0 - fee, amountIn);
    RMulLe(1.0 - fee, 1.0, amountIn);
    RMulLe(0.0, reserveOut, w);
    v := (reserveOut * w) / (reserveIn + w);
  }

  /** On a funded pool with a fee in [0, 1], a non-negative input gives a finite
      output in `[0, reserveOut]`, below `reserveOut` when that is positive, and
      never better than the spot price. */
  lemma GetAmountOutBounds(amountIn: real, reserveIn: real, reserveOut: real, fee: real)
    requires amountIn >= 0.0 && reserveIn > 0.0 && reserveOut >= 0.0 && 0.0 <= fee <= 1.0
    ensures var r := GetAmountOut(Finite(amountIn), reserveIn, reserveOut, fee);
      && r.Finite? && 0.0 <= r.value <= reserveOut
      && (reserveOut > 0.0 ==> r.value < reserveOut)
      && r.value * reserveIn <= amountIn * reserveOut
  {
    var w, v := GetAmountOutValue(amountIn, reserveIn, reserveOut, fee);
    SwapCore(v, w, amountIn, reserveIn, reserveOut);
  }

  /** With non-negative reserves and a fee in [0, 1], the output of a
      non-negative input is NaN or a non-negative finite number. */
  lemma GetAmountOutNonneg(amountIn: Num, reserveIn: real, reserveOut: real, fee: real)
    requires amountIn.Finite? ==> amountIn.value >= 0.0
    requires reserveIn >= 0.0 && reserveOut >= 0.0 && 0.0 <= fee <= 1.0
    ensures var r := GetAmountOut(amountIn, reserveIn, reserveOut, fee);
      r.NaN? || (r.Finite? && r.value >= 0.0)
  {
  }

  /** A larger input never yields a smaller output. */
  lemma GetAmountOutMonotone(amountIn: real, amountIn': real, reserveIn: real, reserveOut: real, fee: real)
    requires 0.0 <= amountIn <= amountIn' && reserveIn > 0.0 && reserveOut >= 0.0 && 0.0 <= fee <= 1.0
    ensures GetAmountOut(Finite(amountIn), reserveIn, reserveOut, fee).Finite?
    ensures GetAmountOut(Finite(amountIn'), reserveIn, reserveOut, fee).Finite?
    ensures GetAmountOut(Finite(amountIn), reserveIn, reserveOut, fee).value
         <= GetAmountOut(Finite(amountIn'), reserveIn, reserveOut, fee).value
  {
    RMulLe(amountIn, amountIn', 1.0 - fee);
    assert amountIn * (1.0 - fee) <= amountIn' * (1.0 - fee);
    var w, v := GetAmountOutValue(amountIn, reserveIn, reserveOut, fee);
    var w', v' := GetAmountOutValue(amountIn', reserveIn, reserveOut, fee);
    SwapCore(v, w, amountIn, reserveIn, reserveOut);
    MonotoneCore(v, v', w, w', reserveIn, reserveOut);
  }

  /** The arithmetic core of monotonicity: `v * in = w * (out - v)` grows with `w`. */
  lemma MonotoneCore(v: real, v': real, w: real, w': real, reserveIn: real, reserveOut: real)
    requires 0.0 <= w <= w' && reserveIn > 0.0 && v <= reserveOut
    requires v * (reserveIn + w) == reserveOut * w
    requires v' * (reserveIn + w') == reserveOut * w'
    ensures v <= v'
  {
    if v > v' {
      assert v * reserveIn == w * (reserveOut - v);
      assert v' * reserveIn == w' * (reserveOut - v');
      RMulLe(w, w', reserveOut - v);
      RMulLe(reserveOut - v, reserveOut - v', w');
      RMulLt(v', v, reserveIn);
    }
  }

  /** Two legs chain their spot bounds: with `v1 * aIn <= x * aOut` and
      `v2 * bIn <= v1 * bOut`, `v2 * (bIn / bOut) <= x * (aOut / aIn)`. */
  lemma ChainSpotBounds(x: real, v1: real, v2: real, aIn: real, aOut: real, bIn: real, bOut: real)
    requires aIn > 0.0 && bOut > 0.0
    requires v1 * aIn <= x * aOut && v2 * bIn <= v1 * bOut
    ensures v2 * (bIn / bOut) <= x * (aOut / aIn)
  {
    RDivLe(v2 * bIn, v1, bOut);
    assert v2 * (bIn / bOut) == (v2 * bIn) / bOut;
    RDivLe(v1 * aIn, x * aOut / aIn, aIn) by {
      assert (x * aOut / aIn) * aIn == x * aOut;
    }
    assert v1 == (v1 * aIn) / aIn;
    assert x * (aOut / aIn) == x * aOut / aIn;
  }

  // ---------------------------------------------------------------------------
  // Pair matching (src/arbitrage.ts:9-20)

  /** normalizePair: both addresses lowercased, the smaller first. */
  function NormalizePair(token0: string, token1: string): (string, string) {
    if LexLess(Lower(token0), Lower(token1))
    then (Lower(token0), Lower(token1))
    else (Lower(token1), Lower(token0))
  }

  /** The normalized pair is the two lowercased addresses, in order. */
  lemma NormalizePairSorted(token0: string, token1: string)
    ensures var r := NormalizePair(token0, token1);
      && IsLower(r.0) && IsLower(r.1)
      && LexLessEq(r.0, r.1)
      && multiset{r.0, r.1} == multiset{Lower(token0), Lower(token1)}
  {
    LowerAt(token0);
    LowerAt(token1);
    if !LexLess(Lower(token0), Lower(token1)) {
      NotLessMeansGreaterEq(Lower(token0), Lower(token1));
    }
  }

  /** The argument order does not matter. */
  lemma NormalizePairSymmetric(token0: string, token1: string)
    ensures NormalizePair(token0, token1) == NormalizePair(token1, token0)
  {
    var l0, l1 := Lower(token0), Lower(token1);
    if l0 != l1 {
      LexTotal(l0, l1);
      LexAsymmetric(l0, l1);
    }
  }

  /** Letter case does not matter. */
  lemma NormalizePairCaseInsensitive(token0: string, token1: string)
    ensures NormalizePair(Lower(token0), Lower(token1)) == NormalizePair(token0, token1)
  {
    LowerIdempotent(token0);
    LowerIdempotent(token1);
  }

  /** Two ordered pairs holding the same two strings are equal. */
  lemma SortedPairUnique(x0: string, x1: string, y0: string, y1: string)
    requires LexLessEq(x0, x1) && LexLessEq(y0, y1)
    requires multiset{x0, x1} == multiset{y0, y1}
    ensures x0 == y0 && x1 == y1
  {
    assert x0 in multiset{y0, y1} && y0 in multiset{x0, x1};
    if x0 != y0 {
      assert x0 == y1 && y0 == x1;
      LexAsymmetric(x0, x1);
    } else {
      assert multiset{x1} == multiset{x0, x1} - multiset{x0};
      assert multiset{y1} == multiset{y0, y1} - multiset{y0};
      assert x1 in multiset{y1};
    }
  }

  /** A missing token is read as `''`. */
  function TokenText(t: Option<string>): string {
    if t.Some? then t.value else ""
  }

  /** isSamePair: the normalized token pairs of the two rows agree. */
  predicate IsSamePair(dexA: ReserveWithFee, dexB: ReserveWithFee) {
    NormalizePair(TokenText(dexA.reserve.token0), TokenText(dexA.reserve.token1))
      == NormalizePair(TokenText(dexB.reserve.token0), TokenText(dexB.reserve.token1))
  }

  /** The two lowercased tokens of a row, as a multiset. */
  function LowerTokens(r: ReserveWithFee): multiset<string> {
    multiset{Lower(TokenText(r.reserve.token0)), Lower(TokenText(r.reserve.token1))}
  }

  /** Two rows are the same pair exactly when they hold the same two
      addresses up to letter case, in either order. */
  lemma IsSamePairIff(dexA: ReserveWithFee, dexB: ReserveWithFee)
    ensures IsSamePair(dexA, dexB) <==> LowerTokens(dexA) == LowerTokens(dexB)
  {
    var a0, a1 := TokenText(dexA.reserve.token0), TokenText(dexA.reserve.token1);
    var b0, b1 := TokenText(dexB.reserve.token0), TokenText(dexB.reserve.token1);
    NormalizePairSorted(a0, a1);
    NormalizePairSorted(b0, b1);
    var na, nb := NormalizePair(a0, a1), NormalizePair(b0, b1);
    if LowerTokens(dexA) == LowerTokens(dexB) {
      SortedPairUnique(na.0, na.1, nb.0, nb.1);
    }
  }

  /** The same pool seen with its two tokens listed the other way round. */
  function SwapTokens(r: ReserveWithFee): ReserveWithFee {
    var row := r.reserve;
    ReserveWithFee(row.(token0 := row.token1, token1 := row.token0,
                        reserve0 := row.reserve1, reserve1 := row.reserve0,
                        decimals0 := row.decimals1, decimals1 := row.decimals0), r.fee)
  }

  /** isSamePair is symmetric and ignores the token order of either row. */
  lemma IsSamePairSymmetric(dexA: ReserveWithFee, dexB: ReserveWithFee)
    ensures IsSamePair(dexA, dexB) == IsSamePair(dexB, dexA)
    ensures IsSamePair(SwapTokens(dexA), dexB) == IsSamePair(dexA, dexB)
    ensures IsSamePair(dexA, SwapTokens(dexB)) == IsSamePair(dexA, dexB)
  {
    NormalizePairSymmetric(TokenText(dexA.reserve.token0), TokenText(dexA.reserve.token1));
    NormalizePairSymmetric(TokenText(dexB.reserve.token0), TokenText(dexB.reserve.token1));
  }

  // ---------------------------------------------------------------------------
  // Normalized reserves (src/arbitrage.ts:23-41)

  datatype NormalizedReserves = NormalizedReserves(
    tokenA: Option<string>, tokenB: Option<string>, reserveA: real, reserveB: real)

  /** `10 ** n`. */
  function Pow10(n: nat): (p: real)
    ensures p >= 1.0
  {
    if n == 0 then 1.0 else 10.0 * Pow10(n - 1)
  }

  /** `x / 10 ** n`, one decimal place at a time. */
  function ShiftDecimals(x: real, n: nat): (r: real)
    ensures x >= 0.0 ==> r >= 0.0
  {
    if n == 0 then x else ShiftDecimals(x, n - 1) / 10.0
  }

  /** Shifting by `n` places divides by `10 ** n`. */
  lemma {:induction false} ShiftDecimalsIsQuotient(x: real, n: nat)
    ensures ShiftDecimals(x, n) * Pow10(n) == x
  {
    if n > 0 {
      ShiftDecimalsIsQuotient(x, n - 1);
      var s, p := ShiftDecimals(x, n - 1), Pow10(n - 1);
      assert ShiftDecimals(x, n) * Pow10(n) == (s / 10.0) * (10.0 * p);
      assert (s / 10.0) * (10.0 * p) == s * p;
    }
  }

  /** `decimals || 18`: a missing or zero count falls back to 18. */
  function DecimalsOrDefault(decimals: Option<nat>): (n: nat)
    ensures n > 0
    ensures decimals.Some? && decimals.value != 0 ==> n == decimals.value
    ensures decimals.None? || decimals == Some(0) ==> n == 18
  {
    if decimals.Some? && decimals.value != 0 then decimals.value else 18
  }

  /** The raw reserve as a number: `Number(null)` is 0. */
  function RawAmount(raw: Option<nat>): real {
    if raw.Some? then raw.value as real else 0.0
  }

  /** `Number(raw) / 10 ** (decimals || 18)`. */
  function Scaled(raw: Option<nat>, decimals: Option<nat>): (x: real)
    ensures x >= 0.0
  {
    ShiftDecimals(RawAmount(raw), DecimalsOrDefault(decimals))
  }

  /** getNormalizedReserves: the row's tokens and scaled reserves, lower
      address first. */
  function GetNormalizedReserves(r: ReserveWithFee): (n: NormalizedReserves)
    ensures n.reserveA >= 0.0 && n.reserveB >= 0.0
  {
    var row := r.reserve;
    var token0Lower := Lower(TokenText(row.token0));
    var token1Lower := Lower(TokenText(row.token1));
    if LexLess(token0Lower, token1Lower)
    then NormalizedReserves(row.token0, row.token1, Scaled(row.reserve0, row.decimals0), Scaled(row.reserve1, row.decimals1))
    else NormalizedReserves(row.token1, row.token0, Scaled(row.reserve1, row.decimals1), Scaled(row.reserve0, row.decimals0))
  }

  /** The lower-addressed token comes first, each reserve stays with its own
      token, and both reserves are non-negative. */
  lemma GetNormalizedReservesOrder(r: ReserveWithFee)
    ensures var n := GetNormalizedReserves(r);
      var row := r.reserve;
      && LexLessEq(Lower(TokenText(n.tokenA)), Lower(TokenText(n.tokenB)))
      && (Lower(TokenText(n.tokenA)), Lower(TokenText(n.tokenB)))
           == NormalizePair(TokenText(row.token0), TokenText(row.token1))
      && ((n.tokenA, n.reserveA, n.tokenB, n.reserveB)
            == (row.token0, Scaled(row.reserve0, row.decimals0), row.token1, Scaled(row.reserve1, row.decimals1))
          || (n.tokenA, n.reserveA, n.tokenB, n.reserveB)
            == (row.token1, Scaled(row.reserve1, row.decimals1), row.token0, Scaled(row.reserve0, row.decimals0)))
      && n.reserveA >= 0.0 && n.reserveB >= 0.0
  {
    var l0 := Lower(TokenText(r.reserve.token0));
    var l1 := Lower(TokenText(r.reserve.token1));
    if !LexLess(l0, l1) {
      NotLessMeansGreaterEq(l0, l1);
    }
  }

  /** Listing a pool's tokens the other way round does not change its
      normalized reserves, as long as the two addresses differ. */
  lemma GetNormalizedReservesSwap(r: ReserveWithFee)
    requires Lower(TokenText(r.reserve.token0)) != Lower(TokenText(r.reserve.token1))
    ensures GetNormalizedReserves(SwapTokens(r)) == GetNormalizedReserves(r)
  {
    var l0 := Lower(TokenText(r.reserve.token0));
    var l1 := Lower(TokenText(r.reserve.token1));
    LexTotal(l0, l1);
    LexAsymmetric(l0, l1);
  }

  // ---------------------------------------------------------------------------
  // calculateArbitrage (src/arbitrage.ts:44-157)

  /** Which way the round trip is simulated. `AsWritten` is the source's: the
      trade size is sold on the cheaper venue and bought back on the dearer one.
      `Corrected` sells on the dearer venue and buys back on the cheaper one. */
  datatype Route = AsWritten | Corrected

  /** A row takes part only when both of its tokens are non-empty. */
  predicate Usable(r: ReserveWithFee) {
    r.reserve.token0.Some? && r.reserve.token0.value != ""
    && r.reserve.token1.Some? && r.reserve.token1.value != ""
  }

  /** Units of the second token per unit of the first. */
  function Price(n: NormalizedReserves): Num {
    Div(n.reserveB, n.reserveA)
  }

  /** One swap of a path: the pool's input reserve, output reserve and fee. */
  datatype Hop = Hop(reserveIn: real, reserveOut: real, fee: real)

  /** The amount a path of swaps turns `amount` into, each hop's output being
      the next hop's input. */
  function Swaps(amount: Num, hops: seq<Hop>): Num
    decreases |hops|
  {
    if |hops| == 0 then amount
    else Swaps(GetAmountOut(amount, hops[0].reserveIn, hops[0].reserveOut, hops[0].fee), hops[1..])
  }

  /** A path of two swaps feeds the first one's output to the second. */
  lemma TwoSwaps(amount: Num, first: Hop, second: Hop)
    ensures Swaps(amount, [first, second])
         == GetAmountOut(GetAmountOut(amount, first.reserveIn, first.reserveOut, first.fee),
                         second.reserveIn, second.reserveOut, second.fee)
  {
    var mid := GetAmountOut(amount, first.reserveIn, first.reserveOut, first.fee);
    assert [first, second][1..] == [second];
    assert Swaps(amount, [first, second]) == Swaps(mid, [second]);
    assert [second][1..] == [];
    assert Swaps(mid, [second]) == Swaps(GetAmountOut(mid, second.reserveIn, second.reserveOut, second.fee), []);
  }

  /** The two swaps of a round trip when the first token is bought on `normBuy`
      and sold on `normSell`: on the source's route the trade size is sold on
      the buy venue and bought back on the sell venue; on the corrected one the
      other way round. */
  function RouteHops(normBuy: NormalizedReserves, normSell: NormalizedReserves,
                     feeBuy: real, feeSell: real, route: Route): seq<Hop> {
    match route
    case AsWritten =>
      [Hop(normBuy.reserveA, normBuy.reserveB, feeBuy), Hop(normSell.reserveB, normSell.reserveA, feeSell)]
    case Corrected =>
      [Hop(normSell.reserveA, normSell.reserveB, feeSell), Hop(normBuy.reserveB, normBuy.reserveA, feeBuy)]
  }

  /** The amount of the first token a round trip of `TRADE_SIZE` brings back. */
  function RoundTrip(normBuy: NormalizedReserves, normSell: NormalizedReserves,
                     feeBuy: real, feeSell: real, route: Route): Num {
    Swaps(Finite(TRADE_SIZE), RouteHops(normBuy, normSell, feeBuy, feeSell, route))
  }

  /** The emitted record: the buy-side row with its tokens in normalized order. */
  function Opportunity(buy: ReserveWithFee, sell: ReserveWithFee, normBuy: NormalizedReserves,
                       priceBuy: Num, priceSell: Num, profit: Num): ArbitrageOpportunity {
    ArbitrageOpportunity(
      ReserveWithFee(buy.reserve.(token0 := normBuy.tokenA, token1 := normBuy.tokenB), buy.fee),
      buy.reserve.dex, sell.reserve.dex, priceBuy, priceSell, profit,
      Times(Over(profit, TRADE_SIZE), 100.0))
  }

  /** One direction of a comparison: an opportunity when the profit is positive. */
  function Leg(buy: ReserveWithFee, sell: ReserveWithFee, route: Route): (opps: seq<ArbitrageOpportunity>)
    ensures |opps| <= 1
    ensures |opps| == 1 ==> && opps[0].buyFrom == buy.reserve.dex && opps[0].sellTo == sell.reserve.dex
                            && Less(Finite(0.0), opps[0].profit)
  {
    var normBuy := GetNormalizedReserves(buy);
    var normSell := GetNormalizedReserves(sell);
    var profit := Minus(RoundTrip(normBuy, normSell, buy.fee, sell.fee, route), TRADE_SIZE);
    if Less(Finite(0.0), profit)
    then [Opportunity(buy, sell, normBuy, Price(normBuy), Price(normSell), profit)]
    else []
  }

  /** The comparison of rows `dexA` and `dexB`: skipped unless both are usable
      and the same pair; otherwise the direction whose buy price is strictly
      lower is simulated. At most one opportunity results. */
  function Compare(dexA: ReserveWithFee, dexB: ReserveWithFee, route: Route): (opps: seq<ArbitrageOpportunity>)
    ensures |opps| <= 1
  {
    if !Usable(dexA) || !Usable(dexB) || !IsSamePair(dexA, dexB) then []
    else
      var priceA := Price(GetNormalizedReserves(dexA));
      var priceB := Price(GetNormalizedReserves(dexB));
      LessAsymmetric(priceA, priceB);
      (if Less(priceA, priceB) then Leg(dexA, dexB, route) else [])
        + (if Less(priceB, priceA) then Leg(dexB, dexA, route) else [])
  }

  // Where an element of a pairwise combination comes from, proved once for
  // any combining function `f` so that the comparison itself stays out of sight.

  /** What `f` yields for row `i` against rows `i + 1 .. j - 1`, in order. */
  function PairsRow<T, U>(rs: seq<T>, i: nat, j: nat, f: (T, T) -> seq<U>): seq<U>
    requires i < |rs| && j <= |rs|
    decreases j
  {
    if j <= i + 1 then [] else PairsRow(rs, i, j - 1, f) + f(rs[i], rs[j - 1])
  }

  /** What `f` yields for rows `0 .. n - 1` against every later row, in order. */
  function Pairs<T, U>(rs: seq<T>, n: nat, f: (T, T) -> seq<U>): seq<U>
    requires n <= |rs|
  {
    if n == 0 then [] else Pairs(rs, n - 1, f) + PairsRow(rs, n - 1, |rs|, f)
  }

  /** The column `k` of row `i` whose application of `f` produced `o`. */
  lemma {:induction false} PairsRowMember<T, U>(rs: seq<T>, i: nat, j: nat, f: (T, T) -> seq<U>, o: U)
      returns (k: nat)
    requires i < |rs| && j <= |rs| && o in PairsRow(rs, i, j, f)
    ensures i < k < j && o in f(rs[i], rs[k])
    decreases j
  {
    if o in f(rs[i], rs[j - 1]) {
      k := j - 1;
    } else {
      k := PairsRowMember(rs, i, j - 1, f, o);
    }
  }

  /** The row `i < n` and column `k > i` whose application of `f` produced `o`. */
  lemma {:induction false} PairsMember<T, U>(rs: seq<T>, n: nat, f: (T, T) -> seq<U>, o: U)
      returns (i: nat, k: nat)
    requires n <= |rs| && o in Pairs(rs, n, f)
    ensures i < n && i < k < |rs| && o in f(rs[i], rs[k])
  {
    if o in PairsRow(rs, n - 1, |rs|, f) {
      i := n - 1;
      k := PairsRowMember(rs, n - 1, |rs|, f, o);
    } else {
      i, k := PairsMember(rs, n - 1, f, o);
    }
  }

  /** Conversely, whatever `f` yields for row `i` and a column `i < k < j`
      appears in the row's result. */
  lemma {:induction false} PairsRowComplete<T, U>(rs: seq<T>, i: nat, j: nat, k: nat, f: (T, T) -> seq<U>, o: U)
    requires i < k < j <= |rs| && o in f(rs[i], rs[k])
    ensures o in PairsRow(rs, i, j, f)
    decreases j
  {
    if k < j - 1 {
      PairsRowComplete(rs, i, j - 1, k, f, o);
    }
  }

  /** Whatever `f` yields for a row `i < n` and a later column `k` appears in
      the double loop's result. */
  lemma {:induction false} PairsComplete<T, U>(rs: seq<T>, n: nat, i: nat, k: nat, f: (T, T) -> seq<U>, o: U)
    requires i < n <= |rs| && i < k < |rs| && o in f(rs[i], rs[k])
    ensures o in Pairs(rs, n, f)
  {
    var earlier, last := Pairs(rs, n - 1, f), PairsRow(rs, n - 1, |rs|, f);
    if i == n - 1 {
      PairsRowComplete(rs, i, |rs|, k, f, o);
      assert o in earlier + last;
    } else {
      PairsComplete(rs, n - 1, i, k, f, o);
      assert o in earlier + last;
    }
  }

  /** The comparison on one route, as a function of the two rows. */
  function CompareOn(route: Route): (ReserveWithFee, ReserveWithFee) -> seq<ArbitrageOpportunity> {
    (a, b) => Compare(a, b, route)
  }

  /** calculateArbitrage's result: every pair of rows `i < j` compared, in the
      order of the double loop. */
  function ArbitrageSpec(rs: seq<ReserveWithFee>, route: Route): seq<ArbitrageOpportunity> {
    Pairs(rs, |rs|, CompareOn(route))
  }

  // The double loop and its body are proved against a comparison `cmp` that
  // agrees with `Compare` wherever `Compare` itself is mentioned, so that the
  // loops' reasoning never unfolds what a comparison computes.

  /** One comparison of the double loop, on the corrected route: its result is
      `Compare(dexA, dexB, Corrected)`. */
  method CompareVenues(dexA: ReserveWithFee, dexB: ReserveWithFee,
                       ghost cmp: (ReserveWithFee, ReserveWithFee) -> seq<ArbitrageOpportunity>)
      returns (found: seq<ArbitrageOpportunity>)
    requires forall a, b {:trigger Compare(a, b, Corrected)} :: cmp(a, b) == Compare(a, b, Corrected)
    ensures found == cmp(dexA, dexB)
  {
    ghost var expected := Compare(dexA, dexB, Corrected);
    found := [];
    if !Usable(dexA) || !Usable(dexB) {
      return;
    }
    if !IsSamePair(dexA, dexB) {
      return;
    }
    var normA := GetNormalizedReserves(dexA);
    var normB := GetNormalizedReserves(dexB);
    var priceA := Div(normA.reserveB, normA.reserveA);
    var priceB := Div(normB.reserveB, normB.reserveA);
    LessAsymmetric(priceA, priceB);
    if Less(priceA, priceB) {
      // tokenA is cheaper on A: sell the trade size on B, buy it back on A
      var tokenBOut := GetAmountOut(Finite(TRADE_SIZE), normB.reserveA, normB.reserveB, dexB.fee);
      var tokenABack := GetAmountOut(tokenBOut, normA.reserveB, normA.reserveA, dexA.fee);
      TwoSwaps(Finite(TRADE_SIZE), Hop(normB.reserveA, normB.reserveB, dexB.fee), Hop(normA.reserveB, normA.reserveA, dexA.fee));
      var profit := Minus(tokenABack, TRADE_SIZE);
      var profitPercent := Times(Over(profit, TRADE_SIZE), 100.0);
      if Less(Finite(0.0), profit) {
        var record := ReserveWithFee(dexA.reserve.(token0 := normA.tokenA, token1 := normA.tokenB), dexA.fee);
        found := found + [ArbitrageOpportunity(record, dexA.reserve.dex, dexB.reserve.dex,
                                               priceA, priceB, profit, profitPercent)];
      }
    }
    if Less(priceB, priceA) {
      // tokenA is cheaper on B: sell the trade size on A, buy it back on B
      var tokenBOut := GetAmountOut(Finite(TRADE_SIZE), normA.reserveA, normA.reserveB, dexA.fee);
      var tokenABack := GetAmountOut(tokenBOut, normB.reserveB, normB.reserveA, dexB.fee);
      TwoSwaps(Finite(TRADE_SIZE), Hop(normA.reserveA, normA.reserveB, dexA.fee), Hop(normB.reserveB, normB.reserveA, dexB.fee));
      var profit := Minus(tokenABack, TRADE_SIZE);
      var profitPercent := Times(Over(profit, TRADE_SIZE), 100.0);
      if Less(Finite(0.0), profit) {
        var record := ReserveWithFee(dexB.reserve.(token0 := normB.tokenA, token1 := normB.tokenB), dexB.fee);
        found := found + [ArbitrageOpportunity(record, dexB.reserve.dex, dexA.reserve.dex,
                                               priceB, priceA, profit, profitPercent)];
      }
    }
  }

  /** The inner loop of calculateArbitrage: row `i` against every later row. */
  method CompareWithLater(reserves: seq<ReserveWithFee>, i: nat,
                          ghost cmp: (ReserveWithFee, ReserveWithFee) -> seq<ArbitrageOpportunity>)
      returns (found: seq<ArbitrageOpportunity>)
    requires i < |reserves|
    requires forall a, b {:trigger Compare(a, b, Corrected)} :: cmp(a, b) == Compare(a, b, Corrected)
    ensures found == PairsRow(reserves, i, |reserves|, cmp)
  {
    found := [];
    var j := i + 1;
    while j < |reserves|
      invariant i + 1 <= j <= |reserves|
      invariant found == PairsRow(reserves, i, j, cmp)
    {
      var pairFound := CompareVenues(reserves[i], reserves[j], cmp);
      assert PairsRow(reserves, i, j + 1, cmp) == PairsRow(reserves, i, j, cmp) + cmp(reserves[i], reserves[j]);
      found := found + pairFound;
      j := j + 1;
    }
  }

  /** The outer loop of calculateArbitrage: every row against every later row. */
  method CompareAll(reserves: seq<ReserveWithFee>,
                    ghost cmp: (ReserveWithFee, ReserveWithFee) -> seq<ArbitrageOpportunity>)
      returns (opportunities: seq<ArbitrageOpportunity>)
    requires forall a, b {:trigger Compare(a, b, Corrected)} :: cmp(a, b) == Compare(a, b, Corrected)
    ensures opportunities == Pairs(reserves, |reserves|, cmp)
  {
    opportunities := [];
    var i := 0;
    while i < |reserves|
      invariant 0 <= i <= |reserves|
      invariant opportunities == Pairs(reserves, i, cmp)
    {
      var found := CompareWithLater(reserves, i, cmp);
      assert Pairs(reserves, i + 1, cmp) == Pairs(reserves, i, cmp) + PairsRow(reserves, i, |reserves|, cmp);
      opportunities := opportunities + found;
      i := i + 1;
    }
  }

  /** calculateArbitrage: every pair of rows `i < j`, in loop order, on the
      corrected route. */
  method CalculateArbitrage(reserves: seq<ReserveWithFee>) returns (opportunities: seq<ArbitrageOpportunity>)
    ensures opportunities == ArbitrageSpec(reserves, Corrected)
  {
    opportunities := CompareAll(reserves, CompareOn(Corrected));
  }

  // ---------------------------------------------------------------------------
  // Properties of the comparison

  /** What every emitted opportunity satisfies. */
  predicate WellFormedOpportunity(o: ArbitrageOpportunity) {
    && Less(Finite(0.0), o.profit)
    && Less(o.priceBuy, o.priceSell)
    && o.profitPercent == Times(Over(o.profit, TRADE_SIZE), 100.0)
    && LexLessEq(Lower(TokenText(o.record.reserve.token0)), Lower(TokenText(o.record.reserve.token1)))
  }

  /** `o` comes from comparing rows `a` and `b`: both usable, the same pair, and
      `o` buys on one of them and sells on the other. */
  predicate ComesFrom(o: ArbitrageOpportunity, a: ReserveWithFee, b: ReserveWithFee) {
    && Usable(a) && Usable(b) && IsSamePair(a, b)
    && ((o.buyFrom == a.reserve.dex && o.sellTo == b.reserve.dex && o.record.fee == a.fee)
        || (o.buyFrom == b.reserve.dex && o.sellTo == a.reserve.dex && o.record.fee == b.fee))
  }

  /** Every opportunity of one comparison is well formed and comes from it. */
  lemma CompareFacts(a: ReserveWithFee, b: ReserveWithFee, route: Route, o: ArbitrageOpportunity)
    requires o in Compare(a, b, route)
    ensures WellFormedOpportunity(o) && ComesFrom(o, a, b)
  {
    GetNormalizedReservesOrder(a);
    GetNormalizedReservesOrder(b);
  }

  /** Equal prices on the two rows give nothing. */
  lemma EqualPricesNothing(a: ReserveWithFee, b: ReserveWithFee, route: Route)
    requires Price(GetNormalizedReserves(a)) == Price(GetNormalizedReserves(b))
    ensures Compare(a, b, route) == []
  {
    var p := Price(GetNormalizedReserves(a));
    LessAsymmetric(p, p);
  }

  /** Every opportunity of the double loop comes from one comparison of rows `i < j`. */
  lemma ArbitrageSpecMember(rs: seq<ReserveWithFee>, route: Route, o: ArbitrageOpportunity)
      returns (i: nat, j: nat)
    requires o in ArbitrageSpec(rs, route)
    ensures i < j < |rs| && o in Compare(rs[i], rs[j], route)
  {
    i, j := PairsMember(rs, |rs|, CompareOn(route), o);
    assert CompareOn(route)(rs[i], rs[j]) == Compare(rs[i], rs[j], route);
  }

  /** Every opportunity of comparing rows `i < j` is reported: together with
      `ArbitrageSpecMember`, the result holds exactly the comparisons' opportunities. */
  lemma ArbitrageSpecComplete(rs: seq<ReserveWithFee>, route: Route, i: nat, j: nat, o: ArbitrageOpportunity)
    requires i < j < |rs| && o in Compare(rs[i], rs[j], route)
    ensures o in ArbitrageSpec(rs, route)
  {
    assert CompareOn(route)(rs[i], rs[j]) == Compare(rs[i], rs[j], route);
    PairsComplete(rs, |rs|, i, j, CompareOn(route), o);
  }

  /** Every opportunity is well formed and comes from comparing two rows
      `i < j` that hold the same pair. */
  lemma ArbitrageSpecFacts(rs: seq<ReserveWithFee>, route: Route, o: ArbitrageOpportunity)
    requires o in ArbitrageSpec(rs, route)
    ensures WellFormedOpportunity(o)
    ensures exists i, j :: 0 <= i < j < |rs| && ComesFrom(o, rs[i], rs[j])
  {
    var i, j := ArbitrageSpecMember(rs, route, o);
    CompareFacts(rs[i], rs[j], route, o);
  }

  /** Fees are fractions in [0, 1]. */
  predicate FeeInRange(r: ReserveWithFee) {
    0.0 <= r.fee <= 1.0
  }

  /** The price of a normalized pool with non-negative reserves is finite
      exactly when its first reserve is positive, and never negative. */
  lemma PriceFacts(n: NormalizedReserves)
    requires n.reserveA >= 0.0 && n.reserveB >= 0.0
    ensures Price(n).Finite? <==> n.reserveA > 0.0
    ensures Price(n).Finite? ==> Price(n).value >= 0.0
    ensures !Price(n).NegInfinity?
  {
  }

  /** The arithmetic of the source's direction on two normalized pools with
      non-negative reserves: buying where the price is lower and selling back
      where it is higher returns no more than the trade size. */
  lemma AsWrittenRoundTripLoses(nb: NormalizedReserves, ns: NormalizedReserves, feeBuy: real, feeSell: real)
    requires nb.reserveA >= 0.0 && nb.reserveB >= 0.0 && ns.reserveA >= 0.0 && ns.reserveB >= 0.0
    requires 0.0 <= feeBuy <= 1.0 && 0.0 <= feeSell <= 1.0
    requires Less(Price(nb), Price(ns))
    ensures !Less(Finite(0.0), Minus(RoundTrip(nb, ns, feeBuy, feeSell, AsWritten), TRADE_SIZE))
  {
    assert nb.reserveA > 0.0 && ns.reserveB > 0.0;
    assert ns.reserveA > 0.0 ==> nb.reserveB / nb.reserveA < ns.reserveB / ns.reserveA;
    var w1, x1 := GetAmountOutValue(TRADE_SIZE, nb.reserveA, nb.reserveB, feeBuy);
    var w2, x2 := GetAmountOutValue(x1, ns.reserveB, ns.reserveA, feeSell);
    AsWrittenArith(x1, w1, x2, w2, nb.reserveA, nb.reserveB, ns.reserveA, ns.reserveB);
    TwoSwaps(Finite(TRADE_SIZE), Hop(nb.reserveA, nb.reserveB, feeBuy), Hop(ns.reserveB, ns.reserveA, feeSell));
    assert RoundTrip(nb, ns, feeBuy, feeSell, AsWritten) == Finite(x2);
  }

  /** The arithmetic of the two legs of the source's round trip. */
  lemma AsWrittenArith(x1: real, w1: real, x2: real, w2: real, bIn: real, bOut: real, sIn: real, sOut: real)
    requires bIn > 0.0 && bOut >= 0.0 && sIn >= 0.0 && sOut > 0.0
    requires 0.0 <= w1 <= TRADE_SIZE && x1 * (bIn + w1) == bOut * w1
    requires 0.0 <= w2 <= x1 && x2 * (sOut + w2) == sIn * w2
    requires sIn > 0.0 ==> bOut / bIn < sOut / sIn
    ensures x2 < TRADE_SIZE
  {
    SwapCore(x1, w1, TRADE_SIZE, bIn, bOut);
    SwapCore(x2, w2, x1, sOut, sIn);
    if sIn > 0.0 {
      LosingRoundTrip(x1, x2, bIn, bOut, sIn, sOut);
    }
  }

  /** Two legs whose spot bounds chain the wrong way round: buying at
      `bOut / bIn` and selling back at `sOut / sIn < ...` returns less. */
  lemma LosingRoundTrip(x1: real, x2: real, bIn: real, bOut: real, sIn: real, sOut: real)
    requires bIn > 0.0 && sIn > 0.0 && sOut > 0.0
    requires x1 * bIn <= TRADE_SIZE * bOut && x2 * sOut <= x1 * sIn
    requires bOut / bIn < sOut / sIn
    ensures x2 < TRADE_SIZE
  {
    // x2 * priceSell <= TRADE_SIZE * priceBuy < TRADE_SIZE * priceSell
    var pb := bOut / bIn;
    var ps := sOut / sIn;
    ChainSpotBounds(TRADE_SIZE, x1, x2, bIn, bOut, sOut, sIn);
    RMulLt(pb, ps, TRADE_SIZE);
    if x2 >= TRADE_SIZE {
      RMulLe(TRADE_SIZE, x2, ps);
    }
  }

  /** The source's direction never gains: with fees in [0, 1], buying the
      trade size back on the dearer venue returns less than it started with. */
  lemma AsWrittenLegLoses(buy: ReserveWithFee, sell: ReserveWithFee)
    requires FeeInRange(buy) && FeeInRange(sell)
    requires Less(Price(GetNormalizedReserves(buy)), Price(GetNormalizedReserves(sell)))
    ensures Leg(buy, sell, AsWritten) == []
  {
    AsWrittenRoundTripLoses(GetNormalizedReserves(buy), GetNormalizedReserves(sell), buy.fee, sell.fee);
  }

  /** With fees in [0, 1] the comparison as written emits nothing. */
  lemma AsWrittenCompareEmpty(a: ReserveWithFee, b: ReserveWithFee)
    requires FeeInRange(a) && FeeInRange(b)
    ensures Compare(a, b, AsWritten) == []
  {
    var pa := Price(GetNormalizedReserves(a));
    var pb := Price(GetNormalizedReserves(b));
    if Less(pa, pb) {
      AsWrittenLegLoses(a, b);
    }
    if Less(pb, pa) {
      AsWrittenLegLoses(b, a);
    }
  }

  /** With fees in [0, 1], calculateArbitrage as written never reports an
      opportunity, whatever the reserves. */
  lemma AsWrittenNeverEmits(rs: seq<ReserveWithFee>)
    requires forall i :: 0 <= i < |rs| ==> FeeInRange(rs[i])
    ensures ArbitrageSpec(rs, AsWritten) == []
  {
    if ArbitrageSpec(rs, AsWritten) != [] {
      var o := ArbitrageSpec(rs, AsWritten)[0];
      var i, j := ArbitrageSpecMember(rs, AsWritten, o);
      AsWrittenCompareEmpty(rs[i], rs[j]);
    }
  }

  /** The arithmetic of the corrected round trip on two normalized pools with
      non-negative reserves: a positive profit is finite and bounded by the
      spot prices, `roundTrip * priceBuy <= TRADE_SIZE * priceSell`. */
  lemma CorrectedRoundTripBound(nb: NormalizedReserves, ns: NormalizedReserves, feeBuy: real, feeSell: real)
    requires nb.reserveA >= 0.0 && nb.reserveB >= 0.0 && ns.reserveA >= 0.0 && ns.reserveB >= 0.0
    requires 0.0 <= feeBuy <= 1.0 && 0.0 <= feeSell <= 1.0
    requires Less(Price(nb), Price(ns))
    requires Less(Finite(0.0), Minus(RoundTrip(nb, ns, feeBuy, feeSell, Corrected), TRADE_SIZE))
    ensures var back := RoundTrip(nb, ns, feeBuy, feeSell, Corrected);
      && back.Finite? && Price(nb).Finite?
      && (Price(ns).Finite? ==> back.value * Price(nb).value <= TRADE_SIZE * Price(ns).value)
  {
    assert nb.reserveA > 0.0;
    var v1 := GetAmountOut(Finite(TRADE_SIZE), ns.reserveA, ns.reserveB, feeSell);
    GetAmountOutNonneg(Finite(TRADE_SIZE), ns.reserveA, ns.reserveB, feeSell);
    GetAmountOutNonneg(v1, nb.reserveB, nb.reserveA, feeBuy);
    TwoSwaps(Finite(TRADE_SIZE), Hop(ns.reserveA, ns.reserveB, feeSell), Hop(nb.reserveB, nb.reserveA, feeBuy));
    assert RoundTrip(nb, ns, feeBuy, feeSell, Corrected) == GetAmountOut(v1, nb.reserveB, nb.reserveA, feeBuy);
    if ns.reserveA > 0.0 {
      var w1, x1 := GetAmountOutValue(TRADE_SIZE, ns.reserveA, ns.reserveB, feeSell);
      if nb.reserveB > 0.0 {
        var w2, x2 := GetAmountOutValue(x1, nb.reserveB, nb.reserveA, feeBuy);
        CorrectedArith(x1, w1, x2, w2, ns.reserveA, ns.reserveB, nb.reserveB, nb.reserveA);
      } else {
        assert TRADE_SIZE * (ns.reserveB / ns.reserveA) >= 0.0;
      }
    }
  }

  /** The arithmetic of the two legs of the corrected round trip. */
  lemma CorrectedArith(x1: real, w1: real, x2: real, w2: real, sIn: real, sOut: real, bIn: real, bOut: real)
    requires sIn > 0.0 && sOut >= 0.0 && bIn > 0.0 && bOut > 0.0
    requires 0.0 <= w1 <= TRADE_SIZE && x1 >= 0.0 && x1 * (sIn + w1) == sOut * w1
    requires 0.0 <= w2 <= x1 && x2 >= 0.0 && x2 * (bIn + w2) == bOut * w2
    ensures x2 * (bIn / bOut) <= TRADE_SIZE * (sOut / sIn)
  {
    SwapSpot(x1, w1, TRADE_SIZE, sIn, sOut);
    SwapSpot(x2, w2, x1, bIn, bOut);
    ChainSpotBounds(TRADE_SIZE, x1, x2, sIn, sOut, bIn, bOut);
  }

  /** On the corrected route with fees in [0, 1], a reported profit is a finite
      number and never beats the two spot prices:
      `(profit + TRADE_SIZE) * priceBuy <= TRADE_SIZE * priceSell`. */
  lemma CorrectedLegBound(buy: ReserveWithFee, sell: ReserveWithFee, o: ArbitrageOpportunity)
    requires FeeInRange(buy) && FeeInRange(sell)
    requires o in Leg(buy, sell, Corrected)
    requires Less(o.priceBuy, o.priceSell)
    ensures o.profit.Finite? && o.priceBuy.Finite?
    ensures o.priceSell.Finite? ==>
      (o.profit.value + TRADE_SIZE) * o.priceBuy.value <= TRADE_SIZE * o.priceSell.value
  {
    var nb := GetNormalizedReserves(buy);
    var ns := GetNormalizedReserves(sell);
    var profit := Minus(RoundTrip(nb, ns, buy.fee, sell.fee, Corrected), TRADE_SIZE);
    assert Less(Finite(0.0), profit);
    assert o == Opportunity(buy, sell, nb, Price(nb), Price(ns), profit);
    CorrectedRoundTripBound(nb, ns, buy.fee, sell.fee);
    ProfitBoundOf(o, RoundTrip(nb, ns, buy.fee, sell.fee, Corrected), Price(nb), Price(ns));
  }

  /** The spot bound on a round trip, restated on the opportunity that reports it. */
  lemma ProfitBoundOf(o: ArbitrageOpportunity, back: Num, priceBuy: Num, priceSell: Num)
    requires o.profit == Minus(back, TRADE_SIZE) && o.priceBuy == priceBuy && o.priceSell == priceSell
    requires back.Finite? && priceBuy.Finite?
    requires priceSell.Finite? ==> back.value * priceBuy.value <= TRADE_SIZE * priceSell.value
    ensures o.profit.Finite? && o.priceBuy.Finite?
    ensures o.priceSell.Finite? ==>
      (o.profit.value + TRADE_SIZE) * o.priceBuy.value <= TRADE_SIZE * o.priceSell.value
  {
    assert o.profit.value + TRADE_SIZE == back.value;
    if o.priceSell.Finite? {
      assert (o.profit.value + TRADE_SIZE) * o.priceBuy.value == back.value * priceBuy.value;
    }
  }

  /** The corrected comparison's opportunities satisfy the spot bound. */
  lemma CorrectedCompareBound(a: ReserveWithFee, b: ReserveWithFee, o: ArbitrageOpportunity)
    requires FeeInRange(a) && FeeInRange(b)
    requires o in Compare(a, b, Corrected)
    ensures o.profit.Finite? && o.priceBuy.Finite?
    ensures o.priceSell.Finite? ==>
      (o.profit.value + TRADE_SIZE) * o.priceBuy.value <= TRADE_SIZE * o.priceSell.value
  {
    CompareFacts(a, b, Corrected, o);
    var pa := Price(GetNormalizedReserves(a));
    var pb := Price(GetNormalizedReserves(b));
    if Less(pa, pb) && o in Leg(a, b, Corrected) {
      CorrectedLegBound(a, b, o);
    } else {
      CorrectedLegBound(b, a, o);
    }
  }

  /** calculateArbitrage's opportunities, with fees in [0, 1], have a finite
      positive profit bounded by the two spot prices. */
  lemma CorrectedProfitBound(rs: seq<ReserveWithFee>, o: ArbitrageOpportunity)
    requires forall i :: 0 <= i < |rs| ==> FeeInRange(rs[i])
    requires o in ArbitrageSpec(rs, Corrected)
    ensures o.profit.Finite? && o.profit.value > 0.0 && o.priceBuy.Finite?
    ensures o.priceSell.Finite? ==>
      (o.profit.value + TRADE_SIZE) * o.priceBuy.value <= TRADE_SIZE * o.priceSell.value
  {
    var i, j := ArbitrageSpecMember(rs, Corrected, o);
    CorrectedCompareBound(rs[i], rs[j], o);
    CompareFacts(rs[i], rs[j], Corrected, o);
  }

  /** A row of the example below: tokens `0xa` and `0xb` with one decimal each,
      1000000 raw units of `0xa` and `reserve1` of `0xb`, and a 0.3% fee. */
  function ExampleRow(dex: string, reserve1: nat): ReserveWithFee {
    ReserveWithFee(
      Reserve(1, dex, "0xa-0xb", None, Some("0xa"), Some("0xb"), Some(1000000), Some(reserve1),
              Some(1), Some(1), None, None, None),
      0.003)
  }

  /** Both example rows normalize to `0xa` first, with one decimal shifted off. */
  lemma ExampleNormalized(dex: string, reserve1: nat)
    ensures GetNormalizedReserves(ExampleRow(dex, reserve1))
         == NormalizedReserves(Some("0xa"), Some("0xb"), 100000.0, reserve1 as real / 10.0)
  {
    assert Lower("0xa") == "0xa" && Lower("0xb") == "0xb";
    assert LexLess("0xa", "0xb");
    assert ShiftDecimals(1000000.0, 1) == 100000.0;
    assert ShiftDecimals(reserve1 as real, 0) == reserve1 as real;
    assert ShiftDecimals(reserve1 as real, 1) == reserve1 as real / 10.0;
  }

  /** Selling 1000 of `0xa` on the dearer pool and buying it back on the
      cheaper one returns more than 1000. */
  lemma ExampleRoundTrip()
    ensures var back := RoundTrip(NormalizedReserves(Some("0xa"), Some("0xb"), 100000.0, 190000.0),
                                  NormalizedReserves(Some("0xa"), Some("0xb"), 100000.0, 200000.0),
                                  0.003, 0.003, Corrected);
      back.Finite? && back.value > TRADE_SIZE
  {
  }

  /** Comparing the two example rows on the corrected route yields exactly the
      opportunity of buying `0xa` on B and selling it on A. */
  lemma ExampleCompare()
    ensures var c := Compare(ExampleRow("A", 2000000), ExampleRow("B", 1900000), Corrected);
      |c| == 1 && c[0].buyFrom == "B" && c[0].sellTo == "A"
  {
    var a, b := ExampleRow("A", 2000000), ExampleRow("B", 1900000);
    ExampleNormalized("A", 2000000);
    ExampleNormalized("B", 1900000);
    assert Price(GetNormalizedReserves(a)) == Finite(2.0);
    assert Price(GetNormalizedReserves(b)) == Finite(1.9);
    assert Compare(a, b, Corrected) == Leg(b, a, Corrected);
    ExampleRoundTrip();
  }

  /** Two venues quoting `0xa` at 2 and at 1.9 units of `0xb`: the corrected
      route reports the arbitrage buying on the cheaper venue, the source's
      route reports nothing. */
  lemma FindingExample()
    ensures var rs := [ExampleRow("A", 2000000), ExampleRow("B", 1900000)];
      && ArbitrageSpec(rs, AsWritten) == []
      && |ArbitrageSpec(rs, Corrected)| == 1
      && ArbitrageSpec(rs, Corrected)[0].buyFrom == "B"
      && ArbitrageSpec(rs, Corrected)[0].sellTo == "A"
  {
    var a, b := ExampleRow("A", 2000000), ExampleRow("B", 1900000);
    var rs := [a, b];
    AsWrittenNeverEmits(rs);
    var f := CompareOn(Corrected);
    assert Pairs(rs, 2, f) == Pairs(rs, 1, f) + PairsRow(rs, 1, 2, f);
    assert Pairs(rs, 1, f) == Pairs(rs, 0, f) + PairsRow(rs, 0, 2, f);
    assert PairsRow(rs, 0, 2, f) == PairsRow(rs, 0, 1, f) + f(a, b);
    assert ArbitrageSpec(rs, Corrected) == Compare(a, b, Corrected);
    ExampleCompare();
  }
}

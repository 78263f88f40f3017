/** Dynamic position sizing (app/position_sizer.py): a bisection on the quantity whose
    acceptance test is two simulated fills. */
module PositionSizer {
  import opened Wrappers
  import opened Books

  // ---------------------------------------------------------------------------
  // Rounding to eight decimals, halves to even
  // ---------------------------------------------------------------------------

  const GRID: real := 100000000.0

  function RoundHalfEven(y: real): int {
    var f := y.Floor;
    var d := y - f as real;
    if d < 0.5 then f else if d > 0.5 then f + 1 else if f % 2 == 0 then f else f + 1
  }

  function Round8(x: real): real { RoundHalfEven(x * GRID) as real / GRID }

  lemma RoundHalfEvenMono(y1: real, y2: real)
    requires y1 <= y2
    ensures RoundHalfEven(y1) <= RoundHalfEven(y2)
  {
    assert y1.Floor <= y2.Floor;
  }

  lemma Round8Mono(x1: real, x2: real)
    requires x1 <= x2
    ensures Round8(x1) <= Round8(x2)
  {
    RoundHalfEvenMono(x1 * GRID, x2 * GRID);
  }

  // ---------------------------------------------------------------------------
  // The acceptance test
  // ---------------------------------------------------------------------------

  /** What the acceptance test of a quantity depends on. */
  datatype Market = Market(longBook: Book, shortBook: Book, markPrice: real, maxSlippageBps: real)

  ghost predicate PublishedMarket(m: Market) {
    WellFormed(Buy, m.longBook.asks) && WellFormed(Sell, m.shortBook.bids) && m.markPrice > 0.0
  }

  /** _check_both_sides_slippage. */
  predicate CheckBothSidesSlippage(m: Market, quantity: real)
    requires m.markPrice != 0.0
  {
    var buyFill, sellFill := Vwap(m.longBook.asks, quantity), Vwap(m.shortBook.bids, quantity);
    && buyFill > 0.0 && sellFill > 0.0
    && (buyFill - m.markPrice) / m.markPrice * 10000.0 <= m.maxSlippageBps
    && (m.markPrice - sellFill) / m.markPrice * 10000.0 <= m.maxSlippageBps
  }

  /** A positive quantity below an accepted one is accepted: the fact the bisection relies on. */
  lemma AcceptanceIsDownwardClosed(m: Market, q1: real, q2: real)
    requires PublishedMarket(m) && 0.0 < q1 <= q2
    requires CheckBothSidesSlippage(m, q2)
    ensures CheckBothSidesSlippage(m, q1)
  {
    hide Vwap;
    var asks, bids := m.longBook.asks, m.shortBook.bids;
    PositiveFillMeansSize(asks, q2);
    PositiveFillMeansSize(bids, q2);
    VwapBoundedByBest(Buy, asks, q1);
    VwapBoundedByBest(Sell, bids, q1);
    VwapNeverImproves(Buy, asks, q1, q2);
    VwapNeverImproves(Sell, bids, q1, q2);
    RatioMono(Vwap(asks, q1) - m.markPrice, Vwap(asks, q2) - m.markPrice, m.markPrice);
    RatioMono(m.markPrice - Vwap(bids, q1), m.markPrice - Vwap(bids, q2), m.markPrice);
  }

  // ---------------------------------------------------------------------------
  // The bisection
  // ---------------------------------------------------------------------------

  const ITERATIONS: nat := 10

  /** Midpoint accepted after rounding: search above it, otherwise below it. */
  function Bisect(m: Market, lo: real, hi: real, n: nat): real
    requires m.markPrice != 0.0
    decreases n
  {
    if n == 0 then lo
    else
      var mid := (lo + hi) / 2.0;
      if CheckBothSidesSlippage(m, Round8(mid)) then Bisect(m, mid, hi, n - 1) else Bisect(m, lo, mid, n - 1)
  }

  function MaxQty(m: Market, minQty: real, upperBound: real): real
    requires m.markPrice != 0.0
  {
    if upperBound <= minQty then minQty else Bisect(m, minQty, upperBound, ITERATIONS)
  }

  /** _binary_search_max_qty. */
  method BinarySearchMaxQty(m: Market, upperBound: real, minQty: real) returns (r: real)
    requires m.markPrice != 0.0
    ensures r == MaxQty(m, minQty, upperBound)
  {
    var lo, hi := minQty, upperBound;
    if hi <= lo {
      return lo;
    }
    for i := 0 to ITERATIONS
      invariant Bisect(m, minQty, upperBound, ITERATIONS) == Bisect(m, lo, hi, ITERATIONS - i)
    {
      var mid := (lo + hi) / 2.0;
      var slipOk := CheckBothSidesSlippage(m, Round8(mid));
      if slipOk {
        lo := mid;
      } else {
        hi := mid;
      }
    }
    return lo;
  }

  function Pow2(n: nat): real {
    if n == 0 then 1.0 else 2.0 * Pow2(n - 1)
  }

  lemma {:induction false} Pow2AtLeastOne(n: nat)
    ensures Pow2(n) >= 1.0
  {
    if n > 0 { Pow2AtLeastOne(n - 1); }
  }

  /** The result is the initial lower bound or accepted, and the point (hi - lo)/2^n above it is
      the initial upper bound or rejected. */
  lemma {:induction false} BisectBrackets(m: Market, lo: real, hi: real, n: nat)
    requires m.markPrice != 0.0 && lo <= hi
    ensures Pow2(n) >= 1.0
    ensures var r := Bisect(m, lo, hi, n);
            && lo <= r <= hi
            && (r == lo || CheckBothSidesSlippage(m, Round8(r)))
            && (var top := r + (hi - lo) / Pow2(n);
                top <= hi && (top == hi || !CheckBothSidesSlippage(m, Round8(top))))
    decreases n
  {
    hide CheckBothSidesSlippage, Round8;
    Pow2AtLeastOne(n);
    if n > 0 {
      Pow2AtLeastOne(n - 1);
      var mid := (lo + hi) / 2.0;
      HalvedWidth(lo, hi, Pow2(n - 1));
      if CheckBothSidesSlippage(m, Round8(mid)) {
        BisectBrackets(m, mid, hi, n - 1);
      } else {
        BisectBrackets(m, lo, mid, n - 1);
      }
    }
  }

  lemma HalvedWidth(lo: real, hi: real, p: real)
    requires p >= 1.0
    ensures ((lo + hi) / 2.0 - lo) / p == (hi - lo) / (2.0 * p)
    ensures (hi - (lo + hi) / 2.0) / p == (hi - lo) / (2.0 * p)
  {
    var w := hi - lo;
    Cancel(w, 2.0, p);
    assert w / (2.0 * p) == (w / 2.0) / p by {
      var x := (w / 2.0) / p;
      assert x * p == w / 2.0;
      assert x * (2.0 * p) == w;
    }
  }

  /** No accepted quantity in range exceeds the search result by more than (upper - min)/2^10. */
  lemma SearchIsNearOptimal(m: Market, minQty: real, upperBound: real, x: real)
    requires PublishedMarket(m) && Round8(minQty) > 0.0
    requires minQty <= x <= upperBound && CheckBothSidesSlippage(m, Round8(x))
    ensures Pow2(ITERATIONS) == 1024.0
    ensures x - MaxQty(m, minQty, upperBound) <= (upperBound - minQty) / Pow2(ITERATIONS)
  {
    hide CheckBothSidesSlippage, Round8;
    assert Pow2(10) == 2.0 * Pow2(9) && Pow2(8) == 2.0 * Pow2(7) && Pow2(6) == 2.0 * Pow2(5);
    assert Pow2(4) == 2.0 * Pow2(3) && Pow2(2) == 2.0 * Pow2(1);
    if upperBound > minQty {
      BisectBrackets(m, minQty, upperBound, ITERATIONS);
      var r := MaxQty(m, minQty, upperBound);
      var top := r + (upperBound - minQty) / Pow2(ITERATIONS);
      if x > top {
        Round8Mono(minQty, top);
        Round8Mono(top, x);
        AcceptanceIsDownwardClosed(m, Round8(top), Round8(x));
      }
    }
  }

  // ---------------------------------------------------------------------------
  // The sizer
  // ---------------------------------------------------------------------------

  datatype Cap = Capital | PerPair | Liquidity | Error

  datatype SizingResult = SizingResult(
    recommendedQty: real, capitalLimit: real, perPairLimit: real, liquidityLimit: real, cappedBy: Cap)

  function Leveraged(collateralUsd: real, leverage: real, ratio: real): real { collateralUsd * leverage * ratio }

  /** compute_position_size. */
  function ComputePositionSize(
    collateralUsd: real, leverage: real, maxUtilization: real, maxPerPairRatio: real, markPrice: real,
    longBook: Option<Book>, shortBook: Option<Book>, maxSlippageBps: real, minQty: real): SizingResult
  {
    if markPrice <= 0.0 || collateralUsd <= 0.0 then
      SizingResult(minQty, 0.0, 0.0, 0.0, Error)
    else
      var capitalQty := Leveraged(collateralUsd, leverage, maxUtilization) / markPrice;
      var perPairQty := Leveraged(collateralUsd, leverage, maxPerPairRatio) / markPrice;
      var capitalLimit, perPairLimit := Round8(capitalQty), Round8(perPairQty);
      var liquidityQty :=
        if longBook.Some? && shortBook.Some? then
          MaxQty(Market(longBook.value, shortBook.value, markPrice, maxSlippageBps),
                 minQty, Min(capitalLimit, perPairLimit))
        else Min(capitalQty, perPairQty);
      var liquidityLimit := Round8(liquidityQty);
      var finalQty := Max(Min(Min(capitalLimit, perPairLimit), liquidityLimit), minQty);
      var cappedBy :=
        if finalQty == liquidityLimit && liquidityLimit < Min(capitalLimit, perPairLimit) then Liquidity
        else if finalQty == perPairLimit && perPairLimit <= capitalLimit then PerPair
        else Capital;
      SizingResult(finalQty, capitalLimit, perPairLimit, liquidityLimit, cappedBy)
  }

  datatype Account = Account(collateralUsd: real, leverage: real, maxUtilization: real, maxPerPairRatio: real)

  function Recommendation(a: Account, m: Market, minQty: real): SizingResult {
    ComputePositionSize(a.collateralUsd, a.leverage, a.maxUtilization, a.maxPerPairRatio, m.markPrice,
                        Some(m.longBook), Some(m.shortBook), m.maxSlippageBps, minQty)
  }

  /** The recommendation is the minimum order size, or it is within both capital limits and itself
      passes the slippage test on both sides. */
  predicate IsSafe(a: Account, m: Market, minQty: real) {
    var r := Recommendation(a, m, minQty);
    || r.recommendedQty == minQty
    || (&& minQty < r.recommendedQty <= r.capitalLimit && r.recommendedQty <= r.perPairLimit
        && m.markPrice > 0.0 && CheckBothSidesSlippage(m, r.recommendedQty))
  }

  /** With both books given, every recommendation is safe, except possibly one that does not exceed
      a minimum order size that was rounded up at the eighth decimal. */
  lemma RecommendationIsSafe(a: Account, m: Market, minQty: real)
    requires (m.markPrice > 0.0 ==> PublishedMarket(m)) && minQty > 0.0
    ensures IsSafe(a, m, minQty) || minQty < Recommendation(a, m, minQty).recommendedQty <= Round8(minQty)
  {
    hide CheckBothSidesSlippage, Round8, Leveraged;
    var r := Recommendation(a, m, minQty);
    if r.recommendedQty != minQty {
      var upper := Min(r.capitalLimit, r.perPairLimit);
      var found := MaxQty(m, minQty, upper);
      assert r.liquidityLimit == Round8(found);
      if upper > minQty { BisectBrackets(m, minQty, upper, ITERATIONS); }
      if found != minQty { AcceptanceIsDownwardClosed(m, r.recommendedQty, Round8(found)); }
    }
  }

  lemma Round8Twice(x: real)
    ensures Round8(Round8(x)) == Round8(x)
  {
    var k := RoundHalfEven(x * GRID);
    assert Round8(x) * GRID == k as real;
    assert (k as real).Floor == k;
  }

  lemma {:induction false} NothingAccepted(m: Market, lo: real, hi: real, n: nat)
    requires m.markPrice != 0.0 && m.longBook.asks == []
    ensures Bisect(m, lo, hi, n) == lo
    decreases n
  {
    if n > 0 { NothingAccepted(m, lo, (lo + hi) / 2.0, n - 1); }
  }

  /** On empty books a minimum that rounds up is recommended rounded up, and is not accepted. */
  lemma RoundedUpMinimumIsUnsafe(minQty: real)
    requires 0.0 < minQty < Round8(minQty)
    ensures !IsSafe(Account(Round8(minQty), 1.0, 1.0, 1.0), Market(Book([], []), Book([], []), 1.0, 0.0), minQty)
  {
    hide Round8;
    var m := Market(Book([], []), Book([], []), 1.0, 0.0);
    Round8Twice(minQty);
    NothingAccepted(m, minQty, Round8(minQty), ITERATIONS);
    var r := Recommendation(Account(Round8(minQty), 1.0, 1.0, 1.0), m, minQty);
    assert r.capitalLimit == Round8(minQty) && r.recommendedQty == Round8(minQty);
    assert Filled([], r.recommendedQty) == 0.0;
  }

  /** So every recommendation for every account and market is safe exactly when the minimum order
      size does not round up at the eighth decimal. */
  lemma RecommendationsAreSafeExactlyWhen(minQty: real)
    requires minQty > 0.0
    ensures (forall a: Account, m: Market :: (m.markPrice > 0.0 ==> PublishedMarket(m)) ==> IsSafe(a, m, minQty))
       <==> Round8(minQty) <= minQty
  {
    hide Round8, IsSafe, Recommendation;
    if Round8(minQty) <= minQty {
      forall a: Account, m: Market | m.markPrice > 0.0 ==> PublishedMarket(m) ensures IsSafe(a, m, minQty) {
        RecommendationIsSafe(a, m, minQty);
      }
    } else {
      RoundedUpMinimumIsUnsafe(minQty);
      var m := Market(Book([], []), Book([], []), 1.0, 0.0);
      assert PublishedMarket(m);
    }
  }

  // ---------------------------------------------------------------------------
  // What the quantities are
  // ---------------------------------------------------------------------------

  /** k counts the multiples of 10^-8 nearest to x; halfway, an even one. */
  predicate Nearest(k: int, x: real) {
    var d := x * 100000000.0 - k as real;
    -0.5 <= d <= 0.5 && (d == 0.5 || d == -0.5 ==> k % 2 == 0)
  }

  /** Rounding goes to the nearest multiple of 10^-8, and halfway to an even one. */
  lemma Round8IsNearest(x: real)
    ensures exists k: int :: Nearest(k, x) && Round8(x) == k as real / 100000000.0
  {
    assert Nearest(RoundHalfEven(x * GRID), x);
  }

  /** A quantity is accepted exactly when both sides fill something and the average bought price is
      at most, the average sold price at least, maxSlippageBps ten-thousandths off the mark. */
  lemma AcceptedExactlyWhen(m: Market, quantity: real)
    requires PublishedMarket(m) && quantity > 0.0
    ensures var asks, bids := m.longBook.asks, m.shortBook.bids;
            CheckBothSidesSlippage(m, quantity)
            <==> && Total(asks) > 0.0 && Total(bids) > 0.0
                 && Vwap(asks, quantity) <= m.markPrice * (1.0 + m.maxSlippageBps / 10000.0)
                 && Vwap(bids, quantity) >= m.markPrice * (1.0 - m.maxSlippageBps / 10000.0)
  {
    hide Vwap;
    var asks, bids := m.longBook.asks, m.shortBook.bids;
    if Total(asks) > 0.0 { VwapBoundedByBest(Buy, asks, quantity); }
    if Total(bids) > 0.0 { VwapBoundedByBest(Sell, bids, quantity); }
    if Vwap(asks, quantity) > 0.0 { PositiveFillMeansSize(asks, quantity); }
    if Vwap(bids, quantity) > 0.0 { PositiveFillMeansSize(bids, quantity); }
    RelativeMove(Vwap(asks, quantity), m.markPrice, m.maxSlippageBps, 10000.0);
    RelativeMove(Vwap(bids, quantity), m.markPrice, m.maxSlippageBps, 10000.0);
  }

  /** x is, to the eighth decimal, the quantity that this share of the leveraged collateral buys. */
  predicate Affords(x: real, price: real, a: Account, share: real)
    requires price > 0.0
  {
    -0.5 <= (a.collateralUsd * a.leverage * share / price - x) * 100000000.0 <= 0.5
  }

  lemma Round8Error(x: real)
    ensures -0.5 <= (x - Round8(x)) * 100000000.0 <= 0.5
  {
    var y := x * GRID;
    assert Round8(x) * GRID == RoundHalfEven(y) as real;
  }

  lemma LimitAffords(price: real, a: Account, share: real)
    requires price > 0.0
    ensures Affords(Round8(Leveraged(a.collateralUsd, a.leverage, share) / price), price, a, share)
  {
    hide Round8, Leveraged, Affords;
    var x := Leveraged(a.collateralUsd, a.leverage, share) / price;
    Round8Error(x);
    NearAffords(Round8(x), price, a, share);
  }

  lemma NearAffords(x: real, price: real, a: Account, share: real)
    requires price > 0.0
    requires -0.5 <= (Leveraged(a.collateralUsd, a.leverage, share) / price - x) * 100000000.0 <= 0.5
    ensures Affords(x, price, a, share)
  {
    assert Leveraged(a.collateralUsd, a.leverage, share) == a.collateralUsd * a.leverage * share;
  }

  lemma MinRounds(a: real, b: real)
    ensures Round8(Min(a, b)) == Min(Round8(a), Round8(b))
  {
    if a <= b { Round8Mono(a, b); } else { Round8Mono(b, a); }
  }

  /** A request as the sizer gets it. */
  function Sized(a: Account, markPrice: real, longBook: Option<Book>, shortBook: Option<Book>,
                 maxSlippageBps: real, minQty: real): SizingResult
  {
    ComputePositionSize(a.collateralUsd, a.leverage, a.maxUtilization, a.maxPerPairRatio, markPrice,
                        longBook, shortBook, maxSlippageBps, minQty)
  }

  lemma SizedLimits(a: Account, markPrice: real, longBook: Option<Book>, shortBook: Option<Book>,
                    maxSlippageBps: real, minQty: real)
    requires markPrice > 0.0 && a.collateralUsd > 0.0
    ensures var r := Sized(a, markPrice, longBook, shortBook, maxSlippageBps, minQty);
            && r.capitalLimit == Round8(Leveraged(a.collateralUsd, a.leverage, a.maxUtilization) / markPrice)
            && r.perPairLimit == Round8(Leveraged(a.collateralUsd, a.leverage, a.maxPerPairRatio) / markPrice)
  {
    hide Round8, MaxQty, Leveraged;
  }

  /** The capital limits are the leveraged collateral times the utilisation, and times the per-pair
      ratio, at the mark price. */
  lemma LimitsAreNotional(a: Account, markPrice: real, longBook: Option<Book>, shortBook: Option<Book>,
                          maxSlippageBps: real, minQty: real)
    requires markPrice > 0.0 && a.collateralUsd > 0.0
    ensures var r := Sized(a, markPrice, longBook, shortBook, maxSlippageBps, minQty);
            && Affords(r.capitalLimit, markPrice, a, a.maxUtilization)
            && Affords(r.perPairLimit, markPrice, a, a.maxPerPairRatio)
  {
    hide Round8, Sized, Leveraged, Affords;
    SizedLimits(a, markPrice, longBook, shortBook, maxSlippageBps, minQty);
    LimitAffords(markPrice, a, a.maxUtilization);
    LimitAffords(markPrice, a, a.maxPerPairRatio);
  }

  /** At least the minimum is recommended, and exactly it without capital or price. */
  lemma MinimumIsRecommended(a: Account, markPrice: real, longBook: Option<Book>, shortBook: Option<Book>,
                             maxSlippageBps: real, minQty: real)
    ensures var r := Sized(a, markPrice, longBook, shortBook, maxSlippageBps, minQty);
            && r.recommendedQty >= minQty
            && (markPrice <= 0.0 || a.collateralUsd <= 0.0 <==> r.cappedBy.Error?)
            && (r.cappedBy.Error? ==> r.recommendedQty == minQty)
  {
    hide Round8, MaxQty;
  }

  /** Without books the recommendation is exactly the smaller limit, or the minimum. */
  lemma CapitalDecidesWithoutBooks(a: Account, markPrice: real, longBook: Option<Book>, shortBook: Option<Book>,
                                   maxSlippageBps: real, minQty: real)
    requires markPrice > 0.0 && a.collateralUsd > 0.0 && (longBook.None? || shortBook.None?)
    ensures var r := Sized(a, markPrice, longBook, shortBook, maxSlippageBps, minQty);
            r.recommendedQty == Max(minQty, Min(r.capitalLimit, r.perPairLimit)) && !r.cappedBy.Liquidity?
  {
    hide Round8, MaxQty, Leveraged;
    MinRounds(Leveraged(a.collateralUsd, a.leverage, a.maxUtilization) / markPrice,
              Leveraged(a.collateralUsd, a.leverage, a.maxPerPairRatio) / markPrice);
  }

  /** The recommendation is the smallest of the three limits, or the minimum. Above the minimum the cap
      names the smallest limit: liquidity if it is strictly the smallest, per-pair before capital on a
      tie. */
  lemma SmallestLimitIsNamed(a: Account, markPrice: real, longBook: Option<Book>, shortBook: Option<Book>,
                             maxSlippageBps: real, minQty: real)
    requires markPrice > 0.0 && a.collateralUsd > 0.0
    ensures var r := Sized(a, markPrice, longBook, shortBook, maxSlippageBps, minQty);
            && r.recommendedQty >= minQty
            && (r.recommendedQty > minQty ==>
                  && r.recommendedQty <= r.capitalLimit && r.recommendedQty <= r.perPairLimit
                  && r.recommendedQty <= r.liquidityLimit
                  && (r.cappedBy.Liquidity? <==>
                        r.recommendedQty < r.capitalLimit && r.recommendedQty < r.perPairLimit)
                  && (r.cappedBy.Liquidity? ==> r.recommendedQty == r.liquidityLimit)
                  && (r.cappedBy.PerPair? <==> r.recommendedQty == r.perPairLimit)
                  && (r.cappedBy.Capital? <==> r.recommendedQty == r.capitalLimit < r.perPairLimit))
  {
    hide Round8, MaxQty, Leveraged;
  }
}

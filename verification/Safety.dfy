/** Pre-trade checks (app/safety.py): the book walks as the loops the source runs, each tied to
    the sweep functions of Books, and the facts that hold between the checks. */
module Safety {
  import opened Books

  datatype DepthResult = DepthResult(
    isSufficient: bool, availableDepthUsd: real, requiredDepthUsd: real,
    bestPrice: real, worstFillPrice: real, levelsConsumed: nat)

  datatype SlippageResult = SlippageResult(
    isAcceptable: bool, expectedPrice: real, estimatedFillPrice: real,
    slippagePct: real, maxAllowedPct: real)

  datatype LiquidityResult = LiquidityResult(
    availableQty: real, requiredQty: real, isSufficient: bool, worstFillPrice: real)

  /** walk_book: sweep for `quantity`, returning average price, deepest price and shortfall. */
  method WalkBook(book: Book, side: Side, quantity: real)
    returns (vwap: real, worstPrice: real, unfilled: real)
    ensures vwap == Vwap(SideLevels(book, side), quantity)
    ensures worstPrice == Worst(SideLevels(book, side), quantity)
    ensures unfilled == quantity - Filled(SideLevels(book, side), quantity)
  {
    var levels := SideLevels(book, side);
    var remaining, totalCost := quantity, 0.0;
    worstPrice := 0.0;
    ghost var covered := false;
    assert levels[0..] == levels;
    hide Cost, Filled, Reach, Covers, Times;
    for i := 0 to |levels|
      invariant i > 0 ==> remaining > 0.0
      invariant worstPrice == if i == 0 then 0.0 else levels[i - 1].price
      invariant Filled(levels, quantity) == quantity - remaining + Filled(levels[i..], remaining)
      invariant Cost(levels, quantity) == totalCost + Cost(levels[i..], remaining)
      invariant Reach(levels, quantity) == i + Reach(levels[i..], remaining)
      invariant !covered
    {
      SweepStepAt(levels, i, remaining);
      var fill := Min(remaining, levels[i].size);
      totalCost := totalCost + Times(fill, levels[i].price);
      worstPrice := levels[i].price;
      remaining := remaining - fill;
      if remaining <= 0.0 {
        covered := true;
        break;
      }
    }
    if !covered { EmptySweep(remaining); }
    unfilled := remaining;
    var filledQty := quantity - remaining;
    vwap := if filledQty > 0.0 then totalCost / filledQty else 0.0;
  }

  /** check_order_book_depth. The dollar amount is kept unrounded, as the decision uses it. */
  method CheckOrderBookDepth(book: Book, side: Side, quantity: real, minDepthUsd: real)
    returns (r: DepthResult)
    ensures r.isSufficient <==> DepthSufficient(SideLevels(book, side), quantity, minDepthUsd)
    ensures r.availableDepthUsd == Cost(SideLevels(book, side), quantity)
    ensures r.requiredDepthUsd == minDepthUsd
    ensures r.worstFillPrice == Worst(SideLevels(book, side), quantity)
    ensures r.levelsConsumed == Reach(SideLevels(book, side), quantity)
    ensures r.bestPrice == if SideLevels(book, side) == [] then 0.0 else SideLevels(book, side)[0].price
  {
    var levels := SideLevels(book, side);
    if levels == [] {
      return DepthResult(false, 0.0, minDepthUsd, 0.0, 0.0, 0);
    }
    var remaining, totalCost, consumed := quantity, 0.0, 0;
    var bestPrice := levels[0].price;
    var worstFillPrice := bestPrice;
    ghost var covered := false;
    assert levels[0..] == levels;
    hide Cost, Filled, Reach, Covers, Times;
    for i := 0 to |levels|
      invariant consumed == i && (i > 0 ==> remaining > 0.0 && worstFillPrice == levels[i - 1].price)
      invariant Cost(levels, quantity) == totalCost + Cost(levels[i..], remaining)
      invariant Reach(levels, quantity) == i + Reach(levels[i..], remaining)
      invariant Covers(levels, quantity) <==> Covers(levels[i..], remaining)
      invariant !covered
    {
      SweepStepAt(levels, i, remaining);
      var fill := Min(remaining, levels[i].size);
      totalCost := totalCost + Times(fill, levels[i].price);
      remaining := remaining - fill;
      consumed := consumed + 1;
      worstFillPrice := levels[i].price;
      if remaining <= 0.0 {
        covered := true;
        break;
      }
    }
    if !covered { EmptySweep(remaining); }
    r := DepthResult(remaining <= 0.0 && totalCost >= minDepthUsd, totalCost, minDepthUsd,
                     bestPrice, worstFillPrice, consumed);
  }

  predicate DepthSufficient(levels: seq<Level>, quantity: real, minDepthUsd: real) {
    Covers(levels, quantity) && Cost(levels, quantity) >= minDepthUsd
  }

  /** Adverse move from the expected price, in percent. */
  function AdversePct(side: Side, fill: real, expected: real): real
    requires expected != 0.0
  {
    if side.Buy? then (fill - expected) / expected * 100.0 else (expected - fill) / expected * 100.0
  }

  predicate SlippageAcceptable(levels: seq<Level>, side: Side, quantity: real, expected: real, maxPct: real) {
    && expected != 0.0 && Vwap(levels, quantity) != 0.0
    && AdversePct(side, Vwap(levels, quantity), expected) <= maxPct
  }

  /** check_slippage. */
  method CheckSlippage(book: Book, side: Side, quantity: real, expectedPrice: real, maxSlippagePct: real)
    returns (r: SlippageResult)
    ensures r.isAcceptable
       <==> SlippageAcceptable(SideLevels(book, side), side, quantity, expectedPrice, maxSlippagePct)
    ensures r.estimatedFillPrice == Vwap(SideLevels(book, side), quantity)
    ensures r.slippagePct == if expectedPrice == 0.0 || r.estimatedFillPrice == 0.0 then 100.0
                             else AdversePct(side, r.estimatedFillPrice, expectedPrice)
    ensures r.expectedPrice == expectedPrice && r.maxAllowedPct == maxSlippagePct
  {
    var fillPrice, _, _ := WalkBook(book, side, quantity);
    if expectedPrice == 0.0 || fillPrice == 0.0 {
      return SlippageResult(false, expectedPrice, fillPrice, 100.0, maxSlippagePct);
    }
    var slippagePct := AdversePct(side, fillPrice, expectedPrice);
    r := SlippageResult(slippagePct <= maxSlippagePct, expectedPrice, fillPrice, slippagePct, maxSlippagePct);
  }

  /** check_book_quantity: accumulate sizes until the required quantity is reached. */
  method CheckBookQuantity(book: Book, side: Side, requiredQty: real) returns (r: LiquidityResult)
    ensures r.isSufficient <==> QuantitySufficient(SideLevels(book, side), requiredQty)
    ensures r.worstFillPrice == Worst(SideLevels(book, side), requiredQty)
    ensures r.requiredQty == requiredQty
    ensures Reach(SideLevels(book, side), requiredQty) <= |SideLevels(book, side)|
    ensures r.availableQty == Total(SideLevels(book, side)[..Reach(SideLevels(book, side), requiredQty)])
  {
    var levels := SideLevels(book, side);
    var totalQty, worstPrice := 0.0, 0.0;
    ghost var i := 0;
    assert levels[0..] == levels;
    for k := 0 to |levels|
      invariant i == k && totalQty == Total(levels[..k]) && (k > 0 ==> totalQty < requiredQty)
      invariant worstPrice == if k == 0 then 0.0 else levels[k - 1].price
      invariant Reach(levels, requiredQty) == k + Reach(levels[k..], requiredQty - totalQty)
    {
      SweepStepAt(levels, k, requiredQty - totalQty);
      TotalSnoc(levels, k);
      totalQty := totalQty + levels[k].size;
      worstPrice := levels[k].price;
      i := k + 1;
      if totalQty >= requiredQty {
        break;
      }
    }
    ReachBounds(levels, requiredQty);
    assert Reach(levels, requiredQty) == i;
    r := LiquidityResult(totalQty, requiredQty, totalQty >= requiredQty, worstPrice);
  }

  /** check_book_quantity's verdict: the touched prefix holds the quantity. */
  predicate QuantitySufficient(levels: seq<Level>, requiredQty: real) {
    ReachBounds(levels, requiredQty);
    Total(levels[..Reach(levels, requiredQty)]) >= requiredQty
  }

  predicate PreTradePasses(levels: seq<Level>, side: Side, quantity: real,
                           expected: real, maxPct: real, minDepthUsd: real)
  {
    && DepthSufficient(levels, quantity, minDepthUsd)
    && SlippageAcceptable(levels, side, quantity, expected, maxPct)
  }

  /** run_pre_trade_checks. */
  method RunPreTradeChecks(book: Book, side: Side, quantity: real, expectedPrice: real,
                           maxSlippagePct: real, minDepthUsd: real)
    returns (passed: bool, depth: DepthResult, slippage: SlippageResult)
    ensures passed <==> depth.isSufficient && slippage.isAcceptable
    ensures passed <==> PreTradePasses(SideLevels(book, side), side, quantity, expectedPrice,
                                       maxSlippagePct, minDepthUsd)
  {
    depth := CheckOrderBookDepth(book, side, quantity, minDepthUsd);
    slippage := CheckSlippage(book, side, quantity, expectedPrice, maxSlippagePct);
    passed := depth.isSufficient && slippage.isAcceptable;
  }

  // ---------------------------------------------------------------------------
  // How the checks relate
  // ---------------------------------------------------------------------------

  lemma {:induction false} UncoveredFallsShort(levels: seq<Level>, q: real)
    requires (levels != [] || q > 0.0) && !Covers(levels, q)
    ensures Filled(levels, q) < q
  {
    if levels != [] { UncoveredFallsShort(levels[1..], q - levels[0].size); }
  }

  /** walk_book and check_book_quantity always agree on sufficiency, whatever the sizes.
      check_order_book_depth agrees with them unless the side is empty and nothing is asked for. */
  lemma ChecksAgreeOnDepth(levels: seq<Level>, q: real)
    ensures QuantitySufficient(levels, q) <==> q - Filled(levels, q) <= 0.0
    ensures (levels != [] || q > 0.0) <==> (Covers(levels, q) <==> q - Filled(levels, q) <= 0.0)
  {
    if levels == [] {
      assert levels[..0] == [];
    } else {
      ReachIsFirstCover(levels, q);
      if Covers(levels, q) { CoveredIsFilled(levels, q); } else { UncoveredFallsShort(levels, q); }
    }
  }

  /** A passed pre-trade check was asked for a positive quantity, and the book covers it at a
      non-zero average within the slippage bound. */
  lemma PassingMeansCovered(levels: seq<Level>, side: Side, q: real, expected: real, maxPct: real, minDepth: real)
    requires PreTradePasses(levels, side, q, expected, maxPct, minDepth)
    ensures q > 0.0 && Covers(levels, q) && Filled(levels, q) == q
    ensures Vwap(levels, q) == Cost(levels, q) / q
  {
    CoveredIsFilled(levels, q);
  }

  /** The slippage check sees only what the book can fill: asking for more than the side holds
      gives the verdict of asking for exactly what it holds. */
  lemma SlippageIgnoresShortfall(levels: seq<Level>, side: Side, q: real, expected: real, maxPct: real)
    requires NonNegativeSizes(levels) && q >= Total(levels)
    ensures SlippageAcceptable(levels, side, q, expected, maxPct)
       <==> SlippageAcceptable(levels, side, Total(levels), expected, maxPct)
  {
    TotalNonNegative(levels);
    FilledIsMin(levels, q);
    FilledIsMin(levels, Total(levels));
    SweepOfFilled(levels, q);
  }

  /** So a passed slippage check comes with enough depth exactly when the side's sizes add up to
      the quantity, which the check itself never asks. */
  lemma PassedSlippageIsCoveredExactlyWhen(levels: seq<Level>, side: Side, q: real, expected: real, maxPct: real)
    requires NonNegativeSizes(levels) && SlippageAcceptable(levels, side, q, expected, maxPct)
    ensures Covers(levels, q) <==> q <= Total(levels)
  {
    if q <= 0.0 { NothingAsked(levels, q); } else { FilledIsMin(levels, q); }
  }

  /** A passed check without depth: one ask of size 1, an order for 10. */
  lemma SlippageCheckPromisesNoDepth()
    ensures var levels := [Level(100.0, 1.0)];
            SlippageAcceptable(levels, Buy, 10.0, 100.0, 0.5) && !Covers(levels, 10.0)
  {
    var levels := [Level(100.0, 1.0)];
    assert levels[1..] == [];
    assert Filled(levels, 10.0) == 1.0 && Cost(levels, 10.0) == 100.0;
  }

  lemma AverageWithin(c: real, q: real, e: real, f: real)
    requires q > 0.0
    ensures c / q <= e * f <==> c <= q * e * f
    ensures c / q >= e * f <==> c >= q * e * f
  {
    var v := c / q;
    assert v * q == c;
    ScaleOrder(v, e * f, q);
    ScaleOrder(e * f, v, q);
    assert (e * f) * q == q * e * f;
  }

  /** On a published side a positive order passes exactly when the side holds it, it is worth the
      minimum depth, and the money it costs is within maxPct percent of the expected price: at most
      that much more for a buy, at most that much less for a sell. */
  lemma PreTradePassesExactlyWhen(levels: seq<Level>, side: Side, q: real, expected: real, maxPct: real, minDepth: real)
    requires WellFormed(side, levels) && q > 0.0 && expected > 0.0
    ensures PreTradePasses(levels, side, q, expected, maxPct, minDepth)
       <==> && q <= Total(levels) && Cost(levels, q) >= minDepth
            && (side.Buy? ==> Cost(levels, q) <= q * expected * (1.0 + maxPct / 100.0))
            && (side.Sell? ==> Cost(levels, q) >= q * expected * (1.0 - maxPct / 100.0))
  {
    hide Cost, Filled, Covers;
    FilledIsMin(levels, q);
    CostPositive(levels, q);
    if levels == [] { EmptySweep(q); }
    if q <= Total(levels) && levels != [] {
      var v := Vwap(levels, q);
      assert v == Cost(levels, q) / q;
      VwapBoundedByBest(side, levels, q);
      RelativeMove(v, expected, maxPct, 100.0);
      AverageWithin(Cost(levels, q), q, expected, 1.0 + maxPct / 100.0);
      AverageWithin(Cost(levels, q), q, expected, 1.0 - maxPct / 100.0);
    }
  }
}

/** Cross-venue execution spread from simulated fills (app/spread_analyzer.py). */
module SpreadAnalyzer {
  import opened Wrappers
  import opened Books

  datatype SpreadAnalysis = SpreadAnalysis(
    bboSpreadPct: real, execSpreadPct: real, slippageBps: real, isAcceptable: bool,
    longFillPrice: real, shortFillPrice: real, longBbo: real, shortBbo: real)

  function SpreadPct(long: real, short: real): real
    requires short > 0.0
  {
    (long - short) / short * 100.0
  }

  function AnalyzeCrossVenueSpread(longBook: Book, shortBook: Book, quantity: real, maxSlippageBps: real)
    : (r: Option<SpreadAnalysis>)
  {
    var longAsks, shortBids := longBook.asks, shortBook.bids;
    if longAsks == [] || shortBids == [] then None
    else
      var longBbo, shortBbo := longAsks[0].price, shortBids[0].price;
      if shortBbo <= 0.0 then None
      else
        var longFill, shortFill := Vwap(longAsks, quantity), Vwap(shortBids, quantity);
        if longFill <= 0.0 || shortFill <= 0.0 then None
        else
          var bbo, exec := SpreadPct(longBbo, shortBbo), SpreadPct(longFill, shortFill);
          var slippageBps := (exec - bbo) * 100.0;
          Some(SpreadAnalysis(bbo, exec, slippageBps, slippageBps <= maxSlippageBps,
                              longFill, shortFill, longBbo, shortBbo))
  }

  lemma SpreadPctMono(l1: real, s1: real, l2: real, s2: real)
    requires 0.0 < l1 <= l2 && 0.0 < s2 <= s1
    ensures SpreadPct(l1, s1) <= SpreadPct(l2, s2)
  {
    MulMono(l1, l2, s2);
    MulMono(s2, s1, l2);
    assert (l2 - s2) * s1 - (l1 - s1) * s2 == l2 * s1 - l1 * s2;
    QuotientMono(l1 - s1, s1, l2 - s2, s2);
  }

  /** Filling through depth is never cheaper than the quoted spread. */
  lemma SlippageNeverNegative(longBook: Book, shortBook: Book, quantity: real, maxSlippageBps: real)
    requires WellFormed(Buy, longBook.asks) && WellFormed(Sell, shortBook.bids)
    ensures var r := AnalyzeCrossVenueSpread(longBook, shortBook, quantity, maxSlippageBps);
            r.Some? ==> r.value.slippageBps >= 0.0
  {
    hide Vwap, SpreadPct;
    var r := AnalyzeCrossVenueSpread(longBook, shortBook, quantity, maxSlippageBps);
    if r.Some? {
      PositiveFillMeansSize(longBook.asks, quantity);
      PositiveFillMeansSize(shortBook.bids, quantity);
      VwapBoundedByBest(Buy, longBook.asks, quantity);
      VwapBoundedByBest(Sell, shortBook.bids, quantity);
      SpreadPctMono(r.value.longBbo, r.value.shortBbo, r.value.longFillPrice, r.value.shortFillPrice);
    }
  }

  /** A smaller trade is analysable and acceptable whenever a larger one is, with no more slippage. */
  lemma AcceptanceIsDownwardClosed(longBook: Book, shortBook: Book, q1: real, q2: real, maxSlippageBps: real)
    requires WellFormed(Buy, longBook.asks) && WellFormed(Sell, shortBook.bids)
    requires 0.0 < q1 <= q2
    requires AnalyzeCrossVenueSpread(longBook, shortBook, q2, maxSlippageBps).Some?
    ensures var small := AnalyzeCrossVenueSpread(longBook, shortBook, q1, maxSlippageBps);
            var large := AnalyzeCrossVenueSpread(longBook, shortBook, q2, maxSlippageBps).value;
            && small.Some? && small.value.slippageBps <= large.slippageBps
            && (large.isAcceptable ==> small.value.isAcceptable)
  {
    hide Vwap, SpreadPct;
    PositiveFillMeansSize(longBook.asks, q2);
    PositiveFillMeansSize(shortBook.bids, q2);
    VwapBoundedByBest(Buy, longBook.asks, q1);
    VwapBoundedByBest(Sell, shortBook.bids, q1);
    VwapNeverImproves(Buy, longBook.asks, q1, q2);
    VwapNeverImproves(Sell, shortBook.bids, q1, q2);
    SpreadPctMono(Vwap(longBook.asks, q1), Vwap(shortBook.bids, q1),
                  Vwap(longBook.asks, q2), Vwap(shortBook.bids, q2));
  }

  lemma SpreadIsRatio(long: real, short: real)
    requires short > 0.0
    ensures SpreadPct(long, short) == long / short * 100.0 - 100.0
  {
    var x := long / short;
    assert x * short == long;
    QuotientOf(long - short, short, x - 1.0);
  }

  /** A trade can be analysed exactly when it is positive and both sides hold something; it is
      acceptable exactly when the ratio of the two fills exceeds the ratio of the best quotes by at
      most maxSlippageBps ten-thousandths. */
  lemma AcceptableExactlyWhen(longBook: Book, shortBook: Book, quantity: real, maxSlippageBps: real)
    requires WellFormed(Buy, longBook.asks) && WellFormed(Sell, shortBook.bids)
    ensures var r, asks, bids :=
              AnalyzeCrossVenueSpread(longBook, shortBook, quantity, maxSlippageBps), longBook.asks, shortBook.bids;
            && (r.Some? <==> quantity > 0.0 && Total(asks) > 0.0 && Total(bids) > 0.0)
            && (r.Some? ==>
                  && Vwap(bids, quantity) > 0.0 && bids[0].price > 0.0
                  && (r.value.isAcceptable
                      <==> Vwap(asks, quantity) / Vwap(bids, quantity)
                             <= asks[0].price / bids[0].price + maxSlippageBps / 10000.0))
  {
    hide Vwap, SpreadPct;
    var r, asks, bids :=
      AnalyzeCrossVenueSpread(longBook, shortBook, quantity, maxSlippageBps), longBook.asks, shortBook.bids;
    if quantity > 0.0 && Total(asks) > 0.0 && Total(bids) > 0.0 {
      VwapBoundedByBest(Buy, asks, quantity);
      VwapBoundedByBest(Sell, bids, quantity);
      SpreadIsRatio(Vwap(asks, quantity), Vwap(bids, quantity));
      SpreadIsRatio(asks[0].price, bids[0].price);
    }
    if r.Some? {
      PositiveFillMeansSize(asks, quantity);
      PositiveFillMeansSize(bids, quantity);
    }
  }
}

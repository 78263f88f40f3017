/** Depth near the mid price: the early-exit loops of app/execution_logger.py and the
    unconditional sums behind the health index of app/data_layer.py. */
module ExecutionLogger {
  import opened Books

  /** Money resting on levels at or inside the limit, over the whole side. */
  function DepthWithin(side: Side, levels: seq<Level>, limit: real): real {
    if levels == [] then 0.0
    else (if NoWorse(side, levels[0].price, limit) then Times(levels[0].price, levels[0].size) else 0.0)
         + DepthWithin(side, levels[1..], limit)
  }

  /** The same sum cut off at the first level outside the limit. */
  function DepthUntil(side: Side, levels: seq<Level>, limit: real): real {
    if levels == [] || !NoWorse(side, levels[0].price, limit) then 0.0
    else Times(levels[0].price, levels[0].size) + DepthUntil(side, levels[1..], limit)
  }

  predicate Quoted(book: Book) {
    book.bids != [] && book.asks != [] && book.bids[0].price > 0.0 && book.asks[0].price > 0.0
  }

  function Mid(book: Book): real
    requires book.bids != [] && book.asks != []
  {
    (book.bids[0].price + book.asks[0].price) / 2.0
  }

  /** depth_within_bps. */
  method DepthWithinBps(book: Book, bps: real) returns (total: real)
    ensures !Quoted(book) ==> total == 0.0
    ensures Quoted(book) ==>
              var mid, threshold := Mid(book), Mid(book) * bps / 10000.0;
              total == DepthUntil(Sell, book.bids, mid - threshold) + DepthUntil(Buy, book.asks, mid + threshold)
  {
    var bids, asks := book.bids, book.asks;
    if bids == [] || asks == [] {
      return 0.0;
    }
    if bids[0].price <= 0.0 || asks[0].price <= 0.0 {
      return 0.0;
    }
    hide Times;
    var mid := (bids[0].price + asks[0].price) / 2.0;
    var threshold := mid * bps / 10000.0;
    total := 0.0;
    ghost var goal := DepthUntil(Sell, bids, mid - threshold);
    ghost var rest := goal;
    assert bids[0..] == bids;
    for i := 0 to |bids|
      invariant rest == DepthUntil(Sell, bids[i..], mid - threshold) && goal == total + rest
    {
      assert bids[i..][1..] == bids[i + 1..];
      if bids[i].price >= mid - threshold {
        total := total + Times(bids[i].price, bids[i].size);
        rest := rest - Times(bids[i].price, bids[i].size);
      } else {
        break;
      }
    }
    assert total == goal;
    ghost var goal2 := goal + DepthUntil(Buy, asks, mid + threshold);
    rest := goal2 - goal;
    assert asks[0..] == asks;
    for i := 0 to |asks|
      invariant rest == DepthUntil(Buy, asks[i..], mid + threshold) && goal2 == total + rest
    {
      assert asks[i..][1..] == asks[i + 1..];
      if asks[i].price <= mid + threshold {
        total := total + Times(asks[i].price, asks[i].size);
        rest := rest - Times(asks[i].price, asks[i].size);
      } else {
        break;
      }
    }
  }

  /** get_orderbook_health: the total depth before display rounding; depth range 0.5% of mid. */
  function HealthDepth(book: Book): real {
    if !Quoted(book) then 0.0
    else
      var mid, range := Mid(book), Mid(book) * 0.005;
      DepthWithin(Sell, book.bids, mid - range) + DepthWithin(Buy, book.asks, mid + range)
  }

  /** Past the first level outside the limit a sorted side has nothing inside it. */
  lemma {:induction false} NothingBeyond(side: Side, levels: seq<Level>, limit: real)
    requires BestFirst(side, levels)
    requires levels != [] && !NoWorse(side, levels[0].price, limit)
    ensures DepthWithin(side, levels, limit) == 0.0
  {
    if |levels| > 1 {
      assert NoWorse(side, levels[0].price, levels[1].price);
      NothingBeyond(side, levels[1..], limit);
    }
  }

  lemma {:induction false} EarlyExitIsExact(side: Side, levels: seq<Level>, limit: real)
    requires BestFirst(side, levels)
    ensures DepthUntil(side, levels, limit) == DepthWithin(side, levels, limit)
  {
    hide Times;
    if levels != [] {
      if NoWorse(side, levels[0].price, limit) {
        EarlyExitIsExact(side, levels[1..], limit);
      } else {
        NothingBeyond(side, levels, limit);
      }
    }
  }

  /** On a sorted book depth_within_bps(book, 50) is exactly the health index's total depth. */
  lemma HalfPercentDepthAgrees(book: Book)
    requires BestFirst(Sell, book.bids) && BestFirst(Buy, book.asks) && Quoted(book)
    ensures var mid, threshold := Mid(book), Mid(book) * 50.0 / 10000.0;
            DepthUntil(Sell, book.bids, mid - threshold) + DepthUntil(Buy, book.asks, mid + threshold)
            == HealthDepth(book)
  {
    var mid := Mid(book);
    assert mid * 50.0 / 10000.0 == mid * 0.005;
    EarlyExitIsExact(Sell, book.bids, mid - mid * 0.005);
    EarlyExitIsExact(Buy, book.asks, mid + mid * 0.005);
  }

  ghost predicate AllInside(side: Side, levels: seq<Level>, limit: real) {
    forall i :: 0 <= i < |levels| ==> NoWorse(side, levels[i].price, limit)
  }

  /** What the whole side is worth. */
  function Worth(levels: seq<Level>): real {
    if levels == [] then 0.0 else Times(levels[0].price, levels[0].size) + Worth(levels[1..])
  }

  ghost predicate PositiveLevels(levels: seq<Level>) {
    forall i :: 0 <= i < |levels| ==> levels[i].price > 0.0 && levels[i].size > 0.0
  }

  /** With positive prices and sizes the depth of a side is all it is worth exactly when all its levels
      are inside the limit. */
  lemma {:induction false} DepthIsWorthExactlyWhen(side: Side, levels: seq<Level>, limit: real)
    requires PositiveLevels(levels)
    ensures DepthWithin(side, levels, limit) <= Worth(levels)
    ensures DepthWithin(side, levels, limit) == Worth(levels) <==> AllInside(side, levels, limit)
  {
    hide Times;
    if levels != [] {
      TimesPositive(levels[0].size, levels[0].price);
      SwapFactors(levels[0].size, levels[0].price);
      DepthIsWorthExactlyWhen(side, levels[1..], limit);
      assert AllInside(side, levels, limit)
        <==> NoWorse(side, levels[0].price, limit) && AllInside(side, levels[1..], limit) by {
        assert forall i :: 0 <= i < |levels[1..]| ==> levels[1..][i] == levels[i + 1];
      }
    }
  }

  lemma SwapFactors(a: real, b: real)
    ensures Times(a, b) == Times(b, a)
  {
  }

  /** The health index counts the whole book exactly when every bid is at least 99.5 percent and every
      ask at most 100.5 percent of the midpoint of the best quotes. */
  lemma HealthDepthIsWholeBookExactlyWhen(book: Book)
    requires PositiveLevels(book.bids) && PositiveLevels(book.asks) && book.bids != [] && book.asks != []
    ensures var mid := (book.bids[0].price + book.asks[0].price) / 2.0;
            HealthDepth(book) == Worth(book.bids) + Worth(book.asks)
            <==> && (forall i :: 0 <= i < |book.bids| ==> book.bids[i].price >= mid * 0.995)
                 && (forall i :: 0 <= i < |book.asks| ==> book.asks[i].price <= mid * 1.005)
  {
    var mid := (book.bids[0].price + book.asks[0].price) / 2.0;
    DepthIsWorthExactlyWhen(Sell, book.bids, mid - mid * 0.005);
    DepthIsWorthExactlyWhen(Buy, book.asks, mid + mid * 0.005);
  }
}

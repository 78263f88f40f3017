/** One side of an order book and the arithmetic of sweeping it.

    Every walk in the repository (app/safety.py, app/arbitrage.py, app/nado_client.py,
    app/dna_bot.py) consumes the levels front to back until the requested quantity is covered.
    This module defines what such a sweep fills, what it costs and how deep it reaches, and
    proves the laws of those quantities. Prices and sizes are exact reals. */
module Books {

  datatype Side = Buy | Sell

  datatype Level = Level(price: real, size: real)

  datatype Book = Book(bids: seq<Level>, asks: seq<Level>)

  /** The side of the book an order consumes: a buy takes asks, a sell takes bids. */
  function SideLevels(book: Book, side: Side): seq<Level> {
    if side.Buy? then book.asks else book.bids
  }

  /** p is at least as good as q for the taker. */
  predicate NoWorse(side: Side, p: real, q: real) {
    if side.Buy? then p <= q else p >= q
  }

  ghost predicate BestFirst(side: Side, levels: seq<Level>) {
    forall i, j :: 0 <= i < j < |levels| ==> NoWorse(side, levels[i].price, levels[j].price)
  }

  ghost predicate NonNegativeSizes(levels: seq<Level>) {
    forall i :: 0 <= i < |levels| ==> levels[i].size >= 0.0
  }

  ghost predicate PositivePrices(levels: seq<Level>) {
    forall i :: 0 <= i < |levels| ==> levels[i].price > 0.0
  }

  /** A book side as the exchanges publish it. */
  ghost predicate WellFormed(side: Side, levels: seq<Level>) {
    BestFirst(side, levels) && NonNegativeSizes(levels) && PositivePrices(levels)
  }

  function Min(a: real, b: real): real { if a <= b then a else b }

  function Max(a: real, b: real): real { if a >= b then a else b }

  function Abs(a: real): real { if a >= 0.0 then a else -a }

  /** Product, named so that proofs can keep it out of the solver's nonlinear arithmetic. */
  function Times(a: real, b: real): real { a * b }

  function Total(levels: seq<Level>): real {
    if levels == [] then 0.0 else levels[0].size + Total(levels[1..])
  }

  /** Quantity a sweep for q takes. */
  function Filled(levels: seq<Level>, q: real): real {
    if levels == [] then 0.0
    else if q <= levels[0].size then q
    else levels[0].size + Filled(levels[1..], q - levels[0].size)
  }

  /** Money a sweep for q spends (or receives, on the bid side). */
  function Cost(levels: seq<Level>, q: real): real {
    if levels == [] then 0.0
    else if q <= levels[0].size then Times(q, levels[0].price)
    else Times(levels[0].size, levels[0].price) + Cost(levels[1..], q - levels[0].size)
  }

  /** Number of levels a sweep for q touches; at least one on a non-empty side. */
  function Reach(levels: seq<Level>, q: real): nat {
    if levels == [] then 0
    else if q <= levels[0].size then 1
    else 1 + Reach(levels[1..], q - levels[0].size)
  }

  /** The sweep for q ends with nothing remaining. */
  predicate Covers(levels: seq<Level>, q: real) {
    levels != [] && (q <= levels[0].size || Covers(levels[1..], q - levels[0].size))
  }

  /** Volume-weighted average price; 0 when nothing is filled. */
  function Vwap(levels: seq<Level>, q: real): real {
    if Filled(levels, q) > 0.0 then Cost(levels, q) / Filled(levels, q) else 0.0
  }

  /** Price of the deepest level touched; 0 on an empty side. */
  function Worst(levels: seq<Level>, q: real): real {
    ReachBounds(levels, q);
    if levels == [] then 0.0 else levels[Reach(levels, q) - 1].price
  }

  lemma ReachBounds(levels: seq<Level>, q: real)
    ensures Reach(levels, q) <= |levels|
    ensures levels != [] ==> Reach(levels, q) >= 1
  {
  }

  // ---------------------------------------------------------------------------
  // What the sweep functions mean
  // ---------------------------------------------------------------------------

  lemma {:induction false} TotalSnoc(levels: seq<Level>, i: nat)
    requires i < |levels|
    ensures Total(levels[..i + 1]) == Total(levels[..i]) + levels[i].size
  {
    if i == 0 {
      assert levels[..1] == [levels[0]];
      assert levels[..0] == [];
    } else {
      TotalSnoc(levels[1..], i - 1);
      assert levels[..i + 1][1..] == levels[1..][..i];
      assert levels[..i][1..] == levels[1..][..i - 1];
    }
  }

  lemma {:induction false} TotalNonNegative(levels: seq<Level>)
    requires NonNegativeSizes(levels)
    ensures Total(levels) >= 0.0
  {
    if levels != [] { TotalNonNegative(levels[1..]); }
  }

  /** The sweep stops at the first prefix that holds the quantity, and only there.
      No assumption on the sizes: this is what makes the walks of the repository agree. */
  lemma {:induction false} ReachIsFirstCover(levels: seq<Level>, q: real)
    requires levels != []
    ensures 1 <= Reach(levels, q) <= |levels|
    ensures forall j :: 1 <= j < Reach(levels, q) ==> Total(levels[..j]) < q
    ensures Covers(levels, q) <==> q <= Total(levels[..Reach(levels, q)])
    ensures Covers(levels, q) || Reach(levels, q) == |levels|
  {
    var s := levels[0].size;
    assert levels[..1] == [levels[0]];
    if s < q && levels[1..] != [] {
      ReachIsFirstCover(levels[1..], q - s);
      var k := Reach(levels, q);
      forall j | 1 <= j <= k ensures Total(levels[..j]) == s + Total(levels[1..][..j - 1]) {
        assert levels[..j][1..] == levels[1..][..j - 1];
      }
    }
  }

  /** With non-negative sizes the sweep takes min(q, total) and is covered iff the side holds q. */
  lemma {:induction false} FilledIsMin(levels: seq<Level>, q: real)
    requires NonNegativeSizes(levels) && q >= 0.0
    ensures Filled(levels, q) == Min(q, Total(levels))
    ensures 0.0 <= Filled(levels, q) <= q
    ensures levels != [] ==> (Covers(levels, q) <==> q <= Total(levels))
  {
    TotalNonNegative(levels);
    if levels != [] {
      TotalNonNegative(levels[1..]);
      if q > levels[0].size { FilledIsMin(levels[1..], q - levels[0].size); }
    }
  }

  lemma {:induction false} CoveredIsFilled(levels: seq<Level>, q: real)
    requires Covers(levels, q)
    ensures Filled(levels, q) == q
  {
    if q > levels[0].size { CoveredIsFilled(levels[1..], q - levels[0].size); }
  }

  // ---------------------------------------------------------------------------
  // Slope of the cost curve and the average price
  // ---------------------------------------------------------------------------

  ghost predicate AtLeast(levels: seq<Level>, p: real) {
    forall i :: 0 <= i < |levels| ==> p <= levels[i].price
  }

  lemma MulMono(a: real, b: real, c: real)
    requires a <= b && c >= 0.0
    ensures a * c <= b * c
  {
  }

  // Pure arithmetic behind the two inductions below, kept apart from the recursive functions.

  lemma SlopeInFirst(p: real, p0: real, a: real, b: real)
    requires p <= p0 && a <= b
    ensures Times(b, p0) - Times(a, p0) >= Times(p, b) - Times(p, a)
  {
    MulMono(p, p0, b - a);
  }

  lemma SlopeAcross(p: real, p0: real, a: real, s: real, c: real, f: real)
    requires p <= p0 && a <= s && c >= Times(p, f)
    ensures Times(s, p0) + c - Times(a, p0) >= Times(p, s + f) - Times(p, a)
  {
    MulMono(p, p0, s - a);
  }

  lemma SlopeBeyond(p: real, s: real, fa: real, fb: real)
    ensures Times(p, s + fb) - Times(p, s + fa) == Times(p, fb) - Times(p, fa)
  {
  }

  lemma TimesZero(p: real)
    ensures Times(p, 0.0) == 0.0
  {
  }

  // One unfolding of the sweep, for proofs that keep the recursive bodies hidden.

  lemma SweepStep(levels: seq<Level>, q: real)
    requires levels != []
    ensures q <= levels[0].size ==>
              && Cost(levels, q) == Times(q, levels[0].price) && Filled(levels, q) == q
              && Reach(levels, q) == 1 && Covers(levels, q)
    ensures q > levels[0].size ==>
              && Cost(levels, q) == Times(levels[0].size, levels[0].price) + Cost(levels[1..], q - levels[0].size)
              && Filled(levels, q) == levels[0].size + Filled(levels[1..], q - levels[0].size)
              && Reach(levels, q) == 1 + Reach(levels[1..], q - levels[0].size)
              && (Covers(levels, q) <==> Covers(levels[1..], q - levels[0].size))
  {
  }

  lemma EmptySweep(q: real)
    ensures Cost([], q) == 0.0 && Filled([], q) == 0.0 && Reach([], q) == 0 && !Covers([], q)
  {
  }

  /** One iteration of a walk that has `remaining` left when it comes to level i. */
  lemma SweepStepAt(levels: seq<Level>, i: nat, remaining: real)
    requires i < |levels|
    ensures var fill := Min(remaining, levels[i].size);
            && Cost(levels[i..], remaining) == Times(fill, levels[i].price)
                 + (if remaining <= levels[i].size then 0.0 else Cost(levels[i + 1..], remaining - fill))
            && Filled(levels[i..], remaining) == fill
                 + (if remaining <= levels[i].size then 0.0 else Filled(levels[i + 1..], remaining - fill))
    ensures Reach(levels[i..], remaining) == 1
              + (if remaining <= levels[i].size then 0 else Reach(levels[i + 1..], remaining - levels[i].size))
    ensures Covers(levels[i..], remaining)
       <==> remaining <= levels[i].size || Covers(levels[i + 1..], remaining - levels[i].size)
  {
    hide Cost, Filled, Reach, Covers;
    assert levels[i..][1..] == levels[i + 1..];
    SweepStep(levels[i..], remaining);
  }

  /** Every extra unit costs at least the lowest price of the side. */
  lemma {:induction false} CostSlope(levels: seq<Level>, a: real, b: real, p: real)
    requires NonNegativeSizes(levels) && AtLeast(levels, p) && 0.0 <= a <= b
    ensures Filled(levels, a) <= Filled(levels, b)
    ensures Cost(levels, b) - Cost(levels, a) >= Times(p, Filled(levels, b)) - Times(p, Filled(levels, a))
  {
    hide Cost, Filled, Times;
    if levels == [] {
      EmptySweep(a);
      EmptySweep(b);
    } else {
      var s, p0, rest := levels[0].size, levels[0].price, levels[1..];
      SweepStep(levels, a);
      SweepStep(levels, b);
      if b <= s {
        SlopeInFirst(p, p0, a, b);
      } else if a <= s {
        ZeroSweep(rest);
        TimesZero(p);
        CostSlope(rest, 0.0, b - s, p);
        SlopeAcross(p, p0, a, s, Cost(rest, b - s), Filled(rest, b - s));
      } else {
        CostSlope(rest, a - s, b - s, p);
        SlopeBeyond(p, s, Filled(rest, a - s), Filled(rest, b - s));
      }
    }
  }

  lemma ZeroSweep(levels: seq<Level>)
    requires NonNegativeSizes(levels)
    ensures Cost(levels, 0.0) == 0.0 && Filled(levels, 0.0) == 0.0
  {
  }

  /** The cost curve of an ascending side lies on or above its chords from the origin. */
  lemma {:induction false} CostChord(levels: seq<Level>, a: real, b: real)
    requires BestFirst(Buy, levels) && NonNegativeSizes(levels) && 0.0 <= a <= b
    ensures Times(Cost(levels, a), Filled(levels, b)) <= Times(Cost(levels, b), Filled(levels, a))
  {
    hide Cost, Filled, Times;
    if levels == [] {
      EmptySweep(a);
      EmptySweep(b);
    } else {
      var s, p, rest := levels[0].size, levels[0].price, levels[1..];
      assert AtLeast(levels, p) && AtLeast(rest, p);
      SweepStep(levels, a);
      SweepStep(levels, b);
      if a <= s {
        ZeroSweep(levels);
        TimesZero(p);
        CostSlope(levels, 0.0, b, p);
        ChordInFirst(a, p, Filled(levels, b), Cost(levels, b));
      } else {
        CostChord(rest, a - s, b - s);
        CostSlope(rest, a - s, b - s, p);
        ChordStep(s, p, Cost(rest, a - s), Filled(rest, a - s), Cost(rest, b - s), Filled(rest, b - s));
      }
    }
  }

  lemma ChordInFirst(a: real, p: real, f: real, c: real)
    requires a >= 0.0 && Times(p, f) <= c
    ensures Times(Times(a, p), f) <= Times(c, a)
  {
    MulMono(p * f, c, a);
    assert (a * p) * f == (p * f) * a;
  }

  lemma ChordStep(s: real, p: real, ca: real, fa: real, cb: real, fb: real)
    requires s >= 0.0 && Times(ca, fb) <= Times(cb, fa) && cb - ca >= Times(p, fb) - Times(p, fa)
    ensures Times(Times(s, p) + ca, s + fb) <= Times(Times(s, p) + cb, s + fa)
  {
    MulMono(p * fb - p * fa, cb - ca, s);
    assert (s * p + cb) * (s + fa) - (s * p + ca) * (s + fb)
        == ((cb - ca) * s - (p * fb - p * fa) * s) + (cb * fa - ca * fb);
  }

  /** Mirror image of a side: bids become an ascending side with negated prices. */
  function Flip(levels: seq<Level>): seq<Level> {
    seq(|levels|, i requires 0 <= i < |levels| => Level(-levels[i].price, levels[i].size))
  }

  lemma {:induction false} FlipSweep(levels: seq<Level>, q: real)
    ensures Cost(Flip(levels), q) == -Cost(levels, q)
    ensures Filled(Flip(levels), q) == Filled(levels, q)
  {
    if levels != [] {
      assert Flip(levels)[1..] == Flip(levels[1..]);
      if q > levels[0].size { FlipSweep(levels[1..], q - levels[0].size); }
    }
  }

  lemma QuotientMono(c1: real, f1: real, c2: real, f2: real)
    requires f1 > 0.0 && f2 > 0.0 && Times(c1, f2) <= Times(c2, f1)
    ensures c1 / f1 <= c2 / f2
  {
    var n := f1 * f2;
    assert n > 0.0;
    Cancel(c1, f1, f2);
    Cancel(c2, f2, f1);
    assert f2 * f1 == n;
    DivMono(c1 * f2, c2 * f1, n);
  }

  lemma Cancel(c: real, f: real, g: real)
    requires f > 0.0 && g > 0.0
    ensures f * g > 0.0 && (c * g) / (f * g) == c / f
  {
    var x := c / f;
    assert x * f == c;
    assert x * (f * g) == c * g;
  }

  lemma DivMono(a: real, b: real, n: real)
    requires a <= b && n > 0.0
    ensures a / n <= b / n
  {
  }

  lemma RatioMono(a: real, b: real, m: real)
    requires m > 0.0 && a <= b
    ensures a / m * 10000.0 <= b / m * 10000.0
  {
    DivMono(a, b, m);
  }

  /** The average price never improves as the quantity grows. */
  lemma VwapNeverImproves(side: Side, levels: seq<Level>, a: real, b: real)
    requires BestFirst(side, levels) && NonNegativeSizes(levels)
    requires Total(levels) > 0.0 && 0.0 < a <= b
    ensures NoWorse(side, Vwap(levels, a), Vwap(levels, b))
  {
    hide Cost, Filled, Times;
    FilledIsMin(levels, a);
    FilledIsMin(levels, b);
    if side.Buy? {
      CostChord(levels, a, b);
      QuotientMono(Cost(levels, a), Filled(levels, a), Cost(levels, b), Filled(levels, b));
    } else {
      CostChord(Flip(levels), a, b);
      FlipSweep(levels, a);
      FlipSweep(levels, b);
      NegatedProducts(Cost(levels, a), Filled(levels, a), Cost(levels, b), Filled(levels, b));
      QuotientMono(Cost(levels, b), Filled(levels, b), Cost(levels, a), Filled(levels, a));
    }
  }

  lemma NegatedProducts(ca: real, fa: real, cb: real, fb: real)
    requires Times(-ca, fb) <= Times(-cb, fa)
    ensures Times(cb, fa) <= Times(ca, fb)
  {
  }

  /** The average price is never better than the best level, and positive on a published side. */
  lemma VwapBoundedByBest(side: Side, levels: seq<Level>, q: real)
    requires WellFormed(side, levels) && Total(levels) > 0.0 && q > 0.0
    ensures Vwap(levels, q) > 0.0
    ensures NoWorse(side, levels[0].price, Vwap(levels, q))
  {
    hide Cost, Filled, Times;
    FilledIsMin(levels, q);
    CostPositive(levels, q);
    var p := levels[0].price;
    TimesZero(p);
    TimesZero(-p);
    if side.Buy? {
      ZeroSweep(levels);
      CostSlope(levels, 0.0, q, p);
      QuotientAtLeast(p, Cost(levels, q), Filled(levels, q));
    } else {
      ZeroSweep(Flip(levels));
      CostSlope(Flip(levels), 0.0, q, -p);
      FlipSweep(levels, q);
      QuotientAtMost(p, Cost(levels, q), Filled(levels, q));
    }
  }

  lemma QuotientAtLeast(p: real, c: real, f: real)
    requires f > 0.0 && c >= Times(p, f)
    ensures p <= c / f
  {
    QuotientMono(p, 1.0, c, f);
  }

  lemma QuotientAtMost(p: real, c: real, f: real)
    requires f > 0.0 && -c >= Times(-p, f)
    ensures c / f <= p
  {
    QuotientMono(c, f, p, 1.0);
  }

  lemma {:induction false} CostPositive(levels: seq<Level>, q: real)
    requires NonNegativeSizes(levels) && PositivePrices(levels) && q >= 0.0
    ensures Cost(levels, q) >= 0.0
    ensures Filled(levels, q) > 0.0 ==> Cost(levels, q) > 0.0
  {
    hide Cost, Filled, Times;
    if levels == [] {
      EmptySweep(q);
    } else {
      SweepStep(levels, q);
      TimesPositive(Min(q, levels[0].size), levels[0].price);
      if q > levels[0].size { CostPositive(levels[1..], q - levels[0].size); }
    }
  }

  lemma TimesPositive(a: real, p: real)
    requires a >= 0.0 && p > 0.0
    ensures Times(a, p) >= 0.0 && (a > 0.0 ==> Times(a, p) > 0.0)
  {
  }

  lemma PositiveFillMeansSize(levels: seq<Level>, q: real)
    requires NonNegativeSizes(levels) && Vwap(levels, q) > 0.0
    ensures q > 0.0 && Total(levels) > 0.0
  {
    TotalNonNegative(levels);
    if q > 0.0 { FilledIsMin(levels, q); } else { NothingAsked(levels, q); }
  }

  lemma NothingAsked(levels: seq<Level>, q: real)
    requires NonNegativeSizes(levels) && q <= 0.0
    ensures Filled(levels, q) <= 0.0
  {
  }

  // ---------------------------------------------------------------------------
  // Optimality of the sweep
  // ---------------------------------------------------------------------------

  /** A way of taking some quantity from each level. */
  ghost predicate Allocates(taken: seq<real>, levels: seq<Level>) {
    |taken| == |levels| && forall i :: 0 <= i < |levels| ==> 0.0 <= taken[i] <= levels[i].size
  }

  function Amount(taken: seq<real>): real {
    if taken == [] then 0.0 else taken[0] + Amount(taken[1..])
  }

  function Value(taken: seq<real>, levels: seq<Level>): real
    requires |taken| == |levels|
  {
    if taken == [] then 0.0 else Times(taken[0], levels[0].price) + Value(taken[1..], levels[1..])
  }

  /** What the sweep for q takes from each level. */
  function Greedy(levels: seq<Level>, q: real): seq<real> {
    if levels == [] then []
    else [Min(q, levels[0].size)] + Greedy(levels[1..], q - Min(q, levels[0].size))
  }

  lemma {:induction false} GreedyIsAnAllocation(levels: seq<Level>, q: real)
    requires NonNegativeSizes(levels) && q >= 0.0
    ensures Allocates(Greedy(levels, q), levels)
    ensures Amount(Greedy(levels, q)) == Filled(levels, q)
    ensures Value(Greedy(levels, q), levels) == Cost(levels, q)
  {
    if levels != [] {
      var f := Min(q, levels[0].size);
      var tail := Greedy(levels[1..], q - f);
      GreedyIsAnAllocation(levels[1..], q - f);
      assert Greedy(levels, q)[1..] == tail;
      if q <= levels[0].size { ZeroSweep(levels[1..]); }
    }
  }

  lemma {:induction false} AllocationBounds(taken: seq<real>, levels: seq<Level>)
    requires Allocates(taken, levels)
    ensures 0.0 <= Amount(taken) <= Total(levels)
  {
    if taken != [] { AllocationBounds(taken[1..], levels[1..]); }
  }

  lemma {:induction false} AscendingSweepIsCheapest(levels: seq<Level>, taken: seq<real>)
    requires BestFirst(Buy, levels) && NonNegativeSizes(levels) && Allocates(taken, levels)
    ensures Cost(levels, Amount(taken)) <= Value(taken, levels)
  {
    hide Cost, Filled, Times;
    if levels == [] {
      EmptySweep(0.0);
    } else {
      var p, rest := levels[0].price, levels[1..];
      var t, a0 := Amount(taken), taken[0];
      var f := Min(t, levels[0].size);
      SweepStep(levels, t);
      AllocationBounds(taken[1..], rest);
      AscendingSweepIsCheapest(rest, taken[1..]);
      assert AtLeast(rest, p);
      CostSlope(rest, t - f, t - a0, p);
      FilledIsMin(rest, t - a0);
      FilledIsMin(rest, t - f);
      ZeroSweep(rest);
      TakeMoreOfBest(p, f, a0, t);
    }
  }

  lemma TakeMoreOfBest(p: real, f: real, a0: real, t: real)
    ensures Times(p, t - a0) - Times(p, t - f) == Times(f, p) - Times(a0, p)
  {
  }

  lemma {:induction false} FlipValue(taken: seq<real>, levels: seq<Level>)
    requires |taken| == |levels|
    ensures Value(taken, Flip(levels)) == -Value(taken, levels)
  {
    if taken != [] {
      assert Flip(levels)[1..] == Flip(levels[1..]);
      FlipValue(taken[1..], levels[1..]);
    }
  }

  /** No other way of taking the same quantity buys cheaper or sells dearer, and the sweep's own
      allocation attains the optimum. */
  lemma SweepIsOptimal(side: Side, levels: seq<Level>, q: real, taken: seq<real>)
    requires BestFirst(side, levels) && NonNegativeSizes(levels) && q >= 0.0
    requires Allocates(taken, levels) && Amount(taken) == Filled(levels, q)
    ensures NoWorse(side, Cost(levels, q), Value(taken, levels))
    ensures Allocates(Greedy(levels, q), levels) && Amount(Greedy(levels, q)) == Filled(levels, q)
    ensures Value(Greedy(levels, q), levels) == Cost(levels, q)
  {
    GreedyIsAnAllocation(levels, q);
    SweepOfFilled(levels, q);
    if side.Buy? {
      AscendingSweepIsCheapest(levels, taken);
    } else {
      AscendingSweepIsCheapest(Flip(levels), taken);
      FlipValue(taken, levels);
      FlipSweep(levels, Amount(taken));
    }
  }

  lemma {:induction false} SweepOfFilled(levels: seq<Level>, q: real)
    requires NonNegativeSizes(levels) && q >= 0.0
    ensures Cost(levels, Filled(levels, q)) == Cost(levels, q)
  {
    if levels != [] && q > levels[0].size {
      FilledIsMin(levels[1..], q - levels[0].size);
      SweepOfFilled(levels[1..], q - levels[0].size);
      if Filled(levels[1..], q - levels[0].size) == 0.0 { ZeroSweep(levels[1..]); }
    }
  }

  // ---------------------------------------------------------------------------
  // Limit orders
  // ---------------------------------------------------------------------------

  /** The levels a limit order at `limit` may trade against. */
  function Within(side: Side, levels: seq<Level>, limit: real): seq<Level> {
    if levels == [] then []
    else if NoWorse(side, levels[0].price, limit) then [levels[0]] + Within(side, levels[1..], limit)
    else Within(side, levels[1..], limit)
  }

  /** A limit at or beyond the deepest level touched changes nothing about the sweep. */
  lemma {:induction false} LimitKeepsSweep(side: Side, levels: seq<Level>, q: real, limit: real)
    requires BestFirst(side, levels) && Covers(levels, q)
    requires NoWorse(side, Worst(levels, q), limit)
    ensures Covers(Within(side, levels, limit), q)
    ensures Cost(Within(side, levels, limit), q) == Cost(levels, q)
    ensures Filled(Within(side, levels, limit), q) == q
  {
    hide Cost, Filled, Covers, Reach, Times, Within;
    CoversNeedsLevels(levels, q);
    ReachBounds(levels, q);
    WithinStep(side, levels, limit);
    var rest, within := levels[1..], Within(side, levels, limit);
    SweepStep(levels, q);
    SweepStep(within, q);
    if q > levels[0].size {
      var q' := q - levels[0].size;
      CoversNeedsLevels(rest, q');
      ReachBounds(rest, q');
      assert rest[Reach(rest, q') - 1] == levels[Reach(levels, q) - 1];
      LimitKeepsSweep(side, rest, q', limit);
    }
  }

  lemma CoversNeedsLevels(levels: seq<Level>, q: real)
    ensures Covers(levels, q) ==> levels != []
  {
  }

  /** A best level inside the limit stays in front. */
  lemma WithinStep(side: Side, levels: seq<Level>, limit: real)
    requires levels != [] && NoWorse(side, levels[0].price, limit)
    ensures var within := Within(side, levels, limit);
            within != [] && within[0] == levels[0] && within[1..] == Within(side, levels[1..], limit)
  {
  }

  lemma {:induction false} WithinSizes(side: Side, levels: seq<Level>, limit: real)
    requires NonNegativeSizes(levels)
    ensures NonNegativeSizes(Within(side, levels, limit))
    ensures Total(Within(side, levels, limit)) <= Total(levels)
  {
    if levels != [] {
      WithinSizes(side, levels[1..], limit);
    }
  }

  lemma {:induction false} WorstIsNoBetterThanBest(side: Side, levels: seq<Level>, q: real)
    requires BestFirst(side, levels) && levels != []
    ensures NoWorse(side, levels[0].price, Worst(levels, q))
  {
    ReachBounds(levels, q);
  }

  lemma {:induction false} NothingWithin(side: Side, levels: seq<Level>, limit: real)
    requires BestFirst(side, levels) && levels != [] && !NoWorse(side, levels[0].price, limit)
    ensures Within(side, levels, limit) == []
  {
    if |levels| > 1 {
      assert NoWorse(side, levels[0].price, levels[1].price);
      NothingWithin(side, levels[1..], limit);
    } else {
      assert levels[1..] == [];
    }
  }

  /** The levels a limit admits hold the quantity exactly when the sweep is covered and its deepest
      level is inside the limit: that level's price is the tightest limit that fills the order. */
  lemma {:induction false} WithinHoldsExactlyWhen(side: Side, levels: seq<Level>, q: real, limit: real)
    requires BestFirst(side, levels) && NonNegativeSizes(levels) && q > 0.0
    ensures Total(Within(side, levels, limit)) >= q <==> Covers(levels, q) && NoWorse(side, Worst(levels, q), limit)
  {
    hide Reach, Covers, Cost, Filled, Within;
    if levels == [] {
      EmptySweep(q);
      assert Within(side, levels, limit) == [] by { WithinNothing(side, limit); }
    } else {
      var rest := levels[1..];
      WorstIsNoBetterThanBest(side, levels, q);
      SweepStep(levels, q);
      if !NoWorse(side, levels[0].price, limit) {
        NothingWithin(side, levels, limit);
      } else {
        WithinStep(side, levels, limit);
        WithinSizes(side, rest, limit);
        TotalNonNegative(Within(side, rest, limit));
        if q > levels[0].size {
          WithinHoldsExactlyWhen(side, rest, q - levels[0].size, limit);
          CoversNeedsLevels(rest, q - levels[0].size);
          ReachBounds(rest, q - levels[0].size);
          ReachBounds(levels, q);
          if rest != [] {
            assert rest[Reach(rest, q - levels[0].size) - 1] == levels[Reach(levels, q) - 1];
          }
        }
      }
    }
  }

  lemma WithinNothing(side: Side, limit: real)
    ensures Within(side, [], limit) == []
  {
  }

  lemma ScaleOrder(a: real, b: real, k: real)
    requires k > 0.0
    ensures a <= b <==> a * k <= b * k
  {
    if a <= b { MulMono(a, b, k); } else { StrictScale(b, a, k); }
  }

  lemma StrictScale(a: real, b: real, k: real)
    requires k > 0.0 && a < b
    ensures a * k < b * k
  {
    assert (b - a) * k > 0.0;
  }

  /** A relative move of v from e is at most m parts of `unit` exactly when v stays below e*(1 + m/unit). */
  lemma RelativeMove(v: real, e: real, m: real, unit: real)
    requires e > 0.0 && unit > 0.0
    ensures (v - e) / e * unit <= m <==> v <= e * (1.0 + m / unit)
    ensures (e - v) / e * unit <= m <==> v >= e * (1.0 - m / unit)
  {
    var w, x := (v - e) / e, m / unit;
    assert w * e == v - e && x * unit == m && (e - v) / e == -w by { Cancelled(v - e, e); Cancelled(e - v, e); }
    ScaleOrder(w, x, unit);
    ScaleOrder(w, x, e);
    ScaleOrder(-w, x, unit);
    ScaleOrder(-w, x, e);
    assert e * (1.0 + x) == e + x * e && e * (1.0 - x) == e - x * e;
  }

  lemma QuotientOf(x: real, c: real, n: real)
    requires c > 0.0 && n * c == x
    ensures x / c == n
  {
  }

  lemma Cancelled(a: real, e: real)
    requires e > 0.0
    ensures a / e * e == a && (-a) / e == -(a / e)
  {
  }

  /** The same with a strict bound. */
  lemma StrictRelativeMove(v: real, e: real, m: real, unit: real)
    requires e > 0.0 && unit > 0.0
    ensures (v - e) / e * unit < m <==> v < e * (1.0 + m / unit)
    ensures (e - v) / e * unit < m <==> v > e * (1.0 - m / unit)
  {
    RelativeMove(v, e, -m, unit);
    Cancelled(m, unit);
    Cancelled(v - e, e);
  }
}

/** Order-book replicas (app/data_layer.py): the three delta appliers, which rebuild a Python list
    in place through a dict, and the Extended handler that decides whether a replica is synced. */
module DataLayer {
  import opened Wrappers
  import opened Books

  // ---------------------------------------------------------------------------
  // Lists, dicts and sorting
  // ---------------------------------------------------------------------------

  /** A Python list of [price, size] levels: appliers change it in place. */
  class LevelList {
    var items: seq<Level>
    constructor (items: seq<Level>)
      ensures this.items == items
    {
      this.items := items;
    }
  }

  /** The dict {price: [price, size]}. */
  type PriceMap = map<real, real>

  function Key(price: real, reverse: bool): real { if reverse then -price else price }

  /** Sorted best-first, equal prices allowed. */
  ghost predicate Ordered(levels: seq<Level>, reverse: bool) {
    forall i, j :: 0 <= i < j < |levels| ==> Key(levels[i].price, reverse) <= Key(levels[j].price, reverse)
  }

  /** Sorted best-first with unique prices. */
  ghost predicate StrictlyOrdered(levels: seq<Level>, reverse: bool) {
    forall i, j :: 0 <= i < j < |levels| ==> Key(levels[i].price, reverse) < Key(levels[j].price, reverse)
  }

  /** {level[0]: level for level in levels}: a repeated price keeps its last size. */
  function AsMap(levels: seq<Level>): PriceMap {
    if levels == [] then map[] else map[levels[0].price := levels[0].size] + AsMap(levels[1..])
  }

  function Insert(x: Level, levels: seq<Level>, reverse: bool): seq<Level> {
    if levels == [] || Key(x.price, reverse) <= Key(levels[0].price, reverse) then [x] + levels
    else [levels[0]] + Insert(x, levels[1..], reverse)
  }

  /** Python's sorted() with the price as key: stable. */
  function SortLevels(levels: seq<Level>, reverse: bool): seq<Level> {
    if levels == [] then [] else Insert(levels[0], SortLevels(levels[1..], reverse), reverse)
  }

  lemma {:induction false} PricesOf(levels: seq<Level>, p: real)
    ensures p in AsMap(levels) <==> exists i :: 0 <= i < |levels| && levels[i].price == p
  {
    if levels != [] {
      PricesOf(levels[1..], p);
      if i :| 0 <= i < |levels| && levels[i].price == p {
        if i > 0 { assert levels[1..][i - 1] == levels[i]; }
      }
      if j :| 0 <= j < |levels[1..]| && levels[1..][j].price == p { assert levels[j + 1].price == p; }
    }
  }

  lemma SwapEntries(x: Level, y: Level, m: PriceMap)
    requires x.price != y.price
    ensures map[y.price := y.size] + (map[x.price := x.size] + m)
         == map[x.price := x.size] + (map[y.price := y.size] + m)
  {
  }

  lemma {:induction false} InsertKeepsMap(x: Level, levels: seq<Level>, reverse: bool)
    ensures AsMap(Insert(x, levels, reverse)) == map[x.price := x.size] + AsMap(levels)
  {
    var r := Insert(x, levels, reverse);
    if levels == [] || Key(x.price, reverse) <= Key(levels[0].price, reverse) {
      assert r[1..] == levels;
    } else {
      InsertKeepsMap(x, levels[1..], reverse);
      assert r[1..] == Insert(x, levels[1..], reverse);
      SwapEntries(x, levels[0], AsMap(levels[1..]));
    }
  }

  lemma {:induction false} InsertMembers(x: Level, levels: seq<Level>, reverse: bool)
    ensures multiset(Insert(x, levels, reverse)) == multiset(levels) + multiset{x}
    ensures forall y :: y in Insert(x, levels, reverse) ==> y == x || y in levels
  {
    if levels != [] && Key(x.price, reverse) > Key(levels[0].price, reverse) {
      InsertMembers(x, levels[1..], reverse);
      assert levels == [levels[0]] + levels[1..];
    }
  }

  lemma {:induction false} InsertKeepsOrder(x: Level, levels: seq<Level>, reverse: bool)
    requires Ordered(levels, reverse)
    ensures Ordered(Insert(x, levels, reverse), reverse)
  {
    if levels != [] && Key(x.price, reverse) > Key(levels[0].price, reverse) {
      InsertKeepsOrder(x, levels[1..], reverse);
      InsertMembers(x, levels[1..], reverse);
      var tail := Insert(x, levels[1..], reverse);
      assert forall y :: y in tail ==> Key(levels[0].price, reverse) <= Key(y.price, reverse);
    }
  }

  lemma {:induction false} SortLevelsMap(levels: seq<Level>, reverse: bool)
    ensures AsMap(SortLevels(levels, reverse)) == AsMap(levels)
  {
    if levels != [] {
      SortLevelsMap(levels[1..], reverse);
      InsertKeepsMap(levels[0], SortLevels(levels[1..], reverse), reverse);
    }
  }

  /** sorted() keeps exactly the levels, orders them best-first and denotes the same dict. */
  lemma {:induction false} SortLevelsCorrect(levels: seq<Level>, reverse: bool)
    ensures Ordered(SortLevels(levels, reverse), reverse)
    ensures multiset(SortLevels(levels, reverse)) == multiset(levels)
    ensures AsMap(SortLevels(levels, reverse)) == AsMap(levels)
  {
    hide AsMap, Ordered, Insert;
    SortLevelsMap(levels, reverse);
    if levels == [] {
      NothingIsOrdered(reverse);
    } else {
      SortLevelsCorrect(levels[1..], reverse);
      InsertKeepsOrder(levels[0], SortLevels(levels[1..], reverse), reverse);
      InsertMembers(levels[0], SortLevels(levels[1..], reverse), reverse);
      assert levels == [levels[0]] + levels[1..];
    }
  }

  lemma NothingIsOrdered(reverse: bool)
    ensures Ordered([], reverse)
  {
  }

  lemma {:induction false} OrderedWithoutRepeats(levels: seq<Level>, x: Level, reverse: bool)
    requires StrictlyOrdered(levels, reverse) && x.price !in AsMap(levels)
    ensures StrictlyOrdered(Insert(x, levels, reverse), reverse)
    decreases levels
  {
    PricesOf(levels, x.price);
    if levels != [] && Key(x.price, reverse) > Key(levels[0].price, reverse) {
      PricesOf(levels[1..], x.price);
      OrderedWithoutRepeats(levels[1..], x, reverse);
      InsertMembers(x, levels[1..], reverse);
      var tail := Insert(x, levels[1..], reverse);
      assert forall y :: y in tail ==> Key(levels[0].price, reverse) < Key(y.price, reverse);
    }
  }

  lemma {:induction false} StrictTail(levels: seq<Level>, reverse: bool)
    requires levels != [] && StrictlyOrdered(levels, reverse)
    ensures AsMap(levels[1..]) == AsMap(levels) - {levels[0].price}
    ensures levels[0].price in AsMap(levels) && AsMap(levels)[levels[0].price] == levels[0].size
    ensures forall p :: p in AsMap(levels) ==> Key(levels[0].price, reverse) <= Key(p, reverse)
  {
    PricesOf(levels[1..], levels[0].price);
    forall p | p in AsMap(levels) ensures Key(levels[0].price, reverse) <= Key(p, reverse) {
      PricesOf(levels, p);
    }
  }

  /** A dict has one strictly ordered listing. */
  lemma {:induction false} ListingIsUnique(a: seq<Level>, b: seq<Level>, reverse: bool)
    requires StrictlyOrdered(a, reverse) && StrictlyOrdered(b, reverse) && AsMap(a) == AsMap(b)
    ensures a == b
  {
    if a == [] {
      if b != [] { StrictTail(b, reverse); }
    } else {
      StrictTail(a, reverse);
      if b != [] {
        StrictTail(b, reverse);
        assert Key(a[0].price, reverse) == Key(b[0].price, reverse);
        ListingIsUnique(a[1..], b[1..], reverse);
        assert a == [a[0]] + a[1..] && b == [b[0]] + b[1..];
      }
    }
  }

  /** `levels` lists the entries of the dict that are not in `rest`. */
  ghost predicate ListsAllBut(levels: seq<Level>, rest: PriceMap, priceMap: PriceMap, reverse: bool) {
    StrictlyOrdered(levels, reverse) && AsMap(levels).Keys !! rest.Keys && AsMap(levels) + rest == priceMap
  }

  lemma MoveEntry(listed: PriceMap, rest: PriceMap, p: real)
    requires p in rest && listed.Keys !! rest.Keys
    ensures var more := map[p := rest[p]] + listed;
            more.Keys !! (rest - {p}).Keys && more + (rest - {p}) == listed + rest
  {
  }

  lemma ListOneMore(levels: seq<Level>, rest: PriceMap, priceMap: PriceMap, p: real, reverse: bool)
    requires ListsAllBut(levels, rest, priceMap, reverse) && p in rest
    ensures ListsAllBut(Insert(Level(p, rest[p]), levels, reverse), rest - {p}, priceMap, reverse)
  {
    hide AsMap, StrictlyOrdered, Insert;
    OrderedWithoutRepeats(levels, Level(p, rest[p]), reverse);
    InsertKeepsMap(Level(p, rest[p]), levels, reverse);
    MoveEntry(AsMap(levels), rest, p);
  }

  lemma ListedAll(levels: seq<Level>, rest: PriceMap, priceMap: PriceMap, reverse: bool)
    requires ListsAllBut(levels, rest, priceMap, reverse) && rest.Items == {}
    ensures StrictlyOrdered(levels, reverse) && AsMap(levels) == priceMap
  {
    ItemsHoldEveryKey(rest);
    assert rest == map[];
  }

  lemma ItemsHoldEveryKey(m: PriceMap)
    ensures forall p :: p in m.Keys ==> (p, m[p]) in m.Items
  {
  }

  /** sorted(price_map.values(), key=...): the iteration order of the dict does not matter. */
  method SortedValues(priceMap: PriceMap, reverse: bool) returns (levels: seq<Level>)
    ensures StrictlyOrdered(levels, reverse) && AsMap(levels) == priceMap
  {
    levels := [];
    var rest := priceMap;
    while rest.Items != {}
      invariant ListsAllBut(levels, rest, priceMap, reverse)
      decreases rest.Keys
    {
      hide ListsAllBut;
      var entry :| entry in rest.Items;
      ListOneMore(levels, rest, priceMap, entry.0, reverse);
      levels := Insert(Level(entry.0, entry.1), levels, reverse);
      rest := rest - {entry.0};
    }
    ListedAll(levels, rest, priceMap, reverse);
  }

  lemma ListingExists(m: PriceMap, reverse: bool)
    ensures exists l :: StrictlyOrdered(l, reverse) && AsMap(l) == m
    decreases m.Keys
  {
    if m.Items == {} {
      ItemsHoldEveryKey(m);
      assert m == map[];
      assert StrictlyOrdered([], reverse) && AsMap([]) == m;
    } else {
      var entry :| entry in m.Items;
      ListingExists(m - {entry.0}, reverse);
      var l :| StrictlyOrdered(l, reverse) && AsMap(l) == m - {entry.0};
      OrderedWithoutRepeats(l, Level(entry.0, entry.1), reverse);
      InsertKeepsMap(Level(entry.0, entry.1), l, reverse);
      assert StrictlyOrdered(Insert(Level(entry.0, entry.1), l, reverse), reverse);
      assert map[entry.0 := entry.1] + (m - {entry.0}) == m;
    }
  }

  /** The strictly ordered listing of a dict. */
  ghost function Listing(m: PriceMap, reverse: bool): (l: seq<Level>)
    ensures StrictlyOrdered(l, reverse) && AsMap(l) == m
  {
    ListingExists(m, reverse);
    var l :| StrictlyOrdered(l, reverse) && AsMap(l) == m;
    l
  }

  // ---------------------------------------------------------------------------
  // One map update behind the three appliers
  // ---------------------------------------------------------------------------

  datatype Change = Change(price: real, size: real)

  /** size > 0 upserts the level, otherwise the level is removed. */
  function ApplyChange(m: PriceMap, c: Change): PriceMap {
    if c.size <= 0.0 then m - {c.price} else m[c.price := c.size]
  }

  function ApplyChanges(m: PriceMap, cs: seq<Change>): PriceMap
    decreases cs
  {
    if cs == [] then m else ApplyChanges(ApplyChange(m, cs[0]), cs[1..])
  }

  function Collect<E>(entries: seq<E>, decode: E -> Option<Change>): seq<Change> {
    if entries == [] then []
    else match decode(entries[0])
      case None => Collect(entries[1..], decode)
      case Some(c) => [c] + Collect(entries[1..], decode)
  }

  /** The last change of a price in a batch. */
  function LastChange(cs: seq<Change>, p: real): Option<Change> {
    if cs == [] then None
    else if LastChange(cs[1..], p).Some? then LastChange(cs[1..], p)
    else if cs[0].price == p then Some(cs[0]) else None
  }

  /** After a batch each price holds what its last change says, or what it held before. */
  lemma {:induction false} LastChangeDecides(m: PriceMap, cs: seq<Change>, p: real)
    ensures var last, after := LastChange(cs, p), ApplyChanges(m, cs);
            match last
            case None => (p in after <==> p in m) && (p in m ==> after[p] == m[p])
            case Some(c) => (p in after <==> c.size > 0.0) && (c.size > 0.0 ==> after[p] == c.size)
    decreases cs
  {
    if cs != [] {
      LastChangeDecides(ApplyChange(m, cs[0]), cs[1..], p);
    }
  }

  lemma {:induction false} BatchesConcatenate(m: PriceMap, a: seq<Change>, b: seq<Change>)
    ensures ApplyChanges(ApplyChanges(m, a), b) == ApplyChanges(m, a + b)
    decreases a
  {
    if a == [] {
      assert a + b == b;
    } else {
      BatchesConcatenate(ApplyChange(m, a[0]), a[1..], b);
      assert (a + b)[1..] == a[1..] + b;
    }
  }

  lemma BatchIsIdempotent(m: PriceMap, cs: seq<Change>)
    ensures ApplyChanges(ApplyChanges(m, cs), cs) == ApplyChanges(m, cs)
  {
    var once := ApplyChanges(m, cs);
    var twice := ApplyChanges(once, cs);
    forall p ensures (p in twice <==> p in once) && (p in once ==> twice[p] == once[p]) {
      LastChangeDecides(m, cs, p);
      LastChangeDecides(once, cs, p);
    }
  }

  ghost predicate PositiveSizes(m: PriceMap) { forall p :: p in m ==> m[p] > 0.0 }

  lemma {:induction false} BatchKeepsPositive(m: PriceMap, cs: seq<Change>)
    requires PositiveSizes(m)
    ensures PositiveSizes(ApplyChanges(m, cs))
    decreases cs
  {
    if cs != [] { BatchKeepsPositive(ApplyChange(m, cs[0]), cs[1..]); }
  }

  /** `after` is what an applier leaves of `before`. */
  ghost predicate Updated(before: seq<Level>, cs: seq<Change>, after: seq<Level>, reverse: bool) {
    StrictlyOrdered(after, reverse) && AsMap(after) == ApplyChanges(AsMap(before), cs)
  }

  /** For the lists themselves: two batches in turn leave the list their concatenation leaves, and
      re-applying a batch leaves the list as it is. */
  lemma ListsFollowTheMap(l0: seq<Level>, a: seq<Change>, b: seq<Change>,
                          l1: seq<Level>, l2: seq<Level>, both: seq<Level>, again: seq<Level>, reverse: bool)
    requires Updated(l0, a, l1, reverse) && Updated(l1, b, l2, reverse)
    requires Updated(l0, a + b, both, reverse) && Updated(l1, a, again, reverse)
    ensures l2 == both && again == l1
  {
    BatchesConcatenate(AsMap(l0), a, b);
    BatchIsIdempotent(AsMap(l0), a);
    ListingIsUnique(l2, both, reverse);
    ListingIsUnique(again, l1, reverse);
  }

  // ---------------------------------------------------------------------------
  // The three appliers
  // ---------------------------------------------------------------------------

  /** Extended: p, c and q as sent; any may be missing. */
  datatype ExtendedEntry = ExtendedEntry(p: Option<real>, c: Option<real>, q: Option<real>)

  datatype RisexEntry = RisexEntry(price: Option<real>, quantity: Option<real>)

  const X18_FLOAT: real := 1000000000000000000.0

  /** The cumulative size when present, otherwise the q field. */
  function ExtendedChange(e: ExtendedEntry): Option<Change> {
    if e.p.None? then None
    else if e.c.Some? then Some(Change(e.p.value, e.c.value))
    else Some(Change(e.p.value, if e.q.Some? then e.q.value else 0.0))
  }

  function RisexChange(e: RisexEntry): Option<Change> {
    if e.price.None? || e.quantity.None? then None else Some(Change(e.price.value, e.quantity.value))
  }

  function NadoChange(e: seq<real>): Option<Change> {
    if |e| < 2 then None else Some(Change(e[0] / X18_FLOAT, e[1] / X18_FLOAT))
  }

  /** _apply_delta_cumulative. */
  method ApplyDeltaCumulative(book: LevelList, updates: seq<ExtendedEntry>, reverse: bool)
    modifies book
    ensures Updated(old(book.items), Collect(updates, ExtendedChange), book.items, reverse)
    ensures old(PositiveSizes(AsMap(book.items))) ==> PositiveSizes(AsMap(book.items))
  {
    var priceMap := AsMap(book.items);
    ghost var goal := ApplyChanges(priceMap, Collect(updates, ExtendedChange));
    assert updates[0..] == updates;
    for i := 0 to |updates|
      invariant ApplyChanges(priceMap, Collect(updates[i..], ExtendedChange)) == goal
    {
      assert updates[i..][1..] == updates[i + 1..];
      var entry := updates[i];
      if entry.p.None? {
        continue;
      }
      var price := entry.p.value;
      if entry.c.Some? {
        var cum := entry.c.value;
        if cum <= 0.0 {
          priceMap := priceMap - {price};
        } else {
          priceMap := priceMap[price := cum];
        }
      } else {
        var q := if entry.q.Some? then entry.q.value else 0.0;
        if q <= 0.0 {
          priceMap := priceMap - {price};
        } else {
          priceMap := priceMap[price := q];
        }
      }
    }
    book.items := [];
    var sorted := SortedValues(priceMap, reverse);
    book.items := book.items + sorted;
    assert book.items == sorted;
    if PositiveSizes(AsMap(old(book.items))) {
      BatchKeepsPositive(AsMap(old(book.items)), Collect(updates, ExtendedChange));
    }
  }

  /** _apply_risex_delta. */
  method ApplyRisexDelta(book: LevelList, updates: seq<RisexEntry>, reverse: bool)
    modifies book
    ensures Updated(old(book.items), Collect(updates, RisexChange), book.items, reverse)
    ensures old(PositiveSizes(AsMap(book.items))) ==> PositiveSizes(AsMap(book.items))
  {
    var priceMap := AsMap(book.items);
    ghost var goal := ApplyChanges(priceMap, Collect(updates, RisexChange));
    assert updates[0..] == updates;
    for i := 0 to |updates|
      invariant ApplyChanges(priceMap, Collect(updates[i..], RisexChange)) == goal
    {
      assert updates[i..][1..] == updates[i + 1..];
      var entry := updates[i];
      if entry.price.None? || entry.quantity.None? {
        continue;
      }
      if entry.quantity.value <= 0.0 {
        priceMap := priceMap - {entry.price.value};
      } else {
        priceMap := priceMap[entry.price.value := entry.quantity.value];
      }
    }
    var sorted := SortedValues(priceMap, reverse);
    book.items := sorted;
    if PositiveSizes(AsMap(old(book.items))) {
      BatchKeepsPositive(AsMap(old(book.items)), Collect(updates, RisexChange));
    }
  }

  /** _apply_nado_delta: prices and sizes arrive scaled by 10^18. */
  method ApplyNadoDelta(book: LevelList, updates: seq<seq<real>>, reverse: bool)
    modifies book
    ensures Updated(old(book.items), Collect(updates, NadoChange), book.items, reverse)
    ensures old(PositiveSizes(AsMap(book.items))) ==> PositiveSizes(AsMap(book.items))
  {
    var priceMap := AsMap(book.items);
    ghost var goal := ApplyChanges(priceMap, Collect(updates, NadoChange));
    assert updates[0..] == updates;
    for i := 0 to |updates|
      invariant ApplyChanges(priceMap, Collect(updates[i..], NadoChange)) == goal
    {
      assert updates[i..][1..] == updates[i + 1..];
      var entry := updates[i];
      if |entry| < 2 {
        continue;
      }
      var price, size := entry[0] / X18_FLOAT, entry[1] / X18_FLOAT;
      if size <= 0.0 {
        priceMap := priceMap - {price};
      } else {
        priceMap := priceMap[price := size];
      }
    }
    var sorted := SortedValues(priceMap, reverse);
    book.items := sorted;
    if PositiveSizes(AsMap(old(book.items))) {
      BatchKeepsPositive(AsMap(old(book.items)), Collect(updates, NadoChange));
    }
  }

  // ---------------------------------------------------------------------------
  // What an entry says
  // ---------------------------------------------------------------------------

  /** The listing the appliers leave is best-first with distinct prices: bids falling, asks rising. */
  lemma ListsAreBestFirst(levels: seq<Level>, side: Side)
    requires StrictlyOrdered(levels, side.Sell?)
    ensures BestFirst(side, levels)
    ensures forall i, j :: 0 <= i < j < |levels| ==>
              if side.Buy? then levels[i].price < levels[j].price else levels[i].price > levels[j].price
  {
  }

  /** An Extended entry sets its price to the cumulative size when it has one, else to its q, else to
      nothing; without a price it is ignored. */
  lemma ExtendedEntriesMean(p: real, c: real, q: Option<real>, rest: seq<ExtendedEntry>)
    ensures Collect([ExtendedEntry(Some(p), Some(c), q)] + rest, ExtendedChange)
         == [Change(p, c)] + Collect(rest, ExtendedChange)
    ensures Collect([ExtendedEntry(Some(p), None, Some(c))] + rest, ExtendedChange)
         == [Change(p, c)] + Collect(rest, ExtendedChange)
    ensures Collect([ExtendedEntry(Some(p), None, None)] + rest, ExtendedChange)
         == [Change(p, 0.0)] + Collect(rest, ExtendedChange)
    ensures Collect([ExtendedEntry(None, Some(c), q)] + rest, ExtendedChange) == Collect(rest, ExtendedChange)
  {
    assert ([ExtendedEntry(Some(p), Some(c), q)] + rest)[1..] == rest;
    assert ([ExtendedEntry(Some(p), None, Some(c))] + rest)[1..] == rest;
    assert ([ExtendedEntry(Some(p), None, None)] + rest)[1..] == rest;
    assert ([ExtendedEntry(None, Some(c), q)] + rest)[1..] == rest;
  }

  /** A RISEx entry sets its price to its quantity; it is ignored when either is missing. */
  lemma RisexEntriesMean(p: real, q: real, rest: seq<RisexEntry>)
    ensures Collect([RisexEntry(Some(p), Some(q))] + rest, RisexChange) == [Change(p, q)] + Collect(rest, RisexChange)
    ensures Collect([RisexEntry(None, Some(q))] + rest, RisexChange) == Collect(rest, RisexChange)
    ensures Collect([RisexEntry(Some(p), None)] + rest, RisexChange) == Collect(rest, RisexChange)
  {
    assert ([RisexEntry(Some(p), Some(q))] + rest)[1..] == rest;
    assert ([RisexEntry(None, Some(q))] + rest)[1..] == rest;
    assert ([RisexEntry(Some(p), None)] + rest)[1..] == rest;
  }

  /** A Nado entry carries price, then size, both times 10^18, and perhaps more; a shorter one is
      ignored. */
  lemma NadoEntriesMean(p: real, q: real, more: seq<real>, rest: seq<seq<real>>)
    ensures Collect([[p * 1000000000000000000.0, q * 1000000000000000000.0] + more] + rest, NadoChange)
         == [Change(p, q)] + Collect(rest, NadoChange)
    ensures Collect([[p]] + rest, NadoChange) == Collect(rest, NadoChange)
    ensures Collect([[]] + rest, NadoChange) == Collect(rest, NadoChange)
  {
    var entry := [p * 1000000000000000000.0, q * 1000000000000000000.0] + more;
    assert entry[0] / X18_FLOAT == p && entry[1] / X18_FLOAT == q;
    assert ([entry] + rest)[1..] == rest && ([[p]] + rest)[1..] == rest;
    assert ([[]] + rest)[1..] == rest;
  }
}

/** The Extended order-book replica (app/data_layer.py): a snapshot-and-delta protocol whose
    handler tracks sequence numbers to decide `is_synced`. The channel may lose, duplicate,
    reorder and reconnect. */
module ExtendedFeed {
  import opened Wrappers
  import opened Books
  import opened DataLayer

  /** One entry of a snapshot; entries without a price are skipped. */
  datatype SnapshotEntry = SnapshotEntry(p: Option<real>, q: real)

  /** A parsed message. `seq` is -1 when the field is missing; Empty is a message without data. */
  datatype Message =
    | Snapshot(seqNo: int, b: seq<SnapshotEntry>, a: seq<SnapshotEntry>)
    | Delta(seqNo: int, bidEntries: seq<ExtendedEntry>, askEntries: seq<ExtendedEntry>)
    | Empty

  datatype Event =
    | Received(msg: Message)
    | Connected
    | Closed      // the connection closed in an orderly way
    | Failed      // any other exception in the feed task

  datatype Replica = Replica(
    bids: seq<Level>, asks: seq<Level>, isSynced: bool, connected: bool, lastSeq: int, updateCount: nat)

  const INITIAL := Replica([], [], false, false, -1, 0)

  function Priced(entries: seq<SnapshotEntry>): seq<Level> {
    if entries == [] then []
    else if entries[0].p.Some? then [Level(entries[0].p.value, entries[0].q)] + Priced(entries[1..])
    else Priced(entries[1..])
  }

  // ---------------------------------------------------------------------------
  // One event
  // ---------------------------------------------------------------------------

  /** A snapshot replaces a side only when it carries priced entries for it. */
  function SnapshotSide(current: seq<Level>, entries: seq<SnapshotEntry>, reverse: bool): seq<Level> {
    if Priced(entries) == [] then current else SortLevels(Priced(entries), reverse)
  }

  ghost function DeltaSide(current: seq<Level>, entries: seq<ExtendedEntry>, reverse: bool): seq<Level> {
    if entries == [] then current
    else Listing(ApplyChanges(AsMap(current), Collect(entries, ExtendedChange)), reverse)
  }

  ghost function Step(r: Replica, e: Event): Replica {
    match e
    case Connected => r.(connected := true)
    case Closed => r.(connected := false)
    case Failed => r.(connected := false, isSynced := false)
    case Received(Empty) => r
    case Received(Snapshot(n, b, a)) =>
      Replica(SnapshotSide(r.bids, b, true), SnapshotSide(r.asks, a, false), true, r.connected, n, r.updateCount + 1)
    case Received(Delta(n, b, a)) =>
      var tracked := n != -1 && r.lastSeq != -1;
      Replica(DeltaSide(r.bids, b, true), DeltaSide(r.asks, a, false),
              r.isSynced && (tracked ==> n == r.lastSeq + 1), r.connected,
              if tracked then n else r.lastSeq, r.updateCount + 1)
  }

  ghost function Run(r: Replica, events: seq<Event>): Replica
    decreases events
  {
    if events == [] then r else Run(Step(r, events[0]), events[1..])
  }

  /** The cached snapshot object the handler updates. */
  class OrderbookSnapshot {
    var bids: LevelList
    var asks: LevelList
    var isSynced: bool
    var connected: bool
    var lastSeq: int
    var updateCount: nat

    ghost predicate Valid()
      reads this
    {
      bids != asks
    }

    ghost function View(): Replica
      reads this, bids, asks
    {
      Replica(bids.items, asks.items, isSynced, connected, lastSeq, updateCount)
    }

    constructor ()
      ensures Valid() && View() == INITIAL && fresh(bids) && fresh(asks)
    {
      bids := new LevelList([]);
      asks := new LevelList([]);
      isSynced, connected, lastSeq, updateCount := false, false, -1, 0;
    }

    /** One side of a delta, in place; an absent side is left alone. */
    method ApplySide(book: LevelList, entries: seq<ExtendedEntry>, reverse: bool)
      modifies book
      ensures book.items == DeltaSide(old(book.items), entries, reverse)
    {
      if entries != [] {
        ApplyDeltaCumulative(book, entries, reverse);
        ListingIsUnique(book.items, DeltaSide(old(book.items), entries, reverse), reverse);
      }
    }

    /** _handle_extended_message. */
    method HandleExtendedMessage(msg: Message)
      requires Valid()
      modifies this, bids, asks
      ensures Valid() && View() == Step(old(View()), Received(msg))
      ensures bids == old(bids) || fresh(bids)
      ensures asks == old(asks) || fresh(asks)
    {
      hide DeltaSide;
      if msg.Empty? {
        return;
      }
      if msg.Snapshot? {
        lastSeq := msg.seqNo;
        isSynced := true;
      } else if msg.seqNo != -1 && lastSeq != -1 {
        if msg.seqNo != lastSeq + 1 {
          isSynced := false;
        }
        lastSeq := msg.seqNo;
      }
      if msg.Snapshot? {
        var bidLevels, askLevels := Priced(msg.b), Priced(msg.a);
        if bidLevels != [] {
          bids := new LevelList(SortLevels(bidLevels, true));
        }
        if askLevels != [] {
          asks := new LevelList(SortLevels(askLevels, false));
        }
      } else {
        ApplySide(bids, msg.bidEntries, true);
        ApplySide(asks, msg.askEntries, false);
      }
      updateCount := updateCount + 1;
    }

    /** The feed task's connection bookkeeping. */
    method OnConnection(e: Event)
      requires Valid() && !e.Received?
      modifies this
      ensures Valid() && View() == Step(old(View()), e)
      ensures bids == old(bids) && asks == old(asks)
    {
      connected := e.Connected?;
      if e.Failed? {
        isSynced := false;
      }
    }
  }

  // ---------------------------------------------------------------------------
  // The exchange
  // ---------------------------------------------------------------------------

  datatype Batch = Batch(bids: seq<Change>, asks: seq<Change>)

  /** The exchange's book at sequence number `base`, and the change that each later number makes. */
  datatype Exchange = Exchange(base: nat, bids: PriceMap, asks: PriceMap, batches: seq<Batch>)

  predicate InRange(ex: Exchange, n: int) { ex.base <= n <= ex.base + |ex.batches| }

  function BidsAt(ex: Exchange, n: nat): PriceMap
    requires InRange(ex, n)
    decreases n
  {
    if n == ex.base then ex.bids else ApplyChanges(BidsAt(ex, n - 1), ex.batches[n - 1 - ex.base].bids)
  }

  function AsksAt(ex: Exchange, n: nat): PriceMap
    requires InRange(ex, n)
    decreases n
  {
    if n == ex.base then ex.asks else ApplyChanges(AsksAt(ex, n - 1), ex.batches[n - 1 - ex.base].asks)
  }

  ghost predicate NoRepeats(levels: seq<Level>) {
    forall i, j :: 0 <= i < j < |levels| ==> levels[i].price != levels[j].price
  }

  /** Every entry carries its price and the cumulative size `c`; `q` may be anything. */
  ghost predicate Carries(entries: seq<ExtendedEntry>, cs: seq<Change>) {
    |entries| == |cs|
    && forall i :: 0 <= i < |cs| ==> entries[i].p == Some(cs[i].price) && entries[i].c == Some(cs[i].size)
  }

  /** A message the exchange sent at some time: sequenced, with both sides of a snapshot non-empty. */
  ghost predicate Genuine(ex: Exchange, msg: Message) {
    match msg
    case Empty => true
    case Snapshot(n, b, a) =>
      && InRange(ex, n)
      && Priced(b) != [] && NoRepeats(Priced(b)) && AsMap(Priced(b)) == BidsAt(ex, n)
      && Priced(a) != [] && NoRepeats(Priced(a)) && AsMap(Priced(a)) == AsksAt(ex, n)
    case Delta(n, b, a) =>
      && InRange(ex, n) && n > ex.base
      && Carries(b, ex.batches[n - 1 - ex.base].bids) && Carries(a, ex.batches[n - 1 - ex.base].asks)
  }

  ghost predicate GenuineRun(ex: Exchange, events: seq<Event>) {
    forall i :: 0 <= i < |events| ==> events[i].Received? ==> Genuine(ex, events[i].msg)
  }

  /** The replica's lists are the exchange's book as of its last sequence number. */
  ghost predicate Mirrors(ex: Exchange, r: Replica) {
    && InRange(ex, r.lastSeq)
    && r.bids == Listing(BidsAt(ex, r.lastSeq), true)
    && r.asks == Listing(AsksAt(ex, r.lastSeq), false)
  }

  lemma {:induction false} CarriedChanges(entries: seq<ExtendedEntry>, cs: seq<Change>)
    requires Carries(entries, cs)
    ensures Collect(entries, ExtendedChange) == cs
  {
    if entries != [] {
      CarriedChanges(entries[1..], cs[1..]);
      assert cs == [cs[0]] + cs[1..];
    }
  }

  lemma SortWithoutRepeats(levels: seq<Level>, reverse: bool)
    requires NoRepeats(levels)
    ensures SortLevels(levels, reverse) == Listing(AsMap(levels), reverse)
  {
    SortLevelsCorrect(levels, reverse);
    SortStrictly(levels, reverse);
    ListingIsUnique(SortLevels(levels, reverse), Listing(AsMap(levels), reverse), reverse);
  }

  lemma {:induction false} SortStrictly(levels: seq<Level>, reverse: bool)
    requires NoRepeats(levels)
    ensures StrictlyOrdered(SortLevels(levels, reverse), reverse)
  {
    if levels != [] {
      SortStrictly(levels[1..], reverse);
      SortLevelsMap(levels[1..], reverse);
      PricesOf(levels[1..], levels[0].price);
      OrderedWithoutRepeats(SortLevels(levels[1..], reverse), levels[0], reverse);
    }
  }

  lemma SnapshotMirrors(ex: Exchange, r: Replica, msg: Message)
    requires msg.Snapshot? && Genuine(ex, msg)
    ensures Mirrors(ex, Step(r, Received(msg)))
  {
    SortWithoutRepeats(Priced(msg.b), true);
    SortWithoutRepeats(Priced(msg.a), false);
  }

  lemma DeltaSideMirrors(current: PriceMap, entries: seq<ExtendedEntry>, cs: seq<Change>, reverse: bool)
    requires Carries(entries, cs)
    ensures DeltaSide(Listing(current, reverse), entries, reverse) == Listing(ApplyChanges(current, cs), reverse)
  {
    CarriedChanges(entries, cs);
  }

  /** One event keeps "synced implies mirror". */
  lemma StepKeepsMirror(ex: Exchange, r: Replica, e: Event)
    requires r.isSynced ==> Mirrors(ex, r)
    requires e.Received? ==> Genuine(ex, e.msg)
    ensures Step(r, e).isSynced ==> Mirrors(ex, Step(r, e))
  {
    hide DeltaSide, Listing;
    if e.Received? && e.msg.Snapshot? {
      SnapshotMirrors(ex, r, e.msg);
    } else if e.Received? && e.msg.Delta? && Step(r, e).isSynced {
      var n := e.msg.seqNo;
      assert n == r.lastSeq + 1;
      var batch := ex.batches[n - 1 - ex.base];
      DeltaSideMirrors(BidsAt(ex, r.lastSeq), e.msg.bidEntries, batch.bids, true);
      DeltaSideMirrors(AsksAt(ex, r.lastSeq), e.msg.askEntries, batch.asks, false);
    }
  }

  /** Under any loss, duplication, reordering and reconnection of genuine messages, a replica that
      claims to be synced lists exactly the exchange's book as of its last sequence number. */
  lemma {:induction false} SyncedReplicaMirrorsExchange(ex: Exchange, r: Replica, events: seq<Event>)
    requires r.isSynced ==> Mirrors(ex, r)
    requires GenuineRun(ex, events)
    ensures Run(r, events).isSynced ==> Mirrors(ex, Run(r, events))
    decreases events
  {
    if events != [] {
      StepKeepsMirror(ex, r, events[0]);
      assert GenuineRun(ex, events[1..]) by {
        forall i | 0 <= i < |events[1..]| ensures events[1..][i].Received? ==> Genuine(ex, events[1..][i].msg) {
          assert events[1..][i] == events[i + 1];
        }
      }
      SyncedReplicaMirrorsExchange(ex, Step(r, events[0]), events[1..]);
    }
  }

  /** The statement for a feed that starts from the empty cache entry. */
  lemma FreshReplicaMirrorsExchange(ex: Exchange, events: seq<Event>)
    requires GenuineRun(ex, events)
    ensures Run(INITIAL, events).isSynced ==> Mirrors(ex, Run(INITIAL, events))
  {
    SyncedReplicaMirrorsExchange(ex, INITIAL, events);
  }

  /** When a delta keeps a synced replica synced: it continues the sequence, or sequence tracking
      is off on either side. A gap, a duplicate and a reordered delta all drop the flag. */
  lemma DeltaKeepsSyncExactlyWhen(r: Replica, msg: Message)
    requires msg.Delta?
    ensures Step(r, Received(msg)).isSynced
       <==> r.isSynced && (msg.seqNo == r.lastSeq + 1 || msg.seqNo == -1 || r.lastSeq == -1)
  {
  }

  /** Once unsynced, only a snapshot brings the flag back. */
  lemma {:induction false} UnsyncedUntilSnapshot(r: Replica, events: seq<Event>)
    requires !r.isSynced
    requires forall i :: 0 <= i < |events| ==> !(events[i].Received? && events[i].msg.Snapshot?)
    ensures !Run(r, events).isSynced
    decreases events
  {
    if events != [] {
      assert !Step(r, events[0]).isSynced;
      UnsyncedUntilSnapshot(Step(r, events[0]), events[1..]);
    }
  }

  // ---------------------------------------------------------------------------
  // Where the assumptions are needed
  // ---------------------------------------------------------------------------

  /** A snapshot installs the books it carries exactly when no side it leaves empty still holds
      levels locally: an emptied side is silently kept while the replica reports synced. */
  lemma SnapshotInstalledExactlyWhen(r: Replica, msg: Message)
    requires msg.Snapshot? && NoRepeats(Priced(msg.b)) && NoRepeats(Priced(msg.a))
    ensures var after := Step(r, Received(msg));
            && after.isSynced
            && (&& after.bids == Listing(AsMap(Priced(msg.b)), true)
                && after.asks == Listing(AsMap(Priced(msg.a)), false)
                <==> (Priced(msg.b) == [] ==> r.bids == []) && (Priced(msg.a) == [] ==> r.asks == []))
  {
    SortWithoutRepeats(Priced(msg.b), true);
    SortWithoutRepeats(Priced(msg.a), false);
  }

  /** Neither a failure of the feed task nor a snapshot with a sequence number. */
  predicate LeavesUntracked(e: Event) {
    !e.Failed? && !(e.Received? && e.msg.Snapshot? && e.msg.seqNo != -1)
  }

  lemma {:induction false} UntrackedStaysSynced(r: Replica, events: seq<Event>)
    requires r.isSynced && r.lastSeq == -1
    requires forall i :: 0 <= i < |events| ==> LeavesUntracked(events[i])
    ensures Run(r, events).isSynced && Run(r, events).lastSeq == -1
    decreases events
  {
    if events != [] { UntrackedStaysSynced(Step(r, events[0]), events[1..]); }
  }

  /** After a snapshot without a sequence number gap detection is off: whatever deltas follow, lost,
      repeated or out of order, across reconnects and further such snapshots, the replica stays
      synced until the feed fails or a numbered snapshot arrives. */
  lemma UnsequencedSnapshotHidesGaps(r: Replica, snapshot: Message, events: seq<Event>)
    requires snapshot.Snapshot? && snapshot.seqNo == -1
    requires forall i :: 0 <= i < |events| ==> LeavesUntracked(events[i])
    ensures var after := Run(Step(r, Received(snapshot)), events);
            after.isSynced && after.lastSeq == -1
  {
    UntrackedStaysSynced(Step(r, Received(snapshot)), events);
  }

  /** An exchange that changes its bid and then its ask. */
  const TWO_CHANGES := Exchange(0, map[100.0 := 1.0], map[101.0 := 1.0],
                                [Batch([Change(100.0, 2.0)], []), Batch([], [Change(101.0, 3.0)])])

  /** Its book at the start, sent without a number; and its second delta, the first being lost. */
  const UNNUMBERED := Snapshot(-1, [SnapshotEntry(Some(100.0), 1.0)], [SnapshotEntry(Some(101.0), 1.0)])

  const SECOND := Delta(2, [], [ExtendedEntry(Some(101.0), Some(3.0), None)])

  lemma BookIs(m: PriceMap, p: real, size: real, reverse: bool)
    requires m == map[p := size]
    ensures Listing(m, reverse) == [Level(p, size)]
  {
    var l := [Level(p, size)];
    assert l[1..] == [] && AsMap(l) == m && StrictlyOrdered(l, reverse);
    ListingIsUnique(Listing(m, reverse), l, reverse);
  }

  lemma OneEntry(p: real, q: real, reverse: bool)
    ensures Priced([SnapshotEntry(Some(p), q)]) == [Level(p, q)]
    ensures SortLevels([Level(p, q)], reverse) == [Level(p, q)]
  {
    assert [SnapshotEntry(Some(p), q)][1..] == [] && [Level(p, q)][1..] == [];
  }

  lemma ReplicaAfterTheLoss(r: Replica)
    ensures var after := Step(Step(r, Received(UNNUMBERED)), Received(SECOND));
            after.isSynced && after.bids == [Level(100.0, 1.0)] && after.asks == [Level(101.0, 3.0)]
  {
    OneEntry(100.0, 1.0, true);
    OneEntry(101.0, 1.0, false);
    var before := Step(r, Received(UNNUMBERED));
    assert before.bids == [Level(100.0, 1.0)] && before.asks == [Level(101.0, 1.0)];
    assert before.asks[1..] == [];
    var entries := SECOND.askEntries;
    assert entries[1..] == [];
    var changes := Collect(entries, ExtendedChange);
    assert changes == [Change(101.0, 3.0)] && changes[1..] == [];
    assert ApplyChanges(AsMap(before.asks), changes) == map[101.0 := 3.0];
    BookIs(ApplyChanges(AsMap(before.asks), changes), 101.0, 3.0, false);
  }

  lemma NoChange(m: PriceMap)
    ensures ApplyChanges(m, []) == m
  {
  }

  lemma OneChange(m: PriceMap, c: Change)
    ensures ApplyChanges(m, [c]) == ApplyChange(m, c)
  {
    assert [c][1..] == [];
  }

  lemma {:induction false} BooksOfTheExchange(n: nat)
    requires InRange(TWO_CHANGES, n)
    ensures BidsAt(TWO_CHANGES, n) == map[100.0 := if n == 0 then 1.0 else 2.0]
    ensures AsksAt(TWO_CHANGES, n) == map[101.0 := if n == 2 then 3.0 else 1.0]
    decreases n
  {
    hide ApplyChanges;
    if n > 0 {
      BooksOfTheExchange(n - 1);
      var bids, asks := BidsAt(TWO_CHANGES, n - 1), AsksAt(TWO_CHANGES, n - 1);
      if n == 1 {
        OneChange(bids, Change(100.0, 2.0));
        NoChange(asks);
      } else {
        NoChange(bids);
        OneChange(asks, Change(101.0, 3.0));
      }
    }
  }

  /** A delta lost after such a snapshot: the replica reports synced, and its lists are not the
      exchange's book at any sequence number. */
  lemma LostDeltaGoesUnnoticed(r: Replica, n: nat)
    requires InRange(TWO_CHANGES, n)
    ensures var after := Run(r, [Received(UNNUMBERED), Received(SECOND)]);
            && after.isSynced
            && !(after.bids == Listing(BidsAt(TWO_CHANGES, n), true)
                 && after.asks == Listing(AsksAt(TWO_CHANGES, n), false))
  {
    hide Step, Listing;
    var events := [Received(UNNUMBERED), Received(SECOND)];
    assert events[1..] == [Received(SECOND)] && events[1..][1..] == [];
    assert Run(r, events) == Run(Step(r, events[0]), events[1..]);
    assert Run(Step(r, events[0]), events[1..]) == Run(Step(Step(r, events[0]), events[1]), []);
    ReplicaAfterTheLoss(r);
    BooksOfTheExchange(n);
    BookIs(BidsAt(TWO_CHANGES, n), 100.0, if n == 0 then 1.0 else 2.0, true);
    BookIs(AsksAt(TWO_CHANGES, n), 101.0, if n == 2 then 3.0 else 1.0, false);
  }

  // ---------------------------------------------------------------------------
  // The lists of any replica, synced or not
  // ---------------------------------------------------------------------------

  /** After this side's entries each price holds what the last entry for it says, or what it held. */
  ghost predicate SideFollows(before: seq<Level>, entries: seq<ExtendedEntry>, after: seq<Level>, p: real) {
    var held, holds, last := AsMap(before), AsMap(after), LastChange(Collect(entries, ExtendedChange), p);
    match last
    case None => (p in holds <==> p in held) && (p in held ==> holds[p] == held[p])
    case Some(c) => (p in holds <==> c.size > 0.0) && (c.size > 0.0 ==> holds[p] == c.size)
  }

  /** A delta is applied whatever the sequence numbers and the flag say. */
  lemma DeltaIsAlwaysApplied(r: Replica, msg: Message, p: real)
    requires msg.Delta?
    ensures var after := Step(r, Received(msg));
            && SideFollows(r.bids, msg.bidEntries, after.bids, p)
            && SideFollows(r.asks, msg.askEntries, after.asks, p)
            && (msg.bidEntries != [] ==> StrictlyOrdered(after.bids, true) && BestFirst(Sell, after.bids))
            && (msg.askEntries != [] ==> StrictlyOrdered(after.asks, false) && BestFirst(Buy, after.asks))
            && after.updateCount == r.updateCount + 1
  {
    var after := Step(r, Received(msg));
    LastChangeDecides(AsMap(r.bids), Collect(msg.bidEntries, ExtendedChange), p);
    LastChangeDecides(AsMap(r.asks), Collect(msg.askEntries, ExtendedChange), p);
    if msg.bidEntries != [] { ListsAreBestFirst(after.bids, Sell); }
    if msg.askEntries != [] { ListsAreBestFirst(after.asks, Buy); }
  }

  /** Two messages that say the same about the book. */
  predicate SameContents(m: Message, n: Message) {
    || (m.Snapshot? && n.Snapshot? && m.b == n.b && m.a == n.a)
    || (m.Delta? && n.Delta? && m.bidEntries == n.bidEntries && m.askEntries == n.askEntries)
  }

  /** An event that carries book data. */
  predicate CarriesData(e: Event) { e.Received? && !e.msg.Empty? }

  /** The two runs carry the same book data in the same order; sequence numbers, connection events and
      empty messages may differ. */
  predicate SameData(a: seq<Event>, b: seq<Event>)
    decreases |a| + |b|
  {
    if a != [] && !CarriesData(a[0]) then SameData(a[1..], b)
    else if b != [] && !CarriesData(b[0]) then SameData(a, b[1..])
    else if a == [] || b == [] then a == b
    else SameContents(a[0].msg, b[0].msg) && SameData(a[1..], b[1..])
  }

  predicate SameLists(r: Replica, t: Replica) { r.bids == t.bids && r.asks == t.asks && r.updateCount == t.updateCount }

  /** The lists depend on the data alone: whatever the sequence numbers, the flags and the state of the
      connection, replicas with equal lists that get the same data end with equal lists. */
  lemma {:induction false} ListsDependOnDataAlone(r: Replica, t: Replica, a: seq<Event>, b: seq<Event>)
    requires SameLists(r, t) && SameData(a, b)
    ensures SameLists(Run(r, a), Run(t, b))
    decreases |a| + |b|
  {
    hide DeltaSide, SnapshotSide;
    if a != [] && !CarriesData(a[0]) {
      ListsDependOnDataAlone(Step(r, a[0]), t, a[1..], b);
    } else if b != [] && !CarriesData(b[0]) {
      ListsDependOnDataAlone(r, Step(t, b[0]), a, b[1..]);
    } else if a != [] && b != [] {
      ListsDependOnDataAlone(Step(r, a[0]), Step(t, b[0]), a[1..], b[1..]);
    }
  }

  /** The last connection event, if there is one. */
  function LastConnection(events: seq<Event>): Option<Event> {
    if events == [] then None
    else if LastConnection(events[1..]).Some? then LastConnection(events[1..])
    else if events[0].Received? then None else Some(events[0])
  }

  /** The replica is connected exactly when the last connection event was a connection. */
  lemma {:induction false} ConnectedExactlyWhen(r: Replica, events: seq<Event>)
    ensures var last := LastConnection(events);
            Run(r, events).connected == if last.Some? then last.value.Connected? else r.connected
    decreases events
  {
    hide DeltaSide, SnapshotSide;
    if events != [] { ConnectedExactlyWhen(Step(r, events[0]), events[1..]); }
  }

  /** The number of the last message that has one. */
  function LastNumber(events: seq<Event>): Option<int> {
    if events == [] then None
    else if LastNumber(events[1..]).Some? then LastNumber(events[1..])
    else if CarriesData(events[0]) && events[0].msg.seqNo != -1 then Some(events[0].msg.seqNo) else None
  }

  /** While numbers are tracked, a gap, a duplicate or a reordered delta moves the last number on to
      its own: only the flag remembers it. */
  lemma {:induction false} LastNumberIsTracked(r: Replica, events: seq<Event>)
    requires r.lastSeq != -1
    requires forall i :: 0 <= i < |events| && events[i].Received? && events[i].msg.Snapshot? ==>
                           events[i].msg.seqNo != -1
    ensures var last := LastNumber(events);
            Run(r, events).lastSeq == if last.Some? then last.value else r.lastSeq
    decreases events
  {
    hide DeltaSide, SnapshotSide;
    if events != [] { LastNumberIsTracked(Step(r, events[0]), events[1..]); }
  }
}

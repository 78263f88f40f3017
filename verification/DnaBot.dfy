/** The delta-neutral arbitrage bot (app/dna_bot.py): position slots, the per-token cooldown after
    automatic closes, and the pre-flight walk of the NADO book. Signals and closes are handled one
    at a time, with a fixed configuration. */
module DnaBot {
  import opened Wrappers
  import opened Books
  import NadoClient

  datatype Status = Open | Closing | Closed

  datatype Position = Position(token: string, buyExchange: string, sellExchange: string, status: Status)

  datatype SpreadMode = DeltaNeutral | HalfNeutral | Custom

  /** The configuration that a signal is tested against; `clients` are the exchanges with a client. */
  datatype Config = Config(
    maxPositions: int, cooldownS: real, excluded: seq<string>, maxSignalAgeMs: real, exchanges: seq<string>,
    clients: seq<string>, spreadMode: SpreadMode, customMinSpreadBps: real, minProfitBps: real, positionSizeUsd: real)

  /** Expiry time per upper-case token. */
  type Cooldowns = map<string, real>

  function UpperChar(c: char): char {
    if 'a' <= c <= 'z' then ((c as int) - 32) as char else c
  }

  function Upper(s: string): string { seq(|s|, i requires 0 <= i < |s| => UpperChar(s[i])) }

  // ---------------------------------------------------------------------------
  // Steps
  // ---------------------------------------------------------------------------

  /** An opportunity message; the timestamp is None when it is missing or does not parse. `filled`
      says that the pre-flight checks passed and both legs filled. */
  datatype Signal = Signal(token: string, buyExchange: string, sellExchange: string, timestampMs: Option<int>,
                           buyPrice: real, sellPrice: real, netProfitBps: real, feeThresholdBps: real,
                           maxQty: real, filled: bool)

  datatype Event =
    | OnSignal(now: real, signal: Signal)
    | OnClose(now: real, index: nat, automatic: bool, clientsKnown: bool, legsFilled: bool)
    | OnDelete(now: real, index: nat)
    | OnReset(now: real)

  /** `autoCloses` is the full history of automatic closes, which the bot itself does not keep. */
  datatype State = State(positions: seq<Position>, cooldowns: Cooldowns, autoCloses: seq<(string, real)>, clock: real)

  function OpenCount(ps: seq<Position>): nat {
    if ps == [] then 0 else (if ps[0].status.Open? then 1 else 0) + OpenCount(ps[1..])
  }

  predicate Occupied(ps: seq<Position>, token: string, exchange: string) {
    exists i :: 0 <= i < |ps| && ps[i].status.Open? && ps[i].token == token
                && (ps[i].buyExchange == exchange || ps[i].sellExchange == exchange)
  }

  predicate InCooldown(m: Cooldowns, cooldownS: real, key: string, now: real) {
    cooldownS > 0.0 && key in m && now < m[key]
  }

  /** _is_token_in_cooldown evicts an expired entry when it looks at it. */
  function Evicted(m: Cooldowns, cooldownS: real, key: string, now: real): Cooldowns {
    if cooldownS > 0.0 && key in m && now >= m[key] then m - {key} else m
  }

  /** The age test; `now` is in seconds. */
  predicate Stale(cfg: Config, g: Signal, now: real) {
    && g.timestampMs.Some? && g.timestampMs.value > 0 && cfg.maxSignalAgeMs > 0.0
    && now * 1000.0 - g.timestampMs.value as real > cfg.maxSignalAgeMs
  }

  /** _compute_min_threshold. */
  function MinThreshold(cfg: Config, feeThresholdBps: real): real {
    match cfg.spreadMode
    case HalfNeutral => feeThresholdBps * 0.5
    case Custom => cfg.customMinSpreadBps
    case DeltaNeutral => feeThresholdBps
  }

  function TargetQty(cfg: Config, g: Signal): real
    requires g.buyPrice > 0.0 && g.sellPrice > 0.0
  {
    var target := cfg.positionSizeUsd / ((g.buyPrice + g.sellPrice) / 2.0);
    if g.maxQty > 0.0 then Min(target, g.maxQty) else target
  }

  /** The tests after the cooldown test. */
  predicate Wanted(cfg: Config, g: Signal) {
    && g.buyExchange in cfg.exchanges && g.sellExchange in cfg.exchanges
    && g.netProfitBps >= MinThreshold(cfg, g.feeThresholdBps)
    && (cfg.minProfitBps > 0.0 ==> g.netProfitBps >= cfg.minProfitBps)
    && g.buyExchange in cfg.clients && g.sellExchange in cfg.clients
    && g.buyPrice > 0.0 && g.sellPrice > 0.0 && TargetQty(cfg, g) > 0.0
  }

  /** The tests before the cooldown test. */
  predicate Considered(ps: seq<Position>, cfg: Config, g: Signal, now: real) {
    && !Stale(cfg, g, now) && OpenCount(ps) < cfg.maxPositions
    && !Occupied(ps, g.token, g.buyExchange) && !Occupied(ps, g.token, g.sellExchange)
    && forall t :: t in cfg.excluded ==> Upper(t) != Upper(g.token)
  }

  predicate Opens(s: State, cfg: Config, e: Event) {
    && e.OnSignal? && Considered(s.positions, cfg, e.signal, e.now)
    && !InCooldown(s.cooldowns, cfg.cooldownS, Upper(e.signal.token), e.now)
    && Wanted(cfg, e.signal) && e.signal.filled
  }

  function Step(s: State, cfg: Config, e: Event): State {
    match e
    case OnSignal(now, g) =>
      var looked := if Considered(s.positions, cfg, g, now)
                    then Evicted(s.cooldowns, cfg.cooldownS, Upper(g.token), now) else s.cooldowns;
      State(if Opens(s, cfg, e) then s.positions + [Position(g.token, g.buyExchange, g.sellExchange, Open)]
            else s.positions, looked, s.autoCloses, now)
    case OnClose(now, k, automatic, clientsKnown, legsFilled) =>
      if k >= |s.positions| || !s.positions[k].status.Open? || !clientsKnown || !legsFilled then s.(clock := now)
      else
        var key := Upper(s.positions[k].token);
        State(s.positions[k := s.positions[k].(status := Closed)],
              if automatic && cfg.cooldownS > 0.0 then s.cooldowns[key := now + cfg.cooldownS] else s.cooldowns,
              if automatic then s.autoCloses + [(key, now)] else s.autoCloses, now)
    case OnDelete(now, k) =>
      if k < |s.positions| && s.positions[k].status.Closed?
      then s.(positions := Without(s.positions, k), clock := now) else s.(clock := now)
    case OnReset(now) => s.(positions := [], clock := now)
  }

  function Run(s: State, cfg: Config, events: seq<Event>): State
    decreases events
  {
    if events == [] then s else Run(Step(s, cfg, events[0]), cfg, events[1..])
  }

  function Fresh(clock: real): State { State([], map[], [], clock) }

  // ---------------------------------------------------------------------------
  // The bot object
  // ---------------------------------------------------------------------------

  class DNAPosition {
    const token: string
    const buyExchange: string
    const sellExchange: string
    var status: Status

    constructor (token: string, buyExchange: string, sellExchange: string)
      ensures Value() == Position(token, buyExchange, sellExchange, Open)
    {
      this.token, this.buyExchange, this.sellExchange := token, buyExchange, sellExchange;
      status := Open;
    }

    function Value(): Position
      reads this
    {
      Position(token, buyExchange, sellExchange, status)
    }
  }

  function Values(ps: seq<DNAPosition>): (vs: seq<Position>)
    reads ps
    ensures |vs| == |ps| && forall i :: 0 <= i < |ps| ==> vs[i] == ps[i].Value()
  {
    if ps == [] then [] else [ps[0].Value()] + Values(ps[1..])
  }

  predicate Distinct(ps: seq<DNAPosition>) {
    forall i, j :: 0 <= i < j < |ps| ==> ps[i] != ps[j]
  }

  class DNABot {
    const cfg: Config
    var positions: seq<DNAPosition>
    var cooldownUntil: Cooldowns
    ghost var autoCloses: seq<(string, real)>
    ghost var clock: real

    ghost predicate Valid()
      reads this
    {
      Distinct(positions)
    }

    ghost function View(): State
      reads this, positions
    {
      State(Values(positions), cooldownUntil, autoCloses, clock)
    }

    constructor (cfg: Config, ghost clock: real)
      ensures Valid() && View() == Fresh(clock) && this.cfg == cfg
    {
      this.cfg := cfg;
      positions, cooldownUntil, autoCloses := [], map[], [];
      this.clock := clock;
    }

    /** The occupancy tests of _handle_signal over the open positions. */
    method SlotFree(g: Signal) returns (free: bool)
      ensures free <==> OpenCount(Values(positions)) < cfg.maxPositions
                        && !Occupied(Values(positions), g.token, g.buyExchange)
                        && !Occupied(Values(positions), g.token, g.sellExchange)
    {
      var vs := Values(positions);
      var open, clash := 0, false;
      assert vs[0..] == vs;
      for i := 0 to |vs|
        invariant open + OpenCount(vs[i..]) == OpenCount(vs)
        invariant clash <==> Occupied(vs[..i], g.token, g.buyExchange) || Occupied(vs[..i], g.token, g.sellExchange)
      {
        assert vs[i..][1..] == vs[i + 1..];
        OccupiedSnoc(vs, i, g.token, g.buyExchange);
        OccupiedSnoc(vs, i, g.token, g.sellExchange);
        if vs[i].status.Open? {
          open := open + 1;
          if vs[i].token == g.token && (vs[i].buyExchange in {g.buyExchange, g.sellExchange}
                                        || vs[i].sellExchange in {g.buyExchange, g.sellExchange}) {
            clash := true;
          }
        }
      }
      assert vs[..|vs|] == vs;
      free := open < cfg.maxPositions && !clash;
    }

    /** _is_token_in_cooldown. */
    method IsTokenInCooldown(token: string, now: real) returns (blocked: bool)
      modifies `cooldownUntil
      ensures blocked <==> InCooldown(old(cooldownUntil), cfg.cooldownS, Upper(token), now)
      ensures cooldownUntil == Evicted(old(cooldownUntil), cfg.cooldownS, Upper(token), now)
    {
      if cfg.cooldownS <= 0.0 {
        return false;
      }
      var key := Upper(token);
      if key !in cooldownUntil {
        return false;
      }
      if now >= cooldownUntil[key] {
        cooldownUntil := cooldownUntil - {key};
        return false;
      }
      return true;
    }

    /** The filters of _handle_signal after the cooldown test. */
    method PassesFilters(g: Signal) returns (wanted: bool)
      ensures wanted <==> Wanted(cfg, g)
    {
      if g.buyExchange !in cfg.exchanges || g.sellExchange !in cfg.exchanges {
        return false;
      }
      if g.netProfitBps < MinThreshold(cfg, g.feeThresholdBps) {
        return false;
      }
      if cfg.minProfitBps > 0.0 && g.netProfitBps < cfg.minProfitBps {
        return false;
      }
      if g.buyExchange !in cfg.clients || g.sellExchange !in cfg.clients {
        return false;
      }
      if g.buyPrice <= 0.0 || g.sellPrice <= 0.0 {
        return false;
      }
      var midPrice := (g.buyPrice + g.sellPrice) / 2.0;
      var targetQty := cfg.positionSizeUsd / midPrice;
      if g.maxQty > 0.0 {
        targetQty := Min(targetQty, g.maxQty);
      }
      return targetQty > 0.0;
    }

    /** _handle_signal and _open_position. */
    method HandleSignal(now: real, g: Signal)
      requires Valid()
      modifies this
      ensures Valid() && View() == Step(old(View()), cfg, OnSignal(now, g))
    {
      hide Occupied, OpenCount, Evicted, InCooldown, Values, Upper, Wanted;
      clock := now;
      if g.timestampMs.Some? && g.timestampMs.value > 0 {
        var signalAgeMs := now * 1000.0 - g.timestampMs.value as real;
        if cfg.maxSignalAgeMs > 0.0 && signalAgeMs > cfg.maxSignalAgeMs {
          return;
        }
      }
      var free := SlotFree(g);
      if !free {
        return;
      }
      if exists t :: t in cfg.excluded && Upper(t) == Upper(g.token) {
        return;
      }
      var blocked := IsTokenInCooldown(g.token, now);
      if blocked {
        return;
      }
      var wanted := PassesFilters(g);
      if !wanted || !g.filled {
        return;
      }
      var position := new DNAPosition(g.token, g.buyExchange, g.sellExchange);
      positions := positions + [position];
    }

    /** _close_position of the k-th position, which its callers have found open. */
    method ClosePosition(now: real, k: nat, automatic: bool, clientsKnown: bool, legsFilled: bool) returns (ok: bool)
      requires Valid() && k < |positions| && positions[k].status.Open?
      modifies this, positions[k]
      ensures Valid() && View() == Step(old(View()), cfg, OnClose(now, k, automatic, clientsKnown, legsFilled))
      ensures ok <==> clientsKnown && legsFilled
    {
      hide Values, Upper;
      clock := now;
      var pos := positions[k];
      pos.status := Closing;
      if !clientsKnown || !legsFilled {
        pos.status := Open;
        return false;
      }
      pos.status := Closed;
      if automatic {
        if cfg.cooldownS > 0.0 {
          cooldownUntil := cooldownUntil[Upper(pos.token) := now + cfg.cooldownS];
        }
        autoCloses := autoCloses + [(Upper(pos.token), now)];
      }
      return true;
    }

    /** delete_position of the k-th position: only a closed one is dropped from the history. */
    method DeletePosition(now: real, k: nat) returns (deleted: bool)
      requires Valid() && k < |positions|
      modifies this
      ensures Valid() && View() == Step(old(View()), cfg, OnDelete(now, k))
      ensures deleted <==> old(positions[k].status).Closed?
    {
      clock := now;
      if positions[k].status != Closed {
        return false;
      }
      hide Values, Distinct, Without, Opens, Considered, Evicted, Upper;
      ValuesWithout(positions, k);
      DistinctWithout(positions, k);
      positions := Without(positions, k);
      return true;
    }

    /** reset: the positions go, the cooldowns stay. */
    method Reset(now: real)
      modifies this
      ensures Valid() && View() == Step(old(View()), cfg, OnReset(now))
    {
      clock := now;
      positions := [];
    }
  }

  lemma WithoutAt<T>(s: seq<T>, k: nat, i: nat)
    requires k < |s| && i < |s| - 1
    ensures |Without(s, k)| == |s| - 1 && Without(s, k)[i] == s[if i < k then i else i + 1]
  {
  }

  lemma ValueAt(ps: seq<DNAPosition>, i: nat)
    requires i < |ps|
    ensures |Values(ps)| == |ps| && Values(ps)[i] == ps[i].Value()
  {
  }

  lemma ValueWithout(ps: seq<DNAPosition>, k: nat, i: nat)
    requires k < |ps| && i < |ps| - 1
    ensures |Values(ps)| == |ps| == |Values(Without(ps, k))| + 1
    ensures Values(Without(ps, k))[i] == Without(Values(ps), k)[i]
  {
    hide Values, Without;
    WithoutSize(ps, k);
    WithoutAt(ps, k, i);
    ValueAt(Without(ps, k), i);
    ValueAt(ps, if i < k then i else i + 1);
    WithoutAt(Values(ps), k, i);
  }

  lemma ValuesWithout(ps: seq<DNAPosition>, k: nat)
    requires k < |ps|
    ensures Values(Without(ps, k)) == Without(Values(ps), k)
  {
    hide Values, Without;
    WithoutSize(ps, k);
    WithoutSize(Values(ps), k);
    forall i | 0 <= i < |ps| - 1 ensures Values(Without(ps, k))[i] == Without(Values(ps), k)[i] {
      ValueWithout(ps, k, i);
    }
  }

  lemma DistinctWithout(ps: seq<DNAPosition>, k: nat)
    requires k < |ps| && Distinct(ps)
    ensures Distinct(Without(ps, k))
  {
    hide Without;
    forall i, j | 0 <= i < j < |Without(ps, k)| ensures Without(ps, k)[i] != Without(ps, k)[j] {
      WithoutSize(ps, k);
      WithoutAt(ps, k, i);
      WithoutAt(ps, k, j);
    }
  }

  lemma WithoutSize<T>(s: seq<T>, k: nat)
    requires k < |s|
    ensures |Without(s, k)| == |s| - 1
  {
  }

  lemma OccupiedSnoc(ps: seq<Position>, i: nat, token: string, exchange: string)
    requires i < |ps|
    ensures Occupied(ps[..i + 1], token, exchange)
       <==> Occupied(ps[..i], token, exchange)
            || (ps[i].status.Open? && ps[i].token == token
                && (ps[i].buyExchange == exchange || ps[i].sellExchange == exchange))
  {
    assert forall j :: 0 <= j < i ==> ps[..i + 1][j] == ps[..i][j];
    assert ps[..i + 1][i] == ps[i];
  }

  // ---------------------------------------------------------------------------
  // Slots
  // ---------------------------------------------------------------------------

  /** Two open positions never hold the same token on the same exchange. */
  ghost predicate NoSharedSlot(ps: seq<Position>) {
    forall i, j :: 0 <= i < j < |ps| && ps[i].status.Open? && ps[j].status.Open? && ps[i].token == ps[j].token ==>
      && ps[i].buyExchange != ps[j].buyExchange && ps[i].buyExchange != ps[j].sellExchange
      && ps[i].sellExchange != ps[j].buyExchange && ps[i].sellExchange != ps[j].sellExchange
  }

  lemma {:induction false} OpenCountConcat(a: seq<Position>, b: seq<Position>)
    ensures OpenCount(a + b) == OpenCount(a) + OpenCount(b)
  {
    if a == [] {
      assert a + b == b;
    } else {
      OpenCountConcat(a[1..], b);
      assert (a + b)[1..] == a[1..] + b;
    }
  }

  lemma OpenCountUpdate(ps: seq<Position>, k: nat, p: Position)
    requires k < |ps| && ps[k].status.Open? && !p.status.Open?
    ensures OpenCount(ps[k := p]) == OpenCount(ps) - 1
  {
    assert ps == ps[..k] + ([ps[k]] + ps[k + 1..]) && ps[k := p] == ps[..k] + ([p] + ps[k + 1..]);
    OpenCountConcat(ps[..k], [ps[k]] + ps[k + 1..]);
    OpenCountConcat(ps[..k], [p] + ps[k + 1..]);
    assert ([ps[k]] + ps[k + 1..])[1..] == ps[k + 1..] && ([p] + ps[k + 1..])[1..] == ps[k + 1..];
  }

  lemma OpenCountRemove(ps: seq<Position>, k: nat)
    requires k < |ps|
    ensures OpenCount(ps[..k] + ps[k + 1..]) <= OpenCount(ps)
  {
    hide OpenCount;
    assert ps == ps[..k] + ([ps[k]] + ps[k + 1..]);
    OpenCountConcat(ps[..k], [ps[k]] + ps[k + 1..]);
    OpenCountConcat([ps[k]], ps[k + 1..]);
    OpenCountConcat(ps[..k], ps[k + 1..]);
  }

  lemma OpenCountOne(p: Position)
    ensures OpenCount([p]) <= 1
  {
    assert [p][1..] == [];
  }

  lemma OpeningKeepsSlots(s: State, cfg: Config, e: Event)
    requires NoSharedSlot(s.positions) && Opens(s, cfg, e)
    ensures NoSharedSlot(Step(s, cfg, e).positions) && OpenCount(Step(s, cfg, e).positions) <= cfg.maxPositions
  {
    hide OpenCount, InCooldown, Evicted;
    var ps, g := s.positions, e.signal;
    var p := Position(g.token, g.buyExchange, g.sellExchange, Open);
    OpenCountConcat(ps, [p]);
    OpenCountOne(p);
  }

  lemma RemovingKeepsSlots(ps: seq<Position>, k: nat)
    requires k < |ps| && NoSharedSlot(ps)
    ensures NoSharedSlot(ps[..k] + ps[k + 1..])
  {
    var cut := ps[..k] + ps[k + 1..];
    assert forall i :: 0 <= i < |cut| ==> cut[i] == ps[if i < k then i else i + 1];
  }

  lemma StepKeepsSlots(s: State, cfg: Config, e: Event)
    requires NoSharedSlot(s.positions) && 0 <= OpenCount(s.positions) <= cfg.maxPositions
    ensures NoSharedSlot(Step(s, cfg, e).positions) && OpenCount(Step(s, cfg, e).positions) <= cfg.maxPositions
  {
    hide Considered, InCooldown, Evicted, Upper, Opens;
    var ps := s.positions;
    match e
    case OnSignal(_, g) =>
      if Opens(s, cfg, e) { OpeningKeepsSlots(s, cfg, e); }
    case OnClose(_, k, _, _, _) =>
      if k < |ps| && ps[k].status.Open? { OpenCountUpdate(ps, k, ps[k].(status := Closed)); }
    case OnDelete(_, k) =>
      if k < |ps| {
        OpenCountRemove(ps, k);
        RemovingKeepsSlots(ps, k);
      }
    case OnReset(_) =>
  }

  // ---------------------------------------------------------------------------
  // Cooldown
  // ---------------------------------------------------------------------------

  function LastClose(h: seq<(string, real)>, key: string): Option<real> {
    if h == [] then None
    else if h[|h| - 1].0 == key then Some(h[|h| - 1].1)
    else LastClose(h[..|h| - 1], key)
  }

  /** Some automatic close of the token lies less than the cooldown back. */
  ghost predicate RecentlyClosed(h: seq<(string, real)>, cooldownS: real, key: string, now: real) {
    exists i :: 0 <= i < |h| && h[i].0 == key && now < h[i].1 + cooldownS
  }

  ghost predicate Chronological(h: seq<(string, real)>, clock: real) {
    (forall i :: 0 <= i < |h| ==> h[i].1 <= clock) && (forall i, j :: 0 <= i < j < |h| ==> h[i].1 <= h[j].1)
  }

  lemma {:induction false} LastCloseDecides(h: seq<(string, real)>, clock: real, cooldownS: real, key: string,
                                            now: real)
    requires Chronological(h, clock)
    ensures RecentlyClosed(h, cooldownS, key, now)
       <==> LastClose(h, key).Some? && now < LastClose(h, key).value + cooldownS
  {
    if h != [] {
      var prefix, last := h[..|h| - 1], h[|h| - 1];
      LastCloseDecides(prefix, clock, cooldownS, key, now);
      assert forall i :: 0 <= i < |prefix| ==> prefix[i] == h[i];
      if RecentlyClosed(h, cooldownS, key, now) && last.0 != key {
        var i :| 0 <= i < |h| && h[i].0 == key && now < h[i].1 + cooldownS;
        assert prefix[i] == h[i];
      }
    }
  }

  /** What the map keeps of the history: the expiry of the last close, unless it has passed. */
  ghost predicate Remembers(s: State, cfg: Config) {
    && Chronological(s.autoCloses, s.clock)
    && (cfg.cooldownS > 0.0 ==> forall key: string :: KeyRemembered(s, cfg, key))
  }

  ghost predicate KeyRemembered(s: State, cfg: Config, key: string) {
    var last := LastClose(s.autoCloses, key);
    if key in s.cooldowns then last.Some? && s.cooldowns[key] == last.value + cfg.cooldownS
    else last.Some? ==> last.value + cfg.cooldownS <= s.clock
  }

  lemma StepKeepsChronology(s: State, cfg: Config, e: Event)
    requires Chronological(s.autoCloses, s.clock) && e.now >= s.clock
    ensures Chronological(Step(s, cfg, e).autoCloses, Step(s, cfg, e).clock)
  {
    hide Considered, Opens, Evicted, Upper;
  }

  /** What a step does to the map and the history. */
  lemma StepTouchesOneKey(s: State, cfg: Config, e: Event)
    ensures var after := Step(s, cfg, e);
            || (after.autoCloses == s.autoCloses
                && (after.cooldowns == s.cooldowns
                    || exists key :: after.cooldowns == Evicted(s.cooldowns, cfg.cooldownS, key, e.now)))
            || exists key ::
                 && after.autoCloses == s.autoCloses + [(key, e.now)]
                 && after.cooldowns
                    == if cfg.cooldownS > 0.0 then s.cooldowns[key := e.now + cfg.cooldownS] else s.cooldowns
  {
    hide Considered, Opens, Evicted, Upper;
  }

  lemma EvictionRemembers(s: State, after: State, cfg: Config, looked: string, key: string)
    requires cfg.cooldownS > 0.0 && KeyRemembered(s, cfg, key) && after.clock >= s.clock
    requires after.autoCloses == s.autoCloses
    requires || after.cooldowns == s.cooldowns
             || after.cooldowns == Evicted(s.cooldowns, cfg.cooldownS, looked, after.clock)
    ensures KeyRemembered(after, cfg, key)
  {
    hide LastClose;
  }

  lemma CloseRemembers(s: State, after: State, cfg: Config, closed: string, key: string)
    requires cfg.cooldownS > 0.0 && KeyRemembered(s, cfg, key) && after.clock >= s.clock
    requires after.autoCloses == s.autoCloses + [(closed, after.clock)]
    requires after.cooldowns == s.cooldowns[closed := after.clock + cfg.cooldownS]
    ensures KeyRemembered(after, cfg, key)
  {
    LastCloseSnoc(s.autoCloses, after.autoCloses, key);
    hide LastClose;
  }

  lemma StepRemembersKey(s: State, cfg: Config, e: Event, key: string)
    requires cfg.cooldownS > 0.0 && KeyRemembered(s, cfg, key) && e.now >= s.clock
    ensures KeyRemembered(Step(s, cfg, e), cfg, key)
  {
    hide Step, KeyRemembered, LastClose, Evicted;
    var after := Step(s, cfg, e);
    StepTouchesOneKey(s, cfg, e);
    StepSetsClock(s, cfg, e);
    if after.autoCloses == s.autoCloses && after.cooldowns == s.cooldowns {
      EvictionRemembers(s, after, cfg, key, key);
    } else if after.autoCloses == s.autoCloses {
      var looked :| after.cooldowns == Evicted(s.cooldowns, cfg.cooldownS, looked, e.now);
      EvictionRemembers(s, after, cfg, looked, key);
    } else {
      var closed :| after.autoCloses == s.autoCloses + [(closed, e.now)]
                    && after.cooldowns == s.cooldowns[closed := e.now + cfg.cooldownS];
      CloseRemembers(s, after, cfg, closed, key);
    }
  }

  lemma StepRemembers(s: State, cfg: Config, e: Event)
    requires Remembers(s, cfg) && e.now >= s.clock
    ensures Remembers(Step(s, cfg, e), cfg)
  {
    hide Step, KeyRemembered, Chronological;
    StepKeepsChronology(s, cfg, e);
    if cfg.cooldownS > 0.0 {
      forall key: string ensures KeyRemembered(Step(s, cfg, e), cfg, key) {
        assert KeyRemembered(s, cfg, key);
        StepRemembersKey(s, cfg, e, key);
      }
    }
  }

  lemma LastCloseSnoc(h: seq<(string, real)>, h': seq<(string, real)>, key: string)
    requires h' == h || (|h'| == |h| + 1 && h'[..|h|] == h)
    ensures LastClose(h', key) == if h' == h || h'[|h|].0 != key then LastClose(h, key) else Some(h'[|h|].1)
  {
  }

  /** The lazily evicted map answers exactly as the full history of automatic closes would. */
  lemma CooldownAnswersFromHistory(s: State, cfg: Config, key: string, now: real)
    requires Remembers(s, cfg) && now >= s.clock
    ensures InCooldown(s.cooldowns, cfg.cooldownS, key, now) <==> RecentlyClosed(s.autoCloses, cfg.cooldownS, key, now)
  {
    if cfg.cooldownS > 0.0 {
      assert KeyRemembered(s, cfg, key);
      LastCloseDecides(s.autoCloses, s.clock, cfg.cooldownS, key, now);
    }
  }

  // ---------------------------------------------------------------------------
  // Runs
  // ---------------------------------------------------------------------------

  ghost predicate ClockRuns(clock: real, events: seq<Event>)
    decreases events
  {
    events == [] || (clock <= events[0].now && ClockRuns(events[0].now, events[1..]))
  }

  ghost predicate Sound(s: State, cfg: Config) {
    NoSharedSlot(s.positions) && OpenCount(s.positions) <= cfg.maxPositions && Remembers(s, cfg)
  }

  /** Over every run with a monotone clock: at most max_positions are open, no two open positions
      share a token on an exchange, and the cooldown map stays true to the full history. */
  lemma {:induction false} RunsStaySound(s: State, cfg: Config, events: seq<Event>)
    requires Sound(s, cfg) && ClockRuns(s.clock, events)
    ensures Sound(Run(s, cfg, events), cfg)
    decreases events
  {
    hide Remembers, NoSharedSlot, Step;
    if events != [] {
      StepKeepsSlots(s, cfg, events[0]);
      StepRemembers(s, cfg, events[0]);
      StepSetsClock(s, cfg, events[0]);
      RunsStaySound(Step(s, cfg, events[0]), cfg, events[1..]);
    }
  }

  lemma StepSetsClock(s: State, cfg: Config, e: Event)
    ensures Step(s, cfg, e).clock == e.now
  {
  }

  /** At any point of a run from the fresh bot, a signal that opens a position comes at least the
      cooldown after every automatic close of its token so far. */
  lemma NoOpenWithinCooldown(cfg: Config, clock: real, events: seq<Event>, e: Event, i: nat)
    requires cfg.maxPositions >= 0 && cfg.cooldownS > 0.0
    requires ClockRuns(clock, events) && e.now >= Run(Fresh(clock), cfg, events).clock
    requires Opens(Run(Fresh(clock), cfg, events), cfg, e)
    requires i < |Run(Fresh(clock), cfg, events).autoCloses|
    ensures var close := Run(Fresh(clock), cfg, events).autoCloses[i];
            close.0 == Upper(e.signal.token) ==> e.now >= close.1 + cfg.cooldownS
  {
    hide Remembers, Considered, InCooldown;
    FreshIsSound(cfg, clock);
    RunsStaySound(Fresh(clock), cfg, events);
    CooldownAnswersFromHistory(Run(Fresh(clock), cfg, events), cfg, Upper(e.signal.token), e.now);
  }

  lemma FreshIsSound(cfg: Config, clock: real)
    requires cfg.maxPositions >= 0
    ensures Sound(Fresh(clock), cfg)
  {
  }

  // ---------------------------------------------------------------------------
  // Pre-flight walk of the NADO book
  // ---------------------------------------------------------------------------

  datatype WalkVerdict =
    | WalkVerdict(ok: bool, depthShort: bool, vwap: real)
    | ZeroBest   // dividing by a zero best price raises in the source

  /** The orders may go out. */
  predicate Passed(v: WalkVerdict) { v.WalkVerdict? && v.ok }

  function SlipBps(side: Side, best: real, vwap: real): real
    requires best != 0.0
  {
    Max(0.0, if side.Buy? then (vwap - best) / best * 10000.0 else (best - vwap) / best * 10000.0)
  }

  function WalkOutcome(levels: seq<Level>, side: Side, qty: real, netProfitBps: real, haircutBps: real): WalkVerdict {
    if levels == [] then WalkVerdict(false, false, 0.0)
    else if qty > 0.0 && Filled(levels, qty) < qty then WalkVerdict(false, true, 0.0)
    else if levels[0].price == 0.0 then ZeroBest
    else
      var vwap := if qty > 0.0 then Cost(levels, qty) / qty else levels[0].price;
      WalkVerdict(netProfitBps - (SlipBps(side, levels[0].price, vwap) + haircutBps) > 0.0, false, vwap)
  }

  /** _nado_walk_and_validate on a fetched book. */
  method NadoWalkAndValidate(levels: seq<Level>, side: Side, qty: real, netProfitBps: real, haircutBps: real)
    returns (v: WalkVerdict)
    ensures v == WalkOutcome(levels, side, qty, netProfitBps, haircutBps)
  {
    if levels == [] {
      return WalkVerdict(false, false, 0.0);
    }
    var best := levels[0].price;
    var cumSize, vwapNum := 0.0, 0.0;
    ghost var done := false;
    assert levels[0..] == levels;
    hide Cost, Filled, Reach, Covers, Times, SlipBps;
    for i := 0 to |levels|
      invariant !done && (i > 0 ==> cumSize < qty && qty > 0.0)
      invariant i == 0 ==> cumSize == vwapNum == 0.0
      invariant Filled(levels, qty) == cumSize + Filled(levels[i..], qty - cumSize)
      invariant Cost(levels, qty) == vwapNum + Cost(levels[i..], qty - cumSize)
    {
      SweepStepAt(levels, i, qty - cumSize);
      var remaining := qty - cumSize;
      if remaining <= 0.0 {
        done := true;
        break;
      }
      var consume := if levels[i].size <= remaining then levels[i].size else remaining;
      vwapNum := vwapNum + Times(consume, levels[i].price);
      cumSize := cumSize + consume;
      if cumSize >= qty {
        done := true;
        break;
      }
    }
    assert levels[|levels|..] == [];
    if !done { EmptySweep(qty - cumSize); }
    if cumSize < qty {
      return WalkVerdict(false, true, 0.0);
    }
    if best == 0.0 {
      return ZeroBest;
    }
    var vwap := if cumSize > 0.0 then vwapNum / cumSize else best;
    var nadoSlipBps := SlipBps(side, best, vwap);
    var totalErosionBps := nadoSlipBps + haircutBps;
    var realizedNetBps := netProfitBps - totalErosionBps;
    v := WalkVerdict(realizedNetBps > 0.0, false, vwap);
  }

  /** A smaller order passes the pre-flight walk whenever a larger one does. */
  lemma WalkIsDownwardClosed(levels: seq<Level>, side: Side, q1: real, q2: real, netProfitBps: real, haircutBps: real)
    requires WellFormed(side, levels) && 0.0 < q1 <= q2
    requires Passed(WalkOutcome(levels, side, q2, netProfitBps, haircutBps))
    ensures Passed(WalkOutcome(levels, side, q1, netProfitBps, haircutBps))
  {
    hide Cost, Filled;
    FilledIsMin(levels, q1);
    FilledIsMin(levels, q2);
    VwapNeverImproves(side, levels, q1, q2);
    var best, v1, v2 := levels[0].price, Vwap(levels, q1), Vwap(levels, q2);
    if side.Buy? {
      RatioMono(v1 - best, v2 - best, best);
    } else {
      RatioMono(best - v1, best - v2, best);
    }
  }

  /** After a passed walk the NADO order on the same book cannot fail for lack of depth. */
  lemma PassedWalkHasDepth(book: Book, side: Side, qty: real, netProfitBps: real, haircutBps: real,
                           slippagePct: Option<real>, step: real, tick: real)
    requires WellFormed(side, SideLevels(book, side)) && qty > 0.0
    requires Passed(WalkOutcome(SideLevels(book, side), side, qty, netProfitBps, haircutBps))
    ensures !NadoClient.OrderOutcome(book, side, qty, slippagePct, step, tick).InsufficientDepth?
    ensures !NadoClient.OrderOutcome(book, side, qty, slippagePct, step, tick).NoLevels?
  {
    hide Cost, Filled, Covers, NadoClient.RoundQty;
    var levels := SideLevels(book, side);
    NadoClient.RoundQtyBounds(qty, step);
    FilledIsMin(levels, qty);
    FilledIsMin(levels, NadoClient.RoundQty(qty, step));
  }

  /** On a published book a positive order passes exactly when the side holds it, the profit exceeds
      the haircut, and its cost leaves something of the rest: it is less than what that many
      ten-thousandths above the best price would cost, or more than what below it would bring. */
  lemma WalkPassesExactlyWhen(levels: seq<Level>, side: Side, qty: real, netProfitBps: real, haircutBps: real)
    requires WellFormed(side, levels) && qty > 0.0
    ensures Passed(WalkOutcome(levels, side, qty, netProfitBps, haircutBps))
       <==> && levels != [] && qty <= Total(levels) && netProfitBps > haircutBps
            && (var f := (netProfitBps - haircutBps) / 10000.0;
                if side.Buy? then Cost(levels, qty) < qty * levels[0].price * (1.0 + f)
                else Cost(levels, qty) > qty * levels[0].price * (1.0 - f))
  {
    hide Cost, Filled, SlipBps;
    FilledIsMin(levels, qty);
    if levels != [] && qty <= Total(levels) {
      LeavesProfit(side, Cost(levels, qty), qty, levels[0].price, netProfitBps - haircutBps);
    }
  }

  lemma LeavesProfit(side: Side, c: real, qty: real, best: real, rest: real)
    requires qty > 0.0 && best > 0.0
    ensures rest - SlipBps(side, best, c / qty) > 0.0
       <==> && rest > 0.0
            && (if side.Buy? then c < qty * best * (1.0 + rest / 10000.0)
                else c > qty * best * (1.0 - rest / 10000.0))
  {
    var v := c / qty;
    StrictRelativeMove(v, best, rest, 10000.0);
    StrictAverage(c, qty, best, 1.0 + rest / 10000.0);
    StrictAverage(c, qty, best, 1.0 - rest / 10000.0);
    SlipBelow(side, best, v, rest);
  }

  lemma SlipBelow(side: Side, best: real, v: real, rest: real)
    requires best > 0.0
    ensures SlipBps(side, best, v) < rest
       <==> rest > 0.0 && (if side.Buy? then (v - best) / best * 10000.0 else (best - v) / best * 10000.0) < rest
  {
  }

  lemma StrictAverage(c: real, q: real, e: real, f: real)
    requires q > 0.0
    ensures c / q < e * f <==> c < q * e * f
    ensures c / q > e * f <==> c > q * e * f
  {
    var v := c / q;
    assert v * q == c;
    ScaleOrder(v, e * f, q);
    ScaleOrder(e * f, v, q);
    assert (e * f) * q == q * e * f;
  }

  // ---------------------------------------------------------------------------
  // Exactly which signals open a position, and what a close does
  // ---------------------------------------------------------------------------

  function Statuses(ps: seq<Position>): seq<Status> { seq(|ps|, i requires 0 <= i < |ps| => ps[i].status) }

  lemma {:induction false} OpenCountCounts(ps: seq<Position>)
    ensures OpenCount(ps) == multiset(Statuses(ps))[Open]
  {
    if ps != [] {
      OpenCountCounts(ps[1..]);
      assert Statuses(ps) == [ps[0].status] + Statuses(ps[1..]);
    }
  }

  /** A signal that is not too old. */
  predicate FreshEnough(cfg: Config, g: Signal, now: real) {
    || g.timestampMs.None? || g.timestampMs.value <= 0 || cfg.maxSignalAgeMs <= 0.0
    || now * 1000.0 - g.timestampMs.value as real <= cfg.maxSignalAgeMs
  }

  /** A slot is left, and no open position holds the token on one of the two exchanges. */
  predicate SlotLeft(ps: seq<Position>, cfg: Config, g: Signal) {
    && multiset(Statuses(ps))[Open] < cfg.maxPositions
    && forall i :: 0 <= i < |ps| && ps[i].status.Open? && ps[i].token == g.token ==>
         && ps[i].buyExchange != g.buyExchange && ps[i].buyExchange != g.sellExchange
         && ps[i].sellExchange != g.buyExchange && ps[i].sellExchange != g.sellExchange
  }

  /** The profit is at least the fee for delta-neutral, half of it for half-neutral, or the configured
      minimum for custom; and at least the general minimum when one is set. */
  predicate Profitable(cfg: Config, g: Signal) {
    && (cfg.spreadMode.DeltaNeutral? ==> g.netProfitBps >= g.feeThresholdBps)
    && (cfg.spreadMode.HalfNeutral? ==> 2.0 * g.netProfitBps >= g.feeThresholdBps)
    && (cfg.spreadMode.Custom? ==> g.netProfitBps >= cfg.customMinSpreadBps)
    && (cfg.minProfitBps <= 0.0 || g.netProfitBps >= cfg.minProfitBps)
  }

  lemma WantedExactlyWhen(cfg: Config, g: Signal)
    ensures Wanted(cfg, g)
       <==> && g.buyExchange in cfg.exchanges && g.sellExchange in cfg.exchanges
            && g.buyExchange in cfg.clients && g.sellExchange in cfg.clients
            && g.buyPrice > 0.0 && g.sellPrice > 0.0 && cfg.positionSizeUsd > 0.0 && Profitable(cfg, g)
  {
    if g.buyPrice > 0.0 && g.sellPrice > 0.0 {
      var mid := (g.buyPrice + g.sellPrice) / 2.0;
      var target := cfg.positionSizeUsd / mid;
      assert target * mid == cfg.positionSizeUsd;
      ScaleOrder(target, 0.0, mid);
    }
  }

  lemma ConsideredExactlyWhen(ps: seq<Position>, cfg: Config, g: Signal, now: real)
    ensures Considered(ps, cfg, g, now)
       <==> FreshEnough(cfg, g, now) && SlotLeft(ps, cfg, g)
            && (forall t :: t in cfg.excluded ==> Upper(t) != Upper(g.token))
  {
    hide OpenCount, Upper, Statuses;
    OpenCountCounts(ps);
  }

  /** A signal whose legs fill adds exactly one open position, of its token and exchanges, when it is
      fresh, finds a slot, is not excluded or cooling down, names configured exchanges with clients, has
      positive prices and a positive size, and is profitable enough; in every other case none. */
  lemma SignalOpensExactlyWhen(s: State, cfg: Config, now: real, g: Signal)
    requires g.filled
    ensures var after := Step(s, cfg, OnSignal(now, g)).positions;
            var key := Upper(g.token);
            var opens := && FreshEnough(cfg, g, now) && SlotLeft(s.positions, cfg, g)
                         && (forall t :: t in cfg.excluded ==> Upper(t) != key)
                         && (cfg.cooldownS > 0.0 && key in s.cooldowns ==> now >= s.cooldowns[key])
                         && g.buyExchange in cfg.exchanges && g.sellExchange in cfg.exchanges
                         && g.buyExchange in cfg.clients && g.sellExchange in cfg.clients
                         && g.buyPrice > 0.0 && g.sellPrice > 0.0 && cfg.positionSizeUsd > 0.0
                         && Profitable(cfg, g);
            after == if opens then s.positions + [Position(g.token, g.buyExchange, g.sellExchange, Open)]
                     else s.positions
  {
    hide Considered, Wanted, FreshEnough, SlotLeft, Profitable, Upper, Evicted;
    WantedExactlyWhen(cfg, g);
    ConsideredExactlyWhen(s.positions, cfg, g, now);
  }

  /** Without filled legs a signal opens nothing. */
  lemma UnfilledOpensNothing(s: State, cfg: Config, now: real, g: Signal)
    requires !g.filled
    ensures Step(s, cfg, OnSignal(now, g)).positions == s.positions
  {
  }

  /** A considered signal of a token whose cooldown is over takes the token out of the map, so that the
      map does not grow with old entries. */
  lemma ExpiredIsEvicted(s: State, cfg: Config, now: real, g: Signal)
    requires Considered(s.positions, cfg, g, now) && cfg.cooldownS > 0.0
    requires Upper(g.token) in s.cooldowns && s.cooldowns[Upper(g.token)] <= now
    ensures Step(s, cfg, OnSignal(now, g)).cooldowns == s.cooldowns - {Upper(g.token)}
  {
    hide Considered, Wanted, Upper;
  }

  /** A close of an open position with clients and filled legs closes it, and if it was automatic its
      token cools down until cooldownS later; any other close changes neither positions nor cooldowns. */
  lemma CloseCloses(s: State, cfg: Config, now: real, k: nat, automatic: bool, clientsKnown: bool, legsFilled: bool)
    requires k < |s.positions| && s.positions[k].status.Open?
    ensures var after, p := Step(s, cfg, OnClose(now, k, automatic, clientsKnown, legsFilled)), s.positions[k];
            var key := Upper(p.token);
            && |after.positions| == |s.positions|
            && (forall i :: 0 <= i < |s.positions| && i != k ==> after.positions[i] == s.positions[i])
            && (after.positions[k].status.Closed? <==> clientsKnown && legsFilled)
            && (!(clientsKnown && legsFilled) ==> after.positions[k] == p)
            && (clientsKnown && legsFilled && automatic && cfg.cooldownS > 0.0 ==>
                  key in after.cooldowns && after.cooldowns[key] == now + cfg.cooldownS
                  && after.cooldowns - {key} == s.cooldowns - {key})
            && (!(clientsKnown && legsFilled && automatic && cfg.cooldownS > 0.0) ==> after.cooldowns == s.cooldowns)
  {
    hide Upper;
  }

  /** Tokens that differ in the case of their letters only are one token to the cooldown and the
      exclusions. */
  lemma UpperIgnoresCase(a: string, b: string)
    requires |a| == |b|
    requires forall i :: 0 <= i < |a| ==>
               a[i] == b[i] || ('a' <= a[i] <= 'z' && b[i] as int == a[i] as int - 32)
                            || ('a' <= b[i] <= 'z' && a[i] as int == b[i] as int - 32)
    ensures Upper(a) == Upper(b)
    ensures forall i :: 0 <= i < |a| ==> !('a' <= Upper(a)[i] <= 'z')
    ensures forall i :: 0 <= i < |a| && !('a' <= a[i] <= 'z') ==> Upper(a)[i] == a[i]
  {
    assert forall i :: 0 <= i < |a| ==> UpperChar(a[i]) == UpperChar(b[i]);
  }

  /** The quantity is worth at most the position size at the middle price, at most the signal's maximum
      when it names one, and reaches one of the two. */
  lemma QuantityIsAffordable(cfg: Config, g: Signal)
    requires g.buyPrice > 0.0 && g.sellPrice > 0.0
    ensures var worth := TargetQty(cfg, g) * (g.buyPrice + g.sellPrice) / 2.0;
            && worth <= cfg.positionSizeUsd && (g.maxQty > 0.0 ==> TargetQty(cfg, g) <= g.maxQty)
            && (worth == cfg.positionSizeUsd || (g.maxQty > 0.0 && TargetQty(cfg, g) == g.maxQty))
  {
    var mid := (g.buyPrice + g.sellPrice) / 2.0;
    var target, qty := cfg.positionSizeUsd / mid, TargetQty(cfg, g);
    assert target * mid == cfg.positionSizeUsd;
    ScaleOrder(qty, target, mid);
    assert qty * (g.buyPrice + g.sellPrice) / 2.0 == qty * mid;
  }

  /** A delete takes a closed position out and leaves an open one, or an unknown one, alone; a reset
      takes every position out. */
  lemma OnlyClosedAreDeleted(s: State, cfg: Config, now: real, k: nat)
    ensures var after := Step(s, cfg, OnDelete(now, k)).positions;
            && (k < |s.positions| && s.positions[k].status.Closed? ==>
                  after == s.positions[..k] + s.positions[k + 1..])
            && (k >= |s.positions| || !s.positions[k].status.Closed? ==> after == s.positions)
            && multiset(Statuses(after))[Open] == multiset(Statuses(s.positions))[Open]
    ensures Step(s, cfg, OnReset(now)).positions == [] && Step(s, cfg, OnReset(now)).cooldowns == s.cooldowns
  {
    if k < |s.positions| && s.positions[k].status.Closed? {
      var before, after := s.positions[..k], s.positions[k + 1..];
      assert s.positions == before + [s.positions[k]] + after;
      assert Statuses(s.positions) == Statuses(before) + [Closed] + Statuses(after);
      assert Statuses(before + after) == Statuses(before) + Statuses(after);
    }
  }
}

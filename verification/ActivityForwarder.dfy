/** The activity-log forwarder (app/activity_forwarder.py): a buffer that `forward` appends to and
    that concurrent flushes slice, post and re-queue across an await point. The two halves of a
    flush are separate steps, so any interleaving of events and flushes is a sequence of steps. */
module ActivityForwarder {
  import opened Wrappers

  const MAX_BATCH_SIZE: nat := 50
  const REQUEUE_LIMIT: nat := 500

  /** How the awaited post of a batch ends: status 200, another status (only logged), an exception,
      or cancellation of the flushing task. */
  datatype PostOutcome = Accepted | Rejected | Raised | Cancelled

  /** `inFlight` holds the batches of the flushes that await their post, oldest first. */
  datatype Log<E> = Log(buffer: seq<E>, inFlight: seq<seq<E>>, posted: seq<E>, dropped: seq<E>)

  datatype Step<E> = Forward(event: E) | BeginFlush | EndFlush(index: nat, outcome: PostOutcome)

  function Empty<E>(): Log<E> { Log([], [], [], []) }

  function Apply<E>(s: Log<E>, step: Step<E>): Log<E> {
    match step
    case Forward(e) => s.(buffer := s.buffer + [e])
    case BeginFlush =>
      if s.buffer == [] then s
      else
        var n := if |s.buffer| < MAX_BATCH_SIZE then |s.buffer| else MAX_BATCH_SIZE;
        s.(buffer := s.buffer[n..], inFlight := s.inFlight + [s.buffer[..n]])
    case EndFlush(k, outcome) =>
      if k >= |s.inFlight| then s
      else
        var batch := s.inFlight[k];
        var rest := s.(inFlight := s.inFlight[..k] + s.inFlight[k + 1..]);
        match outcome
        case Accepted => rest.(posted := s.posted + batch)
        case Raised =>
          if |s.buffer| < REQUEUE_LIMIT then rest.(buffer := batch + s.buffer)
          else rest.(dropped := s.dropped + batch)
        case _ => rest.(dropped := s.dropped + batch)
  }

  function Run<E>(s: Log<E>, steps: seq<Step<E>>): Log<E> {
    if steps == [] then s else Apply(Run(s, steps[..|steps| - 1]), steps[|steps| - 1])
  }

  /** The events handed to `forward`, in order. */
  function Forwarded<E>(steps: seq<Step<E>>): seq<E> {
    if steps == [] then []
    else
      var last := steps[|steps| - 1];
      Forwarded(steps[..|steps| - 1]) + if last.Forward? then [last.event] else []
  }

  class ActivityLogForwarder<E(==)> {
    var buffer: seq<E>
    ghost var inFlight: seq<seq<E>>
    ghost var posted: seq<E>
    ghost var dropped: seq<E>

    ghost function View(): Log<E>
      reads this
    {
      Log(buffer, inFlight, posted, dropped)
    }

    constructor ()
      ensures View() == Empty()
    {
      buffer, inFlight, posted, dropped := [], [], [], [];
    }

    /** forward: appends; the returned flag asks for an immediate flush task. */
    method Forward(event: E, running: bool) returns (flushNow: bool)
      modifies this
      ensures View() == Apply(old(View()), Step.Forward(event))
      ensures flushNow <==> running && |old(buffer)| + 1 >= MAX_BATCH_SIZE
    {
      buffer := buffer + [event];
      flushNow := |buffer| >= MAX_BATCH_SIZE && running;
    }

    /** _flush up to the await: None when there is nothing to send. */
    method BeginFlush() returns (batch: Option<seq<E>>)
      modifies this
      ensures View() == Apply(old(View()), Step.BeginFlush)
      ensures batch.None? <==> old(buffer) == []
      ensures batch.Some? ==> inFlight == old(inFlight) + [batch.value] && 0 < |batch.value| <= MAX_BATCH_SIZE
    {
      if buffer == [] {
        return None;
      }
      var n := if |buffer| < MAX_BATCH_SIZE then |buffer| else MAX_BATCH_SIZE;
      batch := Some(buffer[..n]);
      buffer := buffer[n..];
      inFlight := inFlight + [batch.value];
    }

    /** _flush after the await, for the flush whose batch is the k-th in flight. */
    method EndFlush(batch: seq<E>, outcome: PostOutcome, ghost k: nat)
      requires k < |inFlight| && inFlight[k] == batch
      modifies this
      ensures View() == Apply(old(View()), Step.EndFlush(k, outcome))
    {
      inFlight := inFlight[..k] + inFlight[k + 1..];
      if outcome.Accepted? {
        posted := posted + batch;
      } else if outcome.Raised? && |buffer| < REQUEUE_LIMIT {
        buffer := batch + buffer;
      } else {
        dropped := dropped + batch;
      }
    }
  }

  // ---------------------------------------------------------------------------
  // Conservation
  // ---------------------------------------------------------------------------

  function Flat<E>(batches: seq<seq<E>>): seq<E> {
    if batches == [] then [] else batches[0] + Flat(batches[1..])
  }

  lemma Associate<E>(x: seq<E>, y: seq<E>, z: seq<E>)
    ensures x + (y + z) == (x + y) + z
  {
  }

  lemma {:induction false} FlatConcat<E>(a: seq<seq<E>>, b: seq<seq<E>>)
    ensures Flat(a + b) == Flat(a) + Flat(b)
  {
    if a == [] {
      assert a + b == b;
    } else {
      FlatConcat(a[1..], b);
      assert (a + b)[1..] == a[1..] + b;
      Associate(a[0], Flat(a[1..]), Flat(b));
    }
  }

  lemma FlatSingle<E>(batch: seq<E>)
    ensures Flat([batch]) == batch
  {
    assert [batch][1..] == [];
  }

  lemma TakeMiddle<E>(a: seq<E>, c: seq<E>, d: seq<E>)
    ensures multiset(a + (c + d)) == multiset(a + d) + multiset(c)
  {
  }

  lemma FlatRemove<E>(batches: seq<seq<E>>, k: nat)
    requires k < |batches|
    ensures multiset(Flat(batches)) == multiset(Flat(batches[..k] + batches[k + 1..])) + multiset(batches[k])
  {
    hide Flat;
    var before, here, after := batches[..k], batches[k], batches[k + 1..];
    assert batches == before + ([here] + after);
    FlatConcat(before, [here] + after);
    FlatConcat([here], after);
    FlatSingle(here);
    FlatConcat(before, after);
    TakeMiddle(Flat(before), here, Flat(after));
  }

  ghost function Everywhere<E>(s: Log<E>): multiset<E> {
    multiset(s.buffer) + multiset(Flat(s.inFlight)) + multiset(s.posted) + multiset(s.dropped)
  }

  lemma BeginFlushConserves<E>(s: Log<E>)
    ensures Everywhere(Apply(s, Step.BeginFlush)) == Everywhere(s)
  {
    hide Flat;
    if s.buffer != [] {
      var n := if |s.buffer| < MAX_BATCH_SIZE then |s.buffer| else MAX_BATCH_SIZE;
      assert s.buffer == s.buffer[..n] + s.buffer[n..];
      FlatConcat(s.inFlight, [s.buffer[..n]]);
      FlatSingle(s.buffer[..n]);
    }
  }

  lemma EndFlushConserves<E>(s: Log<E>, k: nat, outcome: PostOutcome)
    ensures Everywhere(Apply(s, Step.EndFlush(k, outcome))) == Everywhere(s)
  {
    hide Flat;
    if k < |s.inFlight| { FlatRemove(s.inFlight, k); }
  }

  lemma StepConserves<E>(s: Log<E>, step: Step<E>)
    ensures Everywhere(Apply(s, step)) == Everywhere(s) + if step.Forward? then multiset{step.event} else multiset{}
  {
    match step
    case Forward(e) =>
    case BeginFlush => BeginFlushConserves(s);
    case EndFlush(k, outcome) => EndFlushConserves(s, k, outcome);
  }

  /** Under any interleaving, every forwarded event is in exactly one place: buffered, in flight,
      posted or dropped. */
  lemma {:induction false} EventsAreConserved<E>(steps: seq<Step<E>>)
    ensures Everywhere(Run(Empty(), steps)) == multiset(Forwarded(steps))
  {
    if steps != [] {
      EventsAreConserved(steps[..|steps| - 1]);
      StepConserves(Run(Empty(), steps[..|steps| - 1]), steps[|steps| - 1]);
    }
  }

  // ---------------------------------------------------------------------------
  // Order
  // ---------------------------------------------------------------------------

  /** a can be obtained from b by leaving elements out. */
  predicate Subsequence<E(==)>(a: seq<E>, b: seq<E>) {
    a == [] || (b != [] && ((a[0] == b[0] && Subsequence(a[1..], b[1..])) || Subsequence(a, b[1..])))
  }

  lemma {:induction false} SubsequenceTail<E>(a: seq<E>, b: seq<E>)
    requires a != [] && Subsequence(a, b)
    ensures Subsequence(a[1..], b)
  {
    if !(a[0] == b[0] && Subsequence(a[1..], b[1..])) { SubsequenceTail(a, b[1..]); }
  }

  lemma {:induction false} SubsequenceWithout<E>(a: seq<E>, m: seq<E>, c: seq<E>, b: seq<E>)
    requires Subsequence(a + m + c, b)
    ensures Subsequence(a + c, b)
    decreases |b|, |m|
  {
    var whole := a + m + c;
    if a == [] {
      if m == [] {
        assert whole == c && a + c == c;
      } else {
        SubsequenceTail(whole, b);
        assert whole[1..] == a + m[1..] + c;
        SubsequenceWithout(a, m[1..], c, b);
      }
    } else {
      assert whole[1..] == a[1..] + m + c && (a + c)[1..] == a[1..] + c;
      if a[0] == b[0] && Subsequence(whole[1..], b[1..]) {
        SubsequenceWithout(a[1..], m, c, b[1..]);
      } else {
        SubsequenceWithout(a, m, c, b[1..]);
      }
    }
  }

  lemma {:induction false} SubsequenceSnoc<E>(a: seq<E>, b: seq<E>, x: E)
    requires Subsequence(a, b)
    ensures Subsequence(a + [x], b + [x])
  {
    if b == [] {
      assert a + [x] == [x] && b + [x] == [x];
    } else {
      assert (b + [x])[1..] == b[1..] + [x];
      if a == [] {
        SubsequenceSnoc(a, b[1..], x);
      } else if a[0] == b[0] && Subsequence(a[1..], b[1..]) {
        assert (a + [x])[1..] == a[1..] + [x];
        SubsequenceSnoc(a[1..], b[1..], x);
      } else {
        SubsequenceSnoc(a, b[1..], x);
      }
    }
  }

  /** This step would put a batch in flight beside another one. */
  predicate Overlaps<E>(s: Log<E>, step: Step<E>) { step.BeginFlush? && s.inFlight != [] && s.buffer != [] }

  /** A flush that finds events begins only when no other is in flight. */
  ghost predicate OneAtATime<E>(steps: seq<Step<E>>) {
    forall i :: 0 <= i < |steps| ==> !Overlaps(Run(Empty(), steps[..i]), steps[i])
  }

  /** Posted, in-flight and buffered events, in that order. */
  function Pipeline<E>(s: Log<E>): seq<E> { s.posted + Flat(s.inFlight) + s.buffer }

  lemma FlatNone<E>()
    ensures Flat<E>([]) == []
  {
  }

  lemma BeginFlushMovesNothing<E>(s: Log<E>)
    requires s.inFlight == []
    ensures Pipeline(Apply(s, Step.BeginFlush)) == Pipeline(s)
    ensures |Apply(s, Step.BeginFlush).inFlight| <= 1
  {
    hide Flat;
    if s.buffer != [] {
      var n := if |s.buffer| < MAX_BATCH_SIZE then |s.buffer| else MAX_BATCH_SIZE;
      assert s.inFlight + [s.buffer[..n]] == [s.buffer[..n]];
      FlatSingle(s.buffer[..n]);
      FlatNone<E>();
      assert s.posted + s.buffer[..n] + s.buffer[n..] == s.posted + [] + s.buffer;
    }
  }

  lemma EndFlushKeepsOrder<E>(s: Log<E>, k: nat, outcome: PostOutcome, sent: seq<E>)
    requires |s.inFlight| <= 1 && Subsequence(Pipeline(s), sent)
    ensures |Apply(s, Step.EndFlush(k, outcome)).inFlight| <= 1
    ensures Subsequence(Pipeline(Apply(s, Step.EndFlush(k, outcome))), sent)
  {
    hide Flat, Subsequence;
    if k < |s.inFlight| {
      var batch := s.inFlight[0];
      assert s.inFlight == [batch];
      assert s.inFlight[..k] + s.inFlight[k + 1..] == [];
      FlatSingle(batch);
      FlatNone<E>();
      assert Pipeline(s) == s.posted + batch + s.buffer;
      if outcome.Accepted? {
        assert (s.posted + batch) + [] + s.buffer == s.posted + batch + s.buffer;
      } else if outcome.Raised? && |s.buffer| < REQUEUE_LIMIT {
        assert s.posted + [] + (batch + s.buffer) == s.posted + batch + s.buffer;
      } else {
        SubsequenceWithout(s.posted, batch, s.buffer, sent);
        assert s.posted + [] + s.buffer == s.posted + s.buffer;
      }
    }
  }

  lemma StepKeepsOrder<E>(s: Log<E>, step: Step<E>, sent: seq<E>)
    requires |s.inFlight| <= 1 && !Overlaps(s, step)
    requires Subsequence(Pipeline(s), sent)
    ensures |Apply(s, step).inFlight| <= 1
    ensures Subsequence(Pipeline(Apply(s, step)), if step.Forward? then sent + [step.event] else sent)
  {
    hide Flat, Subsequence;
    match step
    case Forward(e) =>
      SubsequenceSnoc(Pipeline(s), sent, e);
      assert Pipeline(Apply(s, step)) == Pipeline(s) + [e];
    case BeginFlush => if s.inFlight == [] { BeginFlushMovesNothing(s); }
    case EndFlush(k, outcome) => EndFlushKeepsOrder(s, k, outcome, sent);
  }

  lemma {:induction false} PipelineIsOrdered<E>(steps: seq<Step<E>>)
    requires OneAtATime(steps)
    ensures |Run(Empty(), steps).inFlight| <= 1
    ensures Subsequence(Pipeline(Run(Empty(), steps)), Forwarded(steps))
  {
    if steps != [] {
      var prefix := steps[..|steps| - 1];
      assert OneAtATime(prefix) by {
        assert forall i :: 0 <= i < |prefix| ==> prefix[..i] == steps[..i];
      }
      PipelineIsOrdered(prefix);
      StepKeepsOrder(Run(Empty(), prefix), steps[|steps| - 1], Forwarded(prefix));
      assert Forwarded(prefix) + [] == Forwarded(prefix);
    }
  }

  /** With one flush in flight at a time, events are posted in the order they were forwarded. */
  lemma PostedInForwardOrder<E>(steps: seq<Step<E>>)
    requires OneAtATime(steps)
    ensures Subsequence(Run(Empty(), steps).posted, Forwarded(steps))
  {
    var s := Run(Empty(), steps);
    PipelineIsOrdered(steps);
    assert Pipeline(s) == s.posted + (Flat(s.inFlight) + s.buffer) + [];
    SubsequenceWithout(s.posted, Flat(s.inFlight) + s.buffer, [], Forwarded(steps));
    assert s.posted + [] == s.posted;
  }

  lemma RunSnoc<E>(prefix: seq<Step<E>>, step: Step<E>)
    ensures Run(Empty(), prefix + [step]) == Apply(Run(Empty(), prefix), step)
    ensures Forwarded(prefix + [step]) == Forwarded(prefix) + if step.Forward? then [step.event] else []
  {
    assert (prefix + [step])[..|prefix|] == prefix;
  }

  // ---------------------------------------------------------------------------
  // Exactly when the order is guaranteed
  // ---------------------------------------------------------------------------

  ghost predicate Distinct<E(!new)>(a: seq<E>) { forall i, j :: 0 <= i < j < |a| ==> a[i] != a[j] }

  lemma PrefixIsOneAtATime<E>(steps: seq<Step<E>>, n: nat)
    requires n <= |steps| && OneAtATime(steps)
    ensures OneAtATime(steps[..n])
  {
    assert forall i :: 0 <= i < n ==> steps[..n][..i] == steps[..i];
  }

  /** Equivalently: no prefix of the run has two batches in flight. */
  lemma OneAtATimeExactlyWhen<E>(steps: seq<Step<E>>)
    ensures OneAtATime(steps) <==> forall n :: 0 <= n <= |steps| ==> |Run(Empty(), steps[..n]).inFlight| <= 1
  {
    if OneAtATime(steps) {
      forall n | 0 <= n <= |steps| ensures |Run(Empty(), steps[..n]).inFlight| <= 1 {
        PrefixIsOneAtATime(steps, n);
        PipelineIsOrdered(steps[..n]);
      }
    } else {
      var i :| 0 <= i < |steps| && Overlaps(Run(Empty(), steps[..i]), steps[i]);
      assert steps[..i + 1] == steps[..i] + [steps[i]];
      RunSnoc(steps[..i], steps[i]);
      assert |Run(Empty(), steps[..i + 1]).inFlight| > 1;
    }
  }

  /** The flushes in flight end, in any order and with any outcomes. */
  predicate Finishing<E>(ends: seq<Step<E>>) { forall i :: 0 <= i < |ends| ==> ends[i].EndFlush? }

  /** At every point of the run, however the flushes then in flight end, the posted events are in
      forward order. */
  ghost predicate OrderGuaranteed<E(!new)>(steps: seq<Step<E>>) {
    forall n, ends :: 0 <= n <= |steps| && Finishing(ends) ==> InOrder(steps[..n], ends)
  }

  predicate InOrder<E(==)>(steps: seq<Step<E>>, ends: seq<Step<E>>) {
    Subsequence(Run(Empty(), steps + ends).posted, Forwarded(steps))
  }

  lemma {:induction false} FinishingForwardsNothing<E>(steps: seq<Step<E>>, ends: seq<Step<E>>)
    requires Finishing(ends)
    ensures Forwarded(steps + ends) == Forwarded(steps)
  {
    if ends == [] {
      assert steps + ends == steps;
    } else {
      var front, last := ends[..|ends| - 1], ends[|ends| - 1];
      assert steps + ends == (steps + front) + [last];
      RunSnoc(steps + front, last);
      FinishingForwardsNothing(steps, front);
    }
  }

  lemma FinishingStaysOneAtATime<E>(steps: seq<Step<E>>, ends: seq<Step<E>>)
    requires OneAtATime(steps) && Finishing(ends)
    ensures OneAtATime(steps + ends)
  {
    var all := steps + ends;
    forall i | 0 <= i < |all| ensures !Overlaps(Run(Empty(), all[..i]), all[i]) {
      if i < |steps| { assert all[..i] == steps[..i]; }
    }
  }

  lemma OneAtATimeGuarantees<E(!new)>(steps: seq<Step<E>>)
    requires OneAtATime(steps)
    ensures OrderGuaranteed(steps)
  {
    forall n, ends | 0 <= n <= |steps| && Finishing(ends) ensures InOrder(steps[..n], ends) {
      hide Run, Subsequence, OneAtATime, Forwarded;
      PrefixIsOneAtATime(steps, n);
      FinishingStaysOneAtATime(steps[..n], ends);
      FinishingForwardsNothing(steps[..n], ends);
      PostedInForwardOrder(steps[..n] + ends);
    }
  }

  /** Elements of a subsequence keep their order. */
  lemma {:induction false} IndexOrder<E(!new)>(a: seq<E>, b: seq<E>, i: nat, j: nat)
    requires Subsequence(a, b) && i < j < |a|
    ensures exists u, v :: 0 <= u < v < |b| && b[u] == a[i] && b[v] == a[j]
  {
    if a[0] == b[0] && Subsequence(a[1..], b[1..]) {
      if i == 0 {
        var v := IndexOf(a[1..], b[1..], j - 1);
        assert b[0] == a[i] && b[v + 1] == a[j];
      } else {
        IndexOrder(a[1..], b[1..], i - 1, j - 1);
        var u, v :| 0 <= u < v < |b[1..]| && b[1..][u] == a[1..][i - 1] && b[1..][v] == a[1..][j - 1];
        assert b[u + 1] == a[i] && b[v + 1] == a[j];
      }
    } else {
      IndexOrder(a, b[1..], i, j);
      var u, v :| 0 <= u < v < |b[1..]| && b[1..][u] == a[i] && b[1..][v] == a[j];
      assert b[u + 1] == a[i] && b[v + 1] == a[j];
    }
  }

  lemma {:induction false} IndexOf<E>(a: seq<E>, b: seq<E>, i: nat) returns (v: nat)
    requires Subsequence(a, b) && i < |a|
    ensures v < |b| && b[v] == a[i]
  {
    if a[0] == b[0] && Subsequence(a[1..], b[1..]) {
      if i == 0 {
        v := 0;
      } else {
        v := IndexOf(a[1..], b[1..], i - 1);
        v := v + 1;
      }
    } else {
      v := IndexOf(a, b[1..], i);
      v := v + 1;
    }
  }

  /** Two batches cannot both ways round be in the order of distinct events. */
  lemma NotBothWaysRound<E(!new)>(posted: seq<E>, c: seq<E>, d: seq<E>, sent: seq<E>)
    requires c != [] && d != [] && Distinct(sent)
    ensures !(Subsequence(posted + c + d, sent) && Subsequence(posted + d + c, sent))
  {
    if Subsequence(posted + c + d, sent) && Subsequence(posted + d + c, sent) {
      hide Subsequence;
      IndexOrder(posted + c + d, sent, |posted|, |posted| + |c|);
      IndexOrder(posted + d + c, sent, |posted|, |posted| + |d|);
    }
  }

  lemma {:induction false} BatchesAreNotEmpty<E>(steps: seq<Step<E>>)
    ensures forall k :: 0 <= k < |Run(Empty(), steps).inFlight| ==> Run(Empty(), steps).inFlight[k] != []
  {
    if steps != [] { BatchesAreNotEmpty(steps[..|steps| - 1]); }
  }

  /** Both posts succeed; the flush at index k ends first, then the one at index m. */
  function BothAccepted<E>(k: nat, m: nat): seq<Step<E>> { [EndFlush(k, Accepted)] + [EndFlush(m, Accepted)] }

  lemma BothPosted<E>(steps: seq<Step<E>>, k: nat, m: nat)
    requires k < |Run(Empty(), steps).inFlight|
    requires m < |Run(Empty(), steps).inFlight| - 1
    ensures var s := Run(Empty(), steps);
            Run(Empty(), steps + BothAccepted(k, m)).posted
            == s.posted + s.inFlight[k] + (s.inFlight[..k] + s.inFlight[k + 1..])[m]
  {
    var first: Step<E>, second: Step<E> := EndFlush(k, Accepted), EndFlush(m, Accepted);
    assert steps + BothAccepted<E>(k, m) == (steps + [first]) + [second];
    RunSnoc(steps, first);
    RunSnoc(steps + [first], second);
  }

  /** Two batches in flight: one of the two orders in which they may be posted is wrong. */
  lemma TwoInFlightCanReorder<E(!new)>(steps: seq<Step<E>>)
    requires Distinct(Forwarded(steps)) && |Run(Empty(), steps).inFlight| >= 2
    ensures exists ends :: Finishing(ends) && !InOrder(steps, ends)
  {
    hide Run, Subsequence, Forwarded;
    var s := Run(Empty(), steps);
    var c, d := s.inFlight[0], s.inFlight[1];
    BatchesAreNotEmpty(steps);
    BothPosted(steps, 0, 0);
    BothPosted(steps, 1, 0);
    assert (s.inFlight[..0] + s.inFlight[1..])[0] == d && (s.inFlight[..1] + s.inFlight[2..])[0] == c;
    NotBothWaysRound(s.posted, c, d, Forwarded(steps));
    assert Finishing(BothAccepted<E>(0, 0)) && Finishing(BothAccepted<E>(1, 0));
    assert !InOrder(steps, BothAccepted<E>(0, 0)) || !InOrder(steps, BothAccepted<E>(1, 0));
  }

  lemma {:induction false} ForwardedPrefix<E>(steps: seq<Step<E>>, n: nat)
    requires n <= |steps|
    ensures Forwarded(steps[..n]) <= Forwarded(steps)
  {
    if n < |steps| {
      ForwardedPrefix(steps[..|steps| - 1], n);
      assert steps[..|steps| - 1][..n] == steps[..n];
    } else {
      assert steps[..n] == steps;
    }
  }

  /** Distinct events are sure to be posted in forward order exactly when no flush that finds events
      begins while another one is in flight. */
  lemma OrderGuaranteedExactlyWhen<E(!new)>(steps: seq<Step<E>>)
    requires Distinct(Forwarded(steps))
    ensures OrderGuaranteed(steps) <==> OneAtATime(steps)
  {
    if OneAtATime(steps) {
      OneAtATimeGuarantees(steps);
    } else {
      OneAtATimeExactlyWhen(steps);
      var n :| 0 <= n <= |steps| && |Run(Empty(), steps[..n]).inFlight| > 1;
      ForwardedPrefix(steps, n);
      TwoInFlightCanReorder(steps[..n]);
      var ends :| Finishing(ends) && !InOrder(steps[..n], ends);
    }
  }

  lemma RunNothing<E>()
    ensures Run<E>(Empty(), []) == Empty() && Forwarded<E>([]) == []
  {
  }

  /** Two events, each taken by a flush of its own. */
  function TwoInFlight(): seq<Step<int>> {
    [Step.Forward(1)] + [BeginFlush] + [Step.Forward(2)] + [BeginFlush]
  }

  /** The second is posted; the first post raises, is re-queued and posted by a third flush. */
  function Inversion(): seq<Step<int>> {
    TwoInFlight() + [EndFlush(1, Accepted)] + [EndFlush(0, Raised)] + [BeginFlush] + [EndFlush(0, Accepted)]
  }

  /** Two flushes in flight can invert the order. */
  lemma ConcurrentFlushesCanReorder()
    ensures Forwarded(Inversion()) == [1, 2] && Run(Empty(), Inversion()).posted == [2, 1]
    ensures !Subsequence(Run(Empty(), Inversion()).posted, Forwarded(Inversion()))
  {
    InversionRuns();
    assert [2, 1][1..] == [1] && [1, 2][1..] == [2] && [2][1..] == [] && [1][1..] == [];
    assert !Subsequence([1], []) && !Subsequence([2, 1], []);
    assert !Subsequence([2, 1], [2]);
  }

  lemma FlushOfOne<E>(s: Log<E>, e: E)
    requires s.buffer == [e]
    ensures Apply(s, Step.BeginFlush) == s.(buffer := [], inFlight := s.inFlight + [[e]])
  {
    assert s.buffer[..1] == [e] && s.buffer[1..] == [];
  }

  lemma TwoInFlightRuns()
    ensures Forwarded(TwoInFlight()) == [1, 2]
    ensures Run(Empty(), TwoInFlight()) == Log([], [[1], [2]], [], [])
  {
    hide Run, Forwarded, Apply;
    var p1: seq<Step<int>> := [Step.Forward(1)];
    var p2 := p1 + [BeginFlush];
    var p3 := p2 + [Step.Forward(2)];
    RunNothing<int>();
    RunSnoc([], Step.Forward(1));
    assert [] + p1 == p1;
    ForwardAppends<int>(Empty(), 1);
    RunSnoc(p1, BeginFlush);
    FlushOfOne(Run(Empty(), p1), 1);
    RunSnoc(p2, Step.Forward(2));
    ForwardAppends(Run(Empty(), p2), 2);
    RunSnoc(p3, BeginFlush);
    FlushOfOne(Run(Empty(), p3), 2);
    assert [] + [[1]] + [[2]] == [[1], [2]];
  }

  lemma ForwardAppends<E>(s: Log<E>, e: E)
    ensures Apply(s, Step.Forward(e)) == s.(buffer := s.buffer + [e])
  {
  }

  lemma InversionRuns()
    ensures Forwarded(Inversion()) == [1, 2]
    ensures Run(Empty(), Inversion()) == Log([], [], [2, 1], [])
  {
    hide Run, Forwarded, TwoInFlight;
    TwoInFlightRuns();
    var p4 := TwoInFlight();
    var p5 := p4 + [EndFlush(1, Accepted)];
    var p6 := p5 + [EndFlush(0, Raised)];
    var p7 := p6 + [BeginFlush];
    RunSnoc(p4, EndFlush(1, Accepted));
    assert Run(Empty(), p5) == Log([], [[1]], [2], []);
    RunSnoc(p5, EndFlush(0, Raised));
    assert Run(Empty(), p6) == Log([1], [], [2], []);
    RunSnoc(p6, BeginFlush);
    FlushOfOne(Run(Empty(), p6), 1);
    RunSnoc(p7, EndFlush(0, Accepted));
  }

  /** What one flush does, in numbers: it takes the oldest 50 events, or all when there are fewer; a
      status 200 posts them; an exception puts them back in front when fewer than 500 are waiting;
      any other status, a cancellation, or an exception with 500 waiting drops them. */
  lemma FlushDisposes<E>(s: Log<E>, outcome: PostOutcome)
    requires s.inFlight == [] && s.buffer != []
    ensures var taken := Apply(s, Step.BeginFlush);
            var n := if |s.buffer| < 50 then |s.buffer| else 50;
            var after := Apply(taken, Step.EndFlush(0, outcome));
            && taken.inFlight == [s.buffer[..n]] && taken.buffer == s.buffer[n..]
            && after.inFlight == []
            && (outcome.Accepted? <==> after.posted == s.posted + s.buffer[..n])
            && (outcome.Raised? && |s.buffer| - n < 500 <==> after.buffer == s.buffer)
            && (!outcome.Accepted? && !(outcome.Raised? && |s.buffer| - n < 500)
                <==> after.dropped == s.dropped + s.buffer[..n])
  {
    var n := if |s.buffer| < 50 then |s.buffer| else 50;
    var batch := s.buffer[..n];
    assert s.inFlight + [batch] == [batch] && [batch][..0] + [batch][1..] == [];
    assert batch + s.buffer[n..] == s.buffer;
    assert |s.posted + batch| != |s.posted| && |s.dropped + batch| != |s.dropped| && |s.buffer[n..]| != |s.buffer|;
  }
}

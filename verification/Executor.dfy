/** Order execution results (app/executor.py). The venue's behaviour is chosen by the environment:
    what it replies to a placement, and what it reports when polled. */
module Executor {

  datatype TradeResult = TradeResult(success: bool, tradedQty: real)

  const FAILED := TradeResult(false, 0.0)

  /** A result accounts for what really filled: success means the whole quantity, failure means
      exactly the reported partial fill. A success that reports no amount stands for the quantity. */
  predicate Accounts(r: TradeResult, filled: real, quantity: real) {
    if r.success then filled == quantity && (r.tradedQty == quantity || r.tradedQty <= 0.0)
    else filled == r.tradedQty && r.tradedQty >= 0.0
  }

  /** execute_market_order: the book fetch, the checks and the placement either all go well or the
      order is reported as failed with nothing traded. */
  function MarketOrderResult(bookFetched: bool, checksPassed: bool, placed: bool, quantity: real): TradeResult {
    if bookFetched && checksPassed && placed then TradeResult(true, quantity) else FAILED
  }

  datatype Reply =
    | Response(isFinal: bool, traded: real, hasOrderRef: bool)   // status FILLED or CLOSED is final
    | ConnectionError
    | OtherError

  datatype Poll =
    | Reported(filled: bool, traded: real)
    | PollRaised

  const ATTEMPTS: nat := 2
  const POLLS: nat := 3

  /** What the caller sees of an aggressive limit order: a result, or an exception from a poll. */
  datatype Outcome = Result(value: TradeResult) | Raised

  /** The reply that decides the placement: the second attempt only after a connection error. */
  function Decisive(replies: seq<Reply>): Reply
    requires |replies| == ATTEMPTS
  {
    if replies[0].ConnectionError? then replies[1] else replies[0]
  }

  function PolledOutcome(polls: seq<Poll>, lastTraded: real, quantity: real): Outcome {
    if polls == [] then Result(TradeResult(false, lastTraded))
    else match polls[0]
      case PollRaised => Raised
      case Reported(filled, traded) =>
        if filled then Result(TradeResult(true, quantity)) else PolledOutcome(polls[1..], traded, quantity)
  }

  function AggressiveOutcome(bookFetched: bool, checksPassed: bool, replies: seq<Reply>, canPoll: bool,
                             polls: seq<Poll>, quantity: real): Outcome
    requires |replies| == ATTEMPTS && |polls| == POLLS
  {
    if !bookFetched || !checksPassed then Result(FAILED)
    else match Decisive(replies)
      case ConnectionError => Result(FAILED)
      case OtherError => Result(FAILED)
      case Response(isFinal, traded, hasOrderRef) =>
        if !isFinal && traded == 0.0 && canPoll then
          if hasOrderRef then PolledOutcome(polls, 0.0, quantity) else Result(FAILED)
        else Result(TradeResult(true, if traded > 0.0 then traded else quantity))
  }

  /** execute_aggressive_limit_order: up to two placements, then up to three polls. */
  method ExecuteAggressiveLimitOrder(bookFetched: bool, checksPassed: bool, replies: seq<Reply>, canPoll: bool,
                                     polls: seq<Poll>, quantity: real)
    returns (r: Outcome)
    requires |replies| == ATTEMPTS && |polls| == POLLS
    ensures r == AggressiveOutcome(bookFetched, checksPassed, replies, canPoll, polls, quantity)
  {
    if !bookFetched {
      return Result(FAILED);
    }
    if !checksPassed {
      return Result(FAILED);
    }
    var response, connectionFailed := OtherError, false;
    for attempt := 0 to ATTEMPTS
      invariant attempt > 0 ==> connectionFailed && forall k :: 0 <= k < attempt ==> replies[k].ConnectionError?
    {
      match replies[attempt] {
        case Response(_, _, _) =>
          response := replies[attempt];
          connectionFailed := false;
          break;
        case ConnectionError =>
          connectionFailed := true;
        case OtherError =>
          return Result(FAILED);
      }
    }
    if connectionFailed {
      return Result(FAILED);
    }
    var traded := response.traded;
    if !response.isFinal && traded == 0.0 && canPoll {
      if !response.hasOrderRef {
        return Result(FAILED);
      }
      var lastTraded := 0.0;
      assert polls[0..] == polls;
      for k := 0 to POLLS
        invariant PolledOutcome(polls, 0.0, quantity) == PolledOutcome(polls[k..], lastTraded, quantity)
      {
        assert polls[k..][1..] == polls[k + 1..];
        match polls[k] {
          case PollRaised => return Raised;
          case Reported(filled, reported) =>
            if filled {
              return Result(TradeResult(true, if traded > 0.0 then traded else quantity));
            }
            lastTraded := reported;
        }
      }
      return Result(TradeResult(false, lastTraded));
    }
    return Result(TradeResult(true, if traded > 0.0 then traded else quantity));
  }

  /** A venue that never misreports: an immediate amount or a final status is the fill, a poll
      reports the fill and says "filled" for the whole quantity only. */
  ghost predicate Truthful(reply: Reply, polls: seq<Poll>, filled: real, quantity: real) {
    && reply.Response? && filled >= 0.0
    && (reply.traded > 0.0 ==> reply.traded == filled) && reply.traded >= 0.0
    && (forall k :: 0 <= k < |polls| ==>
          polls[k].Reported? && (polls[k].filled <==> filled == quantity) && polls[k].traded == filled)
  }

  lemma {:induction false} TruthfulPollsAccount(polls: seq<Poll>, lastTraded: real, filled: real, quantity: real)
    requires forall k :: 0 <= k < |polls| ==>
               polls[k].Reported? && (polls[k].filled <==> filled == quantity) && polls[k].traded == filled
    requires filled >= 0.0 && (polls == [] ==> lastTraded == filled && filled != quantity)
    ensures var o := PolledOutcome(polls, lastTraded, quantity);
            o.Result? && Accounts(o.value, filled, quantity)
  {
    if polls != [] && !polls[0].filled {
      TruthfulPollsAccount(polls[1..], polls[0].traded, filled, quantity);
    }
  }

  /** The venue is asked what has filled. */
  predicate AsksForFill(reply: Reply, canPoll: bool) {
    reply.Response? && !reply.isFinal && reply.traded == 0.0 && canPoll && reply.hasOrderRef
  }

  /** For one fill: a report accounts for it if the fill was asked for, or is the amount the report
      stands for. */
  lemma ReportAccounts(replies: seq<Reply>, canPoll: bool, polls: seq<Poll>, filled: real, quantity: real)
    requires |replies| == ATTEMPTS && |polls| == POLLS
    requires Truthful(Decisive(replies), polls, filled, quantity)
    ensures var o, reply := AggressiveOutcome(true, true, replies, canPoll, polls, quantity), Decisive(replies);
            var expected := if !reply.isFinal && reply.traded == 0.0 && canPoll then 0.0 else quantity;
            o.Result? && (Accounts(o.value, filled, quantity) <==> AsksForFill(reply, canPoll) || filled == expected)
  {
    if AsksForFill(Decisive(replies), canPoll) { TruthfulPollsAccount(polls, 0.0, filled, quantity); }
  }

  /** Whatever a truthful venue fills and answers to polls, the report accounts for it. */
  ghost predicate AlwaysAccounts(replies: seq<Reply>, canPoll: bool, quantity: real)
    requires |replies| == ATTEMPTS
  {
    forall polls: seq<Poll>, filled: real ::
      |polls| == POLLS && Truthful(Decisive(replies), polls, filled, quantity) ==>
        var o := AggressiveOutcome(true, true, replies, canPoll, polls, quantity);
        o.Result? && Accounts(o.value, filled, quantity)
  }

  /** Three polls that report the same. */
  function Same(filled: bool, traded: real): seq<Poll> {
    [Reported(filled, traded), Reported(filled, traded), Reported(filled, traded)]
  }

  /** An immediate partial fill, a closed or unpollable order that reports nothing traded, and a
      placed order without a reference cannot be trusted even with a truthful venue: the report is
      sure to account for the fill exactly when the fill is asked for, or the reply itself already
      says that the whole quantity has traded. */
  lemma ReportAccountsExactlyWhen(replies: seq<Reply>, canPoll: bool, quantity: real)
    requires |replies| == ATTEMPTS && quantity > 0.0
    requires Decisive(replies).Response? && Decisive(replies).traded >= 0.0
    ensures AlwaysAccounts(replies, canPoll, quantity)
       <==> AsksForFill(Decisive(replies), canPoll) || Decisive(replies).traded == quantity
  {
    hide AggressiveOutcome, Accounts;
    var reply := Decisive(replies);
    if AsksForFill(reply, canPoll) || reply.traded == quantity {
      forall polls: seq<Poll>, filled: real | |polls| == POLLS && Truthful(reply, polls, filled, quantity)
        ensures var o := AggressiveOutcome(true, true, replies, canPoll, polls, quantity);
                o.Result? && Accounts(o.value, filled, quantity)
      {
        ReportAccounts(replies, canPoll, polls, filled, quantity);
      }
    } else {
      var filled := if reply.traded > 0.0 then reply.traded
                    else if !reply.isFinal && canPoll then quantity else 0.0;
      var polls := Same(filled == quantity, filled);
      assert Truthful(reply, polls, filled, quantity);
      ReportAccounts(replies, canPoll, polls, filled, quantity);
    }
  }

  /** A first placement that reaches the venue before the connection drops is sent again. When the
      report accounts for the second order, it accounts for both together exactly when the first one
      has filled nothing. */
  lemma LostPlacementIsHidden(r: TradeResult, lost: real, filled: real, quantity: real)
    requires Accounts(r, filled, quantity)
    ensures Accounts(r, lost + filled, quantity) <==> lost == 0.0
  {
  }

  /** The order is placed again after a connection error and after nothing else; then the first reply
      does not matter. */
  lemma SecondPlacementOnlyAfterConnectionError(first: Reply, second: Reply, other: Reply, canPoll: bool,
                                                polls: seq<Poll>, quantity: real)
    requires |polls| == POLLS
    ensures !first.ConnectionError? ==>
              AggressiveOutcome(true, true, [first, second], canPoll, polls, quantity)
              == AggressiveOutcome(true, true, [first, other], canPoll, polls, quantity)
    ensures second.Response? ==>
              AggressiveOutcome(true, true, [ConnectionError, second], canPoll, polls, quantity)
              == AggressiveOutcome(true, true, [second, other], canPoll, polls, quantity)
    ensures first.OtherError? || (first.ConnectionError? && !second.Response?) ==>
              AggressiveOutcome(true, true, [first, second], canPoll, polls, quantity) == Result(FAILED)
  {
  }

  /** Nothing is reported as traded, and no order is placed, without a book or after failed checks. */
  lemma NoOrderWithoutChecks(bookFetched: bool, checksPassed: bool, replies: seq<Reply>, canPoll: bool,
                             polls: seq<Poll>, quantity: real)
    requires |replies| == ATTEMPTS && |polls| == POLLS && (!bookFetched || !checksPassed)
    ensures AggressiveOutcome(bookFetched, checksPassed, replies, canPoll, polls, quantity)
         == Result(TradeResult(false, 0.0))
  {
  }

  /** What the replies decide without a poll: an order that says it has traded is reported with that
      amount, and a final or unpollable one that says nothing with the whole quantity. */
  lemma RepliesAreReported(reply: Reply, other: Reply, canPoll: bool, polls: seq<Poll>, quantity: real)
    requires |polls| == POLLS && reply.Response?
    ensures var o := AggressiveOutcome(true, true, [reply, other], canPoll, polls, quantity);
            && (reply.traded > 0.0 ==> o == Result(TradeResult(true, reply.traded)))
            && (reply.traded == 0.0 && (reply.isFinal || !canPoll) ==> o == Result(TradeResult(true, quantity)))
            && (reply.traded == 0.0 && !reply.isFinal && canPoll && !reply.hasOrderRef ==>
                  o == Result(TradeResult(false, 0.0)))
  {
  }

  /** The first poll that says filled or raises decides, and without any the order is reported as failed
      with the amount of the last. */
  lemma {:induction false} FirstTellingPollDecides(polls: seq<Poll>, lastTraded: real, quantity: real, k: nat)
    requires k < |polls| && forall i :: 0 <= i < k ==> polls[i].Reported? && !polls[i].filled
    ensures var o := PolledOutcome(polls, lastTraded, quantity);
            && (polls[k].PollRaised? ==> o.Raised?)
            && (polls[k].Reported? && polls[k].filled ==> o == Result(TradeResult(true, quantity)))
            && (k == |polls| - 1 && polls[k].Reported? && !polls[k].filled ==>
                  o == Result(TradeResult(false, polls[k].traded)))
  {
    if k > 0 {
      FirstTellingPollDecides(polls[1..], polls[0].traded, quantity, k - 1);
    } else if |polls| == 1 {
      assert polls[1..] == [];
    }
  }

  /** The same of an order that is polled. */
  lemma PollsDecide(reply: Reply, other: Reply, polls: seq<Poll>, quantity: real, k: nat)
    requires |polls| == POLLS && k < 3 && AsksForFill(reply, true)
    requires forall i :: 0 <= i < k ==> polls[i].Reported? && !polls[i].filled
    ensures var o := AggressiveOutcome(true, true, [reply, other], true, polls, quantity);
            && (polls[k].PollRaised? ==> o.Raised?)
            && (polls[k].Reported? && polls[k].filled ==> o == Result(TradeResult(true, quantity)))
            && (k == 2 && polls[k].Reported? && !polls[k].filled ==> o == Result(TradeResult(false, polls[k].traded)))
  {
    hide PolledOutcome;
    FirstTellingPollDecides(polls, 0.0, quantity, k);
  }
}

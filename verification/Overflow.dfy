/** Exactly when a call fails for a BIGINT overflow, which the source answers as its internal
    error: when everything else about it is in order and its posting would take a wallet
    column out of range. */
module Overflow {
  import opened Wrappers
  import opened Errors
  import opened Domain
  import opened Ledger
  import opened Model
  import opened Invariants
  import opened StepProofs
  import opened Runs

  // -------------------------- the posting of a call that passes its other checks

  function CapturePosting(st: State, actor: Actor, now: int, input: CaptureInput): Option<Posting> {
    var quote := Quote(st, input.merchant, input.customer, input.paid, input.base, now);
    if actor.Has({Operator, Integrator}) && Text(input.externalId, 96) && input.cny
       && (input.customer.Some? ==> Text(input.customer.value, 96)) && quote.Ok?
       && (forall i :: 0 <= i < |st.orders| ==> st.orders[i].externalId != input.externalId)
    then Some(Posting(OrderCaptured(|st.orders|), CaptureJournal, Some(actor.id),
                      CaptureLines(input.paid, AllocationsFor(quote.value, input.merchant))))
    else None
  }

  ghost function RefundPosting(st: State, actor: Actor, id: nat, input: RefundInput): Option<Posting> {
    if actor.Has({Operator, Integrator}) && Text(input.externalId, 96) && Text(input.reason, 400) && Positive(input.amount)
       && id < |st.orders| && st.orders[id].refunded + input.amount <= st.orders[id].paid
       && Refundable(Originals(st.orders[id].allocations), st.orders[id].refunded + input.amount)
       && (forall i :: 0 <= i < |st.refunds| ==> st.refunds[i].externalId != input.externalId)
    then Some(Posting(OrderRefunded(|st.refunds|), RefundJournal, Some(actor.id),
                      RefundLines(st.orders[id], input.amount,
                                  Apportion(Originals(st.orders[id].allocations), st.orders[id].refunded + input.amount))))
    else None
  }

  function ReleasePosting(st: State, actor: Option<ActorId>, now: int, id: nat): Option<Posting> {
    if id < |st.orders| && st.orders[id].releasedAt.None? && st.orders[id].unlockAt <= now
    then Some(Posting(OrderReleased(id), ReleaseJournal, actor, ReleaseLines(st.orders[id].allocations)))
    else None
  }

  function RequestPosting(st: State, actor: Actor, input: PayoutInput): Option<Posting> {
    if actor.Has({Operator, Member}) && actor.MaySee(input.account)
       && Text(input.externalId, 96) && Text(input.destination, 160) && Positive(input.amount)
       && input.account in st.accounts && st.accounts[input.account].active && st.accounts[input.account].kind != ClearingAccount
       && input.account in st.books.wallets && st.books.wallets[input.account].available >= input.amount
       && (forall i :: 0 <= i < |st.payouts| ==> st.payouts[i].externalId != input.externalId)
    then Some(Posting(PayoutReserved(|st.payouts|), PayoutReserve, Some(actor.id),
                      Transfer(input.account, Available, input.account, Reserved, input.amount)))
    else None
  }

  function RejectPosting(st: State, actor: Actor, id: nat, reason: string): Option<Posting> {
    if actor.Has({Finance}) && Text(reason, 400) && id < |st.payouts| && st.payouts[id].status in {Requested, Approved}
    then Some(Posting(PayoutRejected(id), PayoutReject, Some(actor.id),
                      Transfer(st.payouts[id].account, Reserved, st.payouts[id].account, Available, st.payouts[id].amount)))
    else None
  }

  function ConcludePosting(st: State, actor: Actor, id: nat, input: OutcomeInput): Option<Posting> {
    if actor.Has({Finance}) && Text(input.evidence, 1000) && input.status in {Succeeded, Failed}
       && (input.providerReference.Some? ==> Text(input.providerReference.value, 160))
       && (input.status == Succeeded ==> input.providerReference.Some?)
       && id < |st.payouts| && st.payouts[id].status in {Processing, Unknown} && st.payouts[id].requestedBy != actor.id
    then
      var p := st.payouts[id];
      Some(Posting(PayoutClosed(id), if input.status == Succeeded then PayoutPaid else PayoutFailed, Some(actor.id),
                   Transfer(p.account, Reserved, if input.status == Succeeded then CLEARING else p.account, Available, p.amount)))
    else None
  }

  /** The posting a call sends once its own checks have passed, if it sends one. */
  ghost function PostingOf(st: State, c: Call): Option<Posting> {
    match c.op
    case OpCapture(input) => CapturePosting(st, c.actor, c.now, input)
    case OpRefund(id, input) => RefundPosting(st, c.actor, id, input)
    case OpRelease(id) => if c.actor.Has({Operator, Finance}) then ReleasePosting(st, Some(c.actor.id), c.now, id) else None
    case OpReleaseOneDue(skip) =>
      if i: nat :| FirstDue(st.orders, c.now, skip, i) then ReleasePosting(st, None, c.now, i) else None
    case OpRequestPayout(input) => RequestPosting(st, c.actor, input)
    case OpReject(id, reason) => RejectPosting(st, c.actor, id, reason)
    case OpConclude(id, input) => ConcludePosting(st, c.actor, id, input)
    case _ => None
  }

  /** With a posting, the call fails for an overflow if and only if there is one, and goes
      through otherwise; without a posting it does not fail for an overflow. */
  ghost predicate OnlyOverflow(st: State, r: Outcome<State>, posting: Option<Posting>) {
    if posting.None? then r != Err(OutOfRange)
    else if Overflows(st.books, posting.value) then r == Err(OutOfRange)
    else r.Ok?
  }

  lemma QuoteNeverOverflows(st: State, now: int, input: CaptureInput)
    ensures Quote(st, input.merchant, input.customer, input.paid, input.base, now) != Err(OutOfRange)
  {
  }

  lemma CaptureOverflow(st: State, actor: Actor, now: int, input: CaptureInput)
    requires Inv(st)
    ensures OnlyOverflow(st, Capture(st, actor, now, input), CapturePosting(st, actor, now, input))
  {
    hide Inv, Quote, Post, Overflows, Text;
    QuoteAnswers(st, input, now);
    QuoteNeverOverflows(st, now, input);
    var quote := Quote(st, input.merchant, input.customer, input.paid, input.base, now);
    if quote.Ok? {
      var q := quote.value;
      var order := Order(input.externalId, input.merchant, input.customer, input.paid, input.base, q.split.feePool, 0, q.rule,
                         now + st.rules[q.rule].terms.freezeSeconds, None, AllocationsFor(q, input.merchant));
      QuotedOrder(st, now, input, q, order);
      CapturePosted(st, Some(actor.id), order);
    }
  }

  lemma RefundOverflow(st: State, actor: Actor, id: nat, input: RefundInput)
    requires Inv(st)
    ensures OnlyOverflow(st, Refund(st, actor, id, input), RefundPosting(st, actor, id, input))
  {
    hide Inv, OrderOk, Post, Overflows, Text;
    RefundKeeps(st, actor, id, input);
    if id < |st.orders| && Positive(input.amount) && st.orders[id].refunded + input.amount <= st.orders[id].paid {
      var o := st.orders[id];
      var targets := RefundTargets(st, id, input.amount);
      RefundPosted(st, Some(actor.id), id, input, targets,
                   o.(refunded := o.refunded + input.amount, allocations := Retarget(o.allocations, targets)));
    }
  }

  lemma ReleaseOverflow(st: State, actor: Option<ActorId>, now: int, id: nat)
    requires Inv(st) && id < |st.orders|
    ensures OnlyOverflow(st, ReleaseLocked(st, actor, now, id), ReleasePosting(st, actor, now, id))
  {
    hide MoneyOk, OrderOk, Post, Overflows;
    if ReleasePosting(st, actor, now, id).Some? {
      ReleaseMoney(st.books, st.orders, st.payouts, id, now, ReleasePosting(st, actor, now, id).value);
    }
  }

  lemma RequestOverflow(st: State, actor: Actor, input: PayoutInput)
    requires Inv(st)
    ensures OnlyOverflow(st, RequestPayout(st, actor, input), RequestPosting(st, actor, input))
  {
    hide MoneyOk, RowsOk, KeysOk, RefundsOk, Post, Overflows, Text;
    if RequestPosting(st, actor, input).Some? {
      RequestPosted(st, Some(actor.id),
                    Payout(input.externalId, input.account, input.amount, input.destination, Requested, actor.id, None, None, None));
    }
  }

  lemma RejectOverflow(st: State, actor: Actor, id: nat, reason: string)
    requires Inv(st)
    ensures OnlyOverflow(st, Reject(st, actor, id, reason), RejectPosting(st, actor, id, reason))
  {
    hide MoneyOk, KeysOk, RefundsOk, AccountsOk, Post, Overflows, Text;
    if RejectPosting(st, actor, id, reason).Some? {
      var p := st.payouts[id];
      ClosePosted(st, Some(actor.id), id, p.(status := Rejected, evidence := Some(reason)), p.account,
                  RejectPosting(st, actor, id, reason).value);
    }
  }

  /** An outcome's posting is sent before its reference is checked, so that without an
      overflow a reference already taken still stops it. */
  lemma ConcludeOverflow(st: State, actor: Actor, id: nat, input: OutcomeInput)
    requires Inv(st)
    ensures Conclude(st, actor, id, input) == Err(Duplicate)
            || OnlyOverflow(st, Conclude(st, actor, id, input), ConcludePosting(st, actor, id, input))
    ensures Conclude(st, actor, id, input) == Err(Duplicate) && ConcludePosting(st, actor, id, input).Some? ==>
              !Overflows(st.books, ConcludePosting(st, actor, id, input).value)
  {
    hide MoneyOk, KeysOk, RefundsOk, AccountsOk, Post, Overflows, Text;
    if ConcludePosting(st, actor, id, input).Some? {
      var p := st.payouts[id];
      var reference := if input.providerReference.Some? then input.providerReference else p.providerReference;
      ClosePosted(st, Some(actor.id), id, p.(status := input.status, providerReference := reference, evidence := Some(input.evidence)),
                  if input.status == Succeeded then CLEARING else p.account, ConcludePosting(st, actor, id, input).value);
    }
  }

  /** Over all calls: in a reachable state a call fails for an overflow exactly if everything
      else about it is in order and its posting overflows a wallet column. */
  lemma OverflowIff(st: State, c: Call)
    requires Reachable(st)
    ensures Step(st, c) == Err(OutOfRange) <==> PostingOf(st, c).Some? && Overflows(st.books, PostingOf(st, c).value)
    ensures PostingOf(st, c).Some? && !Overflows(st.books, PostingOf(st, c).value) ==>
              Step(st, c).Ok? || (c.op.OpConclude? && Step(st, c) == Err(Duplicate))
  {
    hide Inv, Overflows, Capture, Refund, ReleaseLocked, RequestPayout, Reject, Conclude, ReleasePosting,
      CapturePosting, RefundPosting, RequestPosting, RejectPosting, ConcludePosting, Reachable;
    ReachableSound(st);
    match c.op
    case OpCapture(input) => CaptureOverflow(st, c.actor, c.now, input);
    case OpRefund(id, input) => RefundOverflow(st, c.actor, id, input);
    case OpRelease(id) => ManualReleaseOverflow(st, c.actor, c.now, id);
    case OpReleaseOneDue(skip) => WorkerReleaseOverflow(st, c, skip);
    case OpRequestPayout(input) => RequestOverflow(st, c.actor, input);
    case OpReject(id, reason) => RejectOverflow(st, c.actor, id, reason);
    case OpConclude(id, input) => ConcludeOverflow(st, c.actor, id, input);
    case _ => OtherCalls(st, c);
  }

  lemma ManualReleaseOverflow(st: State, actor: Actor, now: int, id: nat)
    requires Inv(st)
    ensures OnlyOverflow(st, Release(st, actor, now, id),
                         if actor.Has({Operator, Finance}) then ReleasePosting(st, Some(actor.id), now, id) else None)
  {
    hide Inv, Overflows, ReleaseLocked;
    if id < |st.orders| {
      ReleaseOverflow(st, Some(actor.id), now, id);
    }
  }

  lemma WorkerReleaseOverflow(st: State, c: Call, skip: set<nat>)
    requires Inv(st) && c.op == OpReleaseOneDue(skip)
    ensures OnlyOverflow(st, Step(st, c), PostingOf(st, c))
  {
    hide Inv, Overflows, ReleaseLocked, ReleasePosting;
    if exists i: nat :: FirstDue(st.orders, c.now, skip, i) {
      var i: nat :| FirstDue(st.orders, c.now, skip, i) && Step(st, c) == ReleaseLocked(st, None, c.now, i);
      var j: nat :| FirstDue(st.orders, c.now, skip, j) && PostingOf(st, c) == ReleasePosting(st, None, c.now, j);
      FirstDueUnique(st.orders, c.now, skip, i, j);
      ReleaseOverflow(st, None, c.now, i);
    }
  }

  lemma OtherCalls(st: State, c: Call)
    requires PostingOf(st, c).None?
    requires c.op.OpCreateAccount? || c.op.OpBindReferral? || c.op.OpCreateRule? || c.op.OpDisableRule? || c.op.OpApprove? || c.op.OpProcess?
    ensures Step(st, c) != Err(OutOfRange)
  {
  }
}

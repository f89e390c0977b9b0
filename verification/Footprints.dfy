/** What each service call leaves alone (src/service/catalog.rs, src/service/orders.rs,
    src/service/payouts.rs). */
module Footprints {
  import opened Wrappers
  import opened Errors
  import opened Domain
  import opened Ledger
  import opened Model

  /** The catalog stays as it is, and so do the other tables but for those named: of the
      orders, that none is added. */
  ghost predicate Touches(st: State, r: Outcome<State>, orders: bool, refunds: bool, payouts: bool) {
    r.Ok? ==>
      && r.value.accounts == st.accounts && r.value.bindings == st.bindings && r.value.rules == st.rules
      && (!orders ==> |r.value.orders| == |st.orders|)
      && (!refunds ==> r.value.refunds == st.refunds)
      && (!payouts ==> r.value.payouts == st.payouts)
  }

  lemma CaptureTouches(st: State, actor: Actor, now: int, input: CaptureInput)
    ensures Touches(st, Capture(st, actor, now, input), true, false, false)
  {
    hide Post, Quote, Text;
  }

  lemma RefundTouches(st: State, actor: Actor, id: nat, input: RefundInput)
    ensures Touches(st, Refund(st, actor, id, input), false, true, false)
  {
    hide Post, Text, Apportion, Refundable;
  }

  lemma ReleaseTouches(st: State, actor: Option<ActorId>, now: int, id: nat)
    requires id < |st.orders|
    ensures Touches(st, ReleaseLocked(st, actor, now, id), false, false, false)
  {
    hide Post;
  }

  lemma RequestTouches(st: State, actor: Actor, input: PayoutInput)
    ensures Touches(st, RequestPayout(st, actor, input), false, false, true)
  {
    hide Post, Text;
  }

  lemma ReviewTouches(st: State, actor: Actor, id: nat, reason: string)
    ensures Touches(st, Approve(st, actor, id), false, false, true)
    ensures Touches(st, Process(st, actor, id, reason), false, false, true)
    ensures Touches(st, Reject(st, actor, id, reason), false, false, true)
  {
    hide Post, Text;
  }

  lemma ConcludeTouches(st: State, actor: Actor, id: nat, input: OutcomeInput)
    ensures Touches(st, Conclude(st, actor, id, input), false, false, true)
  {
    hide Post, Text;
  }

  /** Calls on orders and payouts leave the catalog alone, and each other's tables. */
  lemma StepTouches(st: State, c: Call)
    requires !c.op.OpCreateAccount? && !c.op.OpBindReferral? && !c.op.OpCreateRule? && !c.op.OpDisableRule?
    ensures Touches(st, Step(st, c), c.op.OpCapture?, c.op.OpRefund?,
                    c.op.OpRequestPayout? || c.op.OpApprove? || c.op.OpProcess? || c.op.OpReject? || c.op.OpConclude?)
  {
    hide Capture, Refund, ReleaseLocked, RequestPayout, Approve, Process, Reject, Conclude;
    match c.op
    case OpCapture(input) => CaptureTouches(st, c.actor, c.now, input);
    case OpRefund(id, input) => RefundTouches(st, c.actor, id, input);
    case OpRelease(id) =>
      if id < |st.orders| {
        ReleaseTouches(st, Some(c.actor.id), c.now, id);
      }
    case OpReleaseOneDue(skip) =>
      if exists i: nat :: FirstDue(st.orders, c.now, skip, i) {
        var i: nat :| FirstDue(st.orders, c.now, skip, i) && Step(st, c) == ReleaseLocked(st, None, c.now, i);
        ReleaseTouches(st, None, c.now, i);
      }
    case OpRequestPayout(input) => RequestTouches(st, c.actor, input);
    case OpApprove(id) => ReviewTouches(st, c.actor, id, "");
    case OpProcess(id, reason) => ReviewTouches(st, c.actor, id, reason);
    case OpReject(id, reason) => ReviewTouches(st, c.actor, id, reason);
    case OpConclude(id, input) => ConcludeTouches(st, c.actor, id, input);
    case _ =>
  }

  /** Catalog calls leave orders, refunds and payouts alone, and all of the catalog but their
      own table. */
  lemma CatalogTouches(st: State, c: Call)
    requires c.op.OpCreateAccount? || c.op.OpBindReferral? || c.op.OpCreateRule? || c.op.OpDisableRule?
    ensures var st' := After(st, c);
            && st'.orders == st.orders && st'.refunds == st.refunds && st'.payouts == st.payouts
            && st'.books.journals == st.books.journals
            && (!c.op.OpCreateAccount? ==> st'.accounts == st.accounts && st'.books == st.books)
            && (!c.op.OpBindReferral? ==> st'.bindings == st.bindings)
            && (!c.op.OpCreateRule? && !c.op.OpDisableRule? ==> st'.rules == st.rules)
  {
    hide Text, AccountError;
  }
}

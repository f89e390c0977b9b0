/** What calls never change: the facts that the append-only and original-field triggers of
    migrations/0001_initial.sql guard, and the one-way road of a payout. */
module History {
  import opened Wrappers
  import opened Errors
  import opened Domain
  import opened Ledger
  import opened Model

  /** An order keeps everything but its refund totals, which only grow, and its release
      time, which is set once. */
  ghost predicate SameOrigin(o: Order, o': Order) {
    && o' == o.(refunded := o'.refunded, releasedAt := o'.releasedAt, allocations := o'.allocations)
    && o.refunded <= o'.refunded
    && (o.releasedAt.Some? ==> o'.releasedAt == o.releasedAt)
    && |o.allocations| == |o'.allocations|
    && forall i :: 0 <= i < |o.allocations| ==>
         && o'.allocations[i] == o.allocations[i].(refunded := o'.allocations[i].refunded)
         && o.allocations[i].refunded <= o'.allocations[i].refunded
  }

  predicate Closed(s: Status) {
    s in {Succeeded, Failed, Rejected}
  }

  /** The states a payout can come to be in, directly or not. */
  predicate Leads(s: Status, t: Status) {
    match s
    case Requested => true
    case Approved => t != Requested
    case Processing => t in {Processing, Unknown, Succeeded, Failed}
    case Unknown => t in {Unknown, Succeeded, Failed}
    case _ => t == s
  }

  ghost predicate PayoutFollows(p: Payout, p': Payout) {
    && p'.externalId == p.externalId && p'.account == p.account && p'.amount == p.amount
    && p'.destination == p.destination && p'.requestedBy == p.requestedBy
    && Leads(p.status, p'.status)
    && (Closed(p.status) ==> p' == p)
    && (p.status != Requested ==> p'.approvedBy == p.approvedBy)
  }

  ghost predicate RuleFollows(r: Rule, r': Rule) {
    r' == r.(active := r'.active) && (r'.active ==> r.active)
  }

  ghost predicate OrdersFollow(orders: seq<Order>, orders': seq<Order>) {
    |orders| <= |orders'| && forall i :: 0 <= i < |orders| ==> SameOrigin(orders[i], orders'[i])
  }

  ghost predicate PayoutsFollow(payouts: seq<Payout>, payouts': seq<Payout>) {
    |payouts| <= |payouts'| && forall i :: 0 <= i < |payouts| ==> PayoutFollows(payouts[i], payouts'[i])
  }

  ghost predicate RulesFollow(rules: seq<Rule>, rules': seq<Rule>) {
    |rules| <= |rules'| && forall i :: 0 <= i < |rules| ==> RuleFollows(rules[i], rules'[i])
  }

  /** `st'` is a possible future of `st`: journals and refunds only get appended, accounts,
      bindings and original fields stay, closed payouts and released orders stay so. */
  ghost predicate Later(st: State, st': State) {
    && st.books.journals <= st'.books.journals
    && st.refunds <= st'.refunds
    && (forall a :: a in st.accounts ==> a in st'.accounts && st'.accounts[a] == st.accounts[a])
    && (forall c :: c in st.bindings ==> c in st'.bindings && st'.bindings[c] == st.bindings[c])
    && RulesFollow(st.rules, st'.rules)
    && OrdersFollow(st.orders, st'.orders)
    && PayoutsFollow(st.payouts, st'.payouts)
  }

  lemma LaterTransitive(a: State, b: State, c: State)
    requires Later(a, b) && Later(b, c)
    ensures Later(a, c)
  {
    forall i | 0 <= i < |a.orders|
      ensures SameOrigin(a.orders[i], c.orders[i])
    {
      assert SameOrigin(a.orders[i], b.orders[i]) && SameOrigin(b.orders[i], c.orders[i]);
    }
    forall i | 0 <= i < |a.payouts|
      ensures PayoutFollows(a.payouts[i], c.payouts[i])
    {
      assert PayoutFollows(a.payouts[i], b.payouts[i]) && PayoutFollows(b.payouts[i], c.payouts[i]);
    }
    forall i | 0 <= i < |a.rules|
      ensures RuleFollows(a.rules[i], c.rules[i])
    {
      assert RuleFollows(a.rules[i], b.rules[i]) && RuleFollows(b.rules[i], c.rules[i]);
    }
  }

  lemma PostAppends(books: Books, p: Posting)
    requires Post(books, p).Ok?
    ensures books.journals <= Post(books, p).value.journals
  {
  }

  /** Posting calls append to the journals, whatever else they do. */
  ghost predicate Appends(st: State, r: Outcome<State>) {
    r.Ok? ==> Later(st, r.value)
  }

  lemma AnyPostAppends(books: Books)
    ensures forall p: Posting :: Post(books, p).Ok? ==> books.journals <= Post(books, p).value.journals
  {
    hide Post;
    forall p: Posting | Post(books, p).Ok?
      ensures books.journals <= Post(books, p).value.journals
    {
      PostAppends(books, p);
    }
  }

  lemma CaptureFollows(st: State, actor: Actor, now: int, input: CaptureInput)
    ensures Appends(st, Capture(st, actor, now, input))
  {
    hide Post, Quote;
    AnyPostAppends(st.books);
  }

  lemma RefundFollows(st: State, actor: Actor, id: nat, input: RefundInput)
    ensures Appends(st, Refund(st, actor, id, input))
  {
    hide Post;
    AnyPostAppends(st.books);
  }

  lemma ReleaseFollows(st: State, actor: Option<ActorId>, now: int, id: nat)
    requires id < |st.orders|
    ensures Appends(st, ReleaseLocked(st, actor, now, id))
  {
    hide Post;
    var p := Posting(OrderReleased(id), ReleaseJournal, actor, ReleaseLines(st.orders[id].allocations));
    if Post(st.books, p).Ok? {
      PostAppends(st.books, p);
    }
  }

  lemma RequestPayoutFollows(st: State, actor: Actor, input: PayoutInput)
    ensures Appends(st, RequestPayout(st, actor, input))
  {
    hide Post;
    AnyPostAppends(st.books);
  }

  lemma ApproveFollows(st: State, actor: Actor, id: nat)
    ensures Appends(st, Approve(st, actor, id))
  {
  }

  lemma ProcessFollows(st: State, actor: Actor, id: nat, reason: string)
    ensures Appends(st, Process(st, actor, id, reason))
  {
  }

  lemma RejectFollows(st: State, actor: Actor, id: nat, reason: string)
    ensures Appends(st, Reject(st, actor, id, reason))
  {
    hide Post;
    AnyPostAppends(st.books);
  }

  lemma ConcludeFollows(st: State, actor: Actor, id: nat, input: OutcomeInput)
    ensures Appends(st, Conclude(st, actor, id, input))
  {
    hide Post;
    AnyPostAppends(st.books);
  }

  /** No call rewrites history. */
  lemma StepFollows(st: State, c: Call)
    ensures Later(st, After(st, c))
  {
    hide Capture, Refund, RequestPayout, Approve, Process, Reject, Conclude, ReleaseLocked;
    match c.op
    case OpCapture(input) => CaptureFollows(st, c.actor, c.now, input);
    case OpRefund(id, input) => RefundFollows(st, c.actor, id, input);
    case OpRelease(id) =>
      if id < |st.orders| {
        ReleaseFollows(st, Some(c.actor.id), c.now, id);
      }
    case OpReleaseOneDue(skip) =>
      if exists i: nat :: FirstDue(st.orders, c.now, skip, i) {
        var i: nat :| FirstDue(st.orders, c.now, skip, i) && Step(st, c) == ReleaseLocked(st, None, c.now, i);
        ReleaseFollows(st, None, c.now, i);
      }
    case OpRequestPayout(input) => RequestPayoutFollows(st, c.actor, input);
    case OpApprove(id) => ApproveFollows(st, c.actor, id);
    case OpProcess(id, reason) => ProcessFollows(st, c.actor, id, reason);
    case OpReject(id, reason) => RejectFollows(st, c.actor, id, reason);
    case OpConclude(id, input) => ConcludeFollows(st, c.actor, id, input);
    case _ =>
  }

  /** Over a whole run: whatever was journalled, refunded, released or closed stays so. */
  lemma {:induction false} RunFollows(st: State, calls: seq<Call>)
    ensures Later(st, Run(st, calls))
  {
    hide Step;
    if calls != [] {
      var before := Run(st, calls[..|calls| - 1]);
      RunFollows(st, calls[..|calls| - 1]);
      StepFollows(before, calls[|calls| - 1]);
      LaterTransitive(st, before, Run(st, calls));
    }
  }

  /** One call moves a payout along at most one edge of its state machine; every step towards
      paying it out is taken by somebody other than its requester. */
  ghost predicate Edge(p: Payout, p': Payout, actor: Actor) {
    || p' == p
    || (p'.status == Approved && p.status == Requested && p'.approvedBy == Some(actor.id) && actor.id != p.requestedBy)
    || (p'.status == Processing && p.status == Approved && actor.id != p.requestedBy)
    || (p'.status in {Succeeded, Failed, Unknown} && p.status in {Processing, Unknown} && actor.id != p.requestedBy)
    || (p'.status == Rejected && p.status in {Requested, Approved})
  }

  lemma PayoutEdges(st: State, c: Call, i: nat)
    requires i < |st.payouts|
    ensures i < |After(st, c).payouts| && Edge(st.payouts[i], After(st, c).payouts[i], c.actor)
  {
    match c.op
    case OpApprove(_) => ReviewEdges(st, c, i);
    case OpProcess(_, _) => ReviewEdges(st, c, i);
    case OpReject(_, _) => ClosingEdges(st, c, i);
    case OpConclude(_, _) => ClosingEdges(st, c, i);
    case _ => OtherCalls(st, c, i);
  }

  lemma ReviewEdges(st: State, c: Call, i: nat)
    requires i < |st.payouts| && (c.op.OpApprove? || c.op.OpProcess?)
    ensures i < |After(st, c).payouts| && Edge(st.payouts[i], After(st, c).payouts[i], c.actor)
  {
    hide Post;
  }

  lemma ClosingEdges(st: State, c: Call, i: nat)
    requires i < |st.payouts| && (c.op.OpReject? || c.op.OpConclude?)
    ensures i < |After(st, c).payouts| && Edge(st.payouts[i], After(st, c).payouts[i], c.actor)
  {
    hide Post;
  }

  lemma OtherCalls(st: State, c: Call, i: nat)
    requires i < |st.payouts| && !c.op.OpApprove? && !c.op.OpProcess? && !c.op.OpReject? && !c.op.OpConclude?
    ensures i < |After(st, c).payouts| && After(st, c).payouts[i] == st.payouts[i]
  {
    hide Post, Quote, Text, Apportion, Refundable;
  }
}

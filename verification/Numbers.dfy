/** Business numbers and provider references: the UNIQUE columns of
    migrations/0001_initial.sql over every run. */
module Numbers {
  import opened Wrappers
  import opened Errors
  import opened Domain
  import opened Ledger
  import opened Model
  import opened History
  import opened Runs
  import opened Effects
  import opened Footprints
  import opened Commissions

  ghost predicate OrderNumbersDiffer(orders: seq<Order>) {
    forall i, j :: 0 <= i < j < |orders| ==> orders[i].externalId != orders[j].externalId
  }

  ghost predicate RefundNumbersDiffer(refunds: seq<RefundRow>) {
    forall i, j :: 0 <= i < j < |refunds| ==> refunds[i].externalId != refunds[j].externalId
  }

  ghost predicate PayoutNumbersDiffer(payouts: seq<Payout>) {
    forall i, j :: 0 <= i < j < |payouts| ==>
      payouts[i].externalId != payouts[j].externalId
      && (payouts[i].providerReference.Some? ==> payouts[i].providerReference != payouts[j].providerReference)
  }

  ghost predicate AccountNumbersDiffer(accounts: map<AccountId, Account>) {
    forall a, b :: a in accounts && b in accounts && a != b ==> accounts[a].externalId != accounts[b].externalId
  }

  ghost predicate NumbersDiffer(st: State) {
    && AccountNumbersDiffer(st.accounts) && OrderNumbersDiffer(st.orders)
    && RefundNumbersDiffer(st.refunds) && PayoutNumbersDiffer(st.payouts)
  }

  /** Rows keep their numbers, and at most one row is added, with a new number. */
  ghost predicate OrdersNumbered(orders: seq<Order>, orders': seq<Order>) {
    && |orders| <= |orders'| <= |orders| + 1
    && (forall i :: 0 <= i < |orders| ==> orders'[i].externalId == orders[i].externalId)
    && (|orders'| > |orders| ==> forall i :: 0 <= i < |orders| ==> orders[i].externalId != orders'[|orders|].externalId)
  }

  ghost predicate RefundsNumbered(refunds: seq<RefundRow>, refunds': seq<RefundRow>) {
    refunds' == refunds
    || exists r :: refunds' == refunds + [r] && forall i :: 0 <= i < |refunds| ==> refunds[i].externalId != r.externalId
  }

  lemma OrdersKeepNumbers(st: State, c: Call)
    ensures OrdersNumbered(st.orders, After(st, c).orders)
  {
    hide Step, Later;
    assert Later(st, After(st, c)) by { StepFollows(st, c); }
    OrdersFollowed(st, After(st, c));
    SameBindings(st, c);
    if c.op.OpCapture? {
      CaptureNumbers(st, c);
    }
  }

  lemma OrdersFollowed(st: State, st': State)
    requires Later(st, st')
    ensures |st.orders| <= |st'.orders| && forall i :: 0 <= i < |st.orders| ==> st'.orders[i].externalId == st.orders[i].externalId
  {
  }

  lemma CaptureNumbers(st: State, c: Call)
    requires c.op.OpCapture?
    ensures OrdersNumbered(st.orders, After(st, c).orders)
  {
    hide Post, Quote, Text;
  }

  lemma RefundsKeepNumbers(st: State, c: Call)
    ensures RefundsNumbered(st.refunds, After(st, c).refunds)
  {
    hide Step;
    if c.op.OpCreateAccount? || c.op.OpBindReferral? || c.op.OpCreateRule? || c.op.OpDisableRule? {
      CatalogTouches(st, c);
    } else {
      StepTouches(st, c);
      if c.op.OpRefund? {
        RefundNumbers(st, c);
      }
    }
  }

  lemma RefundNumbers(st: State, c: Call)
    requires c.op.OpRefund?
    ensures RefundsNumbered(st.refunds, After(st, c).refunds)
  {
    hide Post, Text, Apportion, Refundable;
  }

  lemma PayoutsKeepNumbers(st: State, c: Call)
    requires PayoutNumbersDiffer(st.payouts)
    ensures PayoutNumbersDiffer(After(st, c).payouts)
  {
    hide Approve, Process, Reject, Conclude, RequestPayout;
    match c.op
    case OpRequestPayout(input) => RequestNumbers(st, c.actor, input);
    case OpApprove(id) => ReviewNumbers(st, c.actor, id, "");
    case OpProcess(id, reason) => ReviewNumbers(st, c.actor, id, reason);
    case OpReject(id, reason) => ReviewNumbers(st, c.actor, id, reason);
    case OpConclude(id, input) => ConcludeNumbers(st, c.actor, id, input);
    case _ => SamePayouts(st, c);
  }

  lemma SamePayouts(st: State, c: Call)
    requires !c.op.OpApprove? && !c.op.OpProcess? && !c.op.OpReject? && !c.op.OpConclude? && !c.op.OpRequestPayout?
    ensures After(st, c).payouts == st.payouts
  {
    hide Step;
    if c.op.OpCreateAccount? || c.op.OpBindReferral? || c.op.OpCreateRule? || c.op.OpDisableRule? {
      CatalogTouches(st, c);
    } else {
      StepTouches(st, c);
    }
  }

  ghost predicate KeepsNumbers(r: Outcome<State>) {
    r.Ok? ==> PayoutNumbersDiffer(r.value.payouts)
  }

  lemma RequestNumbers(st: State, actor: Actor, input: PayoutInput)
    requires PayoutNumbersDiffer(st.payouts)
    ensures KeepsNumbers(RequestPayout(st, actor, input))
  {
    hide Post, Text;
  }

  lemma ReviewNumbers(st: State, actor: Actor, id: nat, reason: string)
    requires PayoutNumbersDiffer(st.payouts)
    ensures KeepsNumbers(Approve(st, actor, id)) && KeepsNumbers(Process(st, actor, id, reason)) && KeepsNumbers(Reject(st, actor, id, reason))
  {
    hide Post, Text;
  }

  lemma ConcludeNumbers(st: State, actor: Actor, id: nat, input: OutcomeInput)
    requires PayoutNumbersDiffer(st.payouts)
    ensures KeepsNumbers(Conclude(st, actor, id, input))
  {
    hide Post, Text;
  }

  lemma AccountsKeepNumbers(st: State, c: Call)
    requires AccountNumbersDiffer(st.accounts)
    ensures AccountNumbersDiffer(After(st, c).accounts)
  {
    hide Text;
    SameBindings(st, c);
    if c.op.OpCreateAccount? {
      CreateAccountEffect(st, c.actor, c.op.id, c.op.externalId, c.op.name, c.op.kind, c.op.parent);
    }
  }

  lemma StepNumbers(st: State, c: Call)
    requires NumbersDiffer(st)
    ensures NumbersDiffer(After(st, c))
  {
    hide Step, After;
    AccountsKeepNumbers(st, c);
    OrdersKeepNumbers(st, c);
    RefundsKeepNumbers(st, c);
    PayoutsKeepNumbers(st, c);
  }

  lemma {:induction false} RunNumbers(st: State, calls: seq<Call>)
    requires NumbersDiffer(st)
    ensures NumbersDiffer(Run(st, calls))
  {
    hide NumbersDiffer, Step;
    if calls != [] {
      RunNumbers(st, calls[..|calls| - 1]);
      StepNumbers(Run(st, calls[..|calls| - 1]), calls[|calls| - 1]);
    }
  }

  /** In every reachable state no two accounts, no two orders, no two refunds and no two payouts
      have the same number, and no two payouts the same provider reference. */
  lemma NumbersAreUnique(st: State)
    requires Reachable(st)
    ensures forall a, b :: a in st.accounts && b in st.accounts && a != b ==> st.accounts[a].externalId != st.accounts[b].externalId
    ensures forall i, j :: 0 <= i < j < |st.orders| ==> st.orders[i].externalId != st.orders[j].externalId
    ensures forall i, j :: 0 <= i < j < |st.refunds| ==> st.refunds[i].externalId != st.refunds[j].externalId
    ensures forall i, j :: 0 <= i < j < |st.payouts| ==>
              st.payouts[i].externalId != st.payouts[j].externalId
              && (st.payouts[i].providerReference.Some? ==> st.payouts[i].providerReference != st.payouts[j].providerReference)
  {
    hide Step;
    var calls :| Run(INITIAL, calls) == st;
    RunNumbers(INITIAL, calls);
  }

  // ------------------------------------------------- a number once used is used

  lemma {:induction false} FutureIsReachable(st: State, calls: seq<Call>)
    requires Reachable(st)
    ensures Reachable(Run(st, calls))
  {
    hide Step;
    if calls != [] {
      FutureIsReachable(st, calls[..|calls| - 1]);
      StepReachable(Run(st, calls[..|calls| - 1]), calls[|calls| - 1]);
    }
  }

  /** Once an order was captured under a number, none ever is again, whatever comes between. */
  lemma OrderNumbersAreFinal(st: State, actor: Actor, now: int, input: CaptureInput, between: seq<Call>,
                             actor': Actor, now': int, input': CaptureInput)
    requires Reachable(st) && Capture(st, actor, now, input).Ok? && input'.externalId == input.externalId
    ensures !Capture(Run(Capture(st, actor, now, input).value, between), actor', now', input').Ok?
  {
    hide Capture, Run, Posted, Attributed, Reachable;
    CaptureEffect(st, actor, now, input);
    var first := Capture(st, actor, now, input).value;
    assert Reachable(first) by { CallReaches(st, Call(actor, now, OpCapture(input))); }
    FutureIsReachable(first, between);
    RunFollows(first, between);
    CaptureEffect(Run(first, between), actor', now', input');
  }

  lemma CallReaches(st: State, c: Call)
    requires Reachable(st) && Step(st, c).Ok?
    ensures Reachable(Step(st, c).value)
  {
    hide Step;
    StepReachable(st, c);
  }

  /** Once a refund went through under a number, none ever does again: a refund sent a second
      time, even under another idempotency key, is not paid twice. */
  lemma RefundNumbersAreFinal(st: State, actor: Actor, id: nat, input: RefundInput, between: seq<Call>,
                              actor': Actor, id': nat, input': RefundInput)
    requires Reachable(st) && Refund(st, actor, id, input).Ok? && input'.externalId == input.externalId
    ensures !Refund(Run(Refund(st, actor, id, input).value, between), actor', id', input').Ok?
  {
    hide Refund, Run, Posted, Reachable;
    RefundEffect(st, actor, id, input);
    var first := Refund(st, actor, id, input).value;
    assert Reachable(first) by { CallReaches(st, Call(actor, 0, OpRefund(id, input))); }
    FutureIsReachable(first, between);
    RunFollows(first, between);
    assert Run(first, between).refunds[|st.refunds|] == first.refunds[|st.refunds|];
    RefundSucceedsIff(Run(first, between), actor', id', input');
  }

  /** Once a payout was requested under a number, none ever is again, not even after it was
      rejected or failed. */
  lemma PayoutNumbersAreFinal(st: State, actor: Actor, input: PayoutInput, between: seq<Call>, actor': Actor, input': PayoutInput)
    requires Reachable(st) && RequestPayout(st, actor, input).Ok? && input'.externalId == input.externalId
    ensures !RequestPayout(Run(RequestPayout(st, actor, input).value, between), actor', input').Ok?
  {
    hide RequestPayout, Run, Posted, Reachable;
    RequestPayoutEffect(st, actor, input);
    var first := RequestPayout(st, actor, input).value;
    assert Reachable(first) by { CallReaches(st, Call(actor, 0, OpRequestPayout(input))); }
    FutureIsReachable(first, between);
    RunFollows(first, between);
    assert PayoutFollows(first.payouts[|st.payouts|], Run(first, between).payouts[|st.payouts|]);
    RequestPayoutEffect(Run(first, between), actor', input');
  }

  /** Once an account has a number, no other ever gets it. */
  lemma AccountNumbersAreFinal(st: State, a: AccountId, between: seq<Call>, actor: Actor, id: AccountId, name: string,
                               kind: AccountKind, parent: Option<AccountId>)
    requires a in st.accounts
    ensures !CreateAccount(Run(st, between), actor, id, st.accounts[a].externalId, name, kind, parent).Ok?
  {
    hide CreateAccount, Run;
    RunFollows(st, between);
    CreateAccountEffect(Run(st, between), actor, id, st.accounts[a].externalId, name, kind, parent);
  }

  /** Once a payout succeeded or failed with a provider reference, no outcome of another payout
      is ever taken with it. */
  lemma ClosedReferencesAreFinal(st: State, actor: Actor, id: nat, input: OutcomeInput, between: seq<Call>,
                                 actor': Actor, id': nat, input': OutcomeInput)
    requires Reachable(st) && Conclude(st, actor, id, input).Ok? && input.status in {Succeeded, Failed}
    requires input.providerReference.Some? && input'.providerReference == input.providerReference && id' != id
    ensures !Conclude(Run(Conclude(st, actor, id, input).value, between), actor', id', input').Ok?
  {
    hide Conclude, Run, Posted, Reachable;
    ConcludeEffect(st, actor, id, input);
    var first := Conclude(st, actor, id, input).value;
    assert Reachable(first) by { CallReaches(st, Call(actor, 0, OpConclude(id, input))); }
    FutureIsReachable(first, between);
    RunFollows(first, between);
    assert PayoutFollows(first.payouts[id], Run(first, between).payouts[id]);
    ConcludeEffect(Run(first, between), actor', id', input');
  }
}

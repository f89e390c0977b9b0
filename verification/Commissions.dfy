/** Who earns what: the catalog calls, what a captured order is, and that every order ever
    captured stays attributed as the catalog says, whatever is called later
    (src/service/catalog.rs, src/service/orders.rs). */
module Commissions {
  import opened Wrappers
  import opened Errors
  import opened Sums
  import opened Domain
  import opened Ledger
  import opened Model
  import opened Invariants
  import opened Postings
  import opened StepProofs
  import opened Runs
  import opened Overflow
  import opened History
  import opened Effects
  import opened Footprints

  // ------------------------------------------------------------ catalog calls

  /** An account is created exactly by an operator, with texts in order, as a merchant or a
      promoter, under an existing active promoter or nobody, and under a new number; it is
      active and its wallet empty. */
  lemma CreateAccountEffect(st: State, actor: Actor, id: AccountId, externalId: string, name: string,
                            kind: AccountKind, parent: Option<AccountId>)
    ensures var r := CreateAccount(st, actor, id, externalId, name, kind, parent);
            && (r.Ok? <==>
                  && actor.role in {Admin, Operator} && Text(externalId, 96) && Text(name, 120) && !("__" <= externalId)
                  && (kind == Promoter || (kind == Merchant && parent == None))
                  && (parent.Some? ==> parent.value in st.accounts && st.accounts[parent.value].active && st.accounts[parent.value].kind == Promoter)
                  && id !in st.accounts && forall a :: a in st.accounts ==> st.accounts[a].externalId != externalId)
            && (r.Ok? ==>
                  && r.value == st.(accounts := r.value.accounts, books := st.books.(wallets := r.value.books.wallets))
                  && r.value.accounts == st.accounts[id := Account(externalId, name, kind, parent, true)]
                  && r.value.books.wallets == st.books.wallets[id := Wallet(0, 0, 0)])
  {
    hide Text;
  }

  /** A customer is bound exactly once, before the first order, to an active promoter. */
  lemma BindReferralEffect(st: State, actor: Actor, customer: string, promoter: AccountId)
    ensures var r := BindReferral(st, actor, customer, promoter);
            && (r.Ok? <==>
                  && actor.role in {Admin, Operator, Integrator} && Text(customer, 96)
                  && promoter in st.accounts && st.accounts[promoter].active && st.accounts[promoter].kind == Promoter
                  && customer !in st.bindings && forall i :: 0 <= i < |st.orders| ==> st.orders[i].customer != Some(customer))
            && (r.Ok? ==> r.value == st.(bindings := st.bindings[customer := promoter]))
  {
    hide Text;
  }

  /** A rule is published exactly with valid terms, a sensible range and period, and for an
      active merchant or for all; it comes last, so it is the newest version. */
  lemma CreateRuleEffect(st: State, actor: Actor, rule: Rule)
    ensures var r := CreateRule(st, actor, rule);
            && (r.Ok? <==>
                  && actor.role in {Admin, Operator} && Text(rule.name, 120) && rule.terms.Valid()
                  && 0 <= rule.minBase <= MAX_OPERATION_MINOR && -10_000 <= rule.priority <= 10_000
                  && (rule.maxBase.Some? ==> rule.minBase < rule.maxBase.value <= MAX_OPERATION_MINOR)
                  && (rule.merchant.Some? ==>
                        rule.merchant.value in st.accounts && st.accounts[rule.merchant.value].active
                        && st.accounts[rule.merchant.value].kind == Merchant)
                  && (rule.effectiveUntil.Some? ==> rule.effectiveFrom < rule.effectiveUntil.value))
            && (r.Ok? ==> r.value == st.(rules := st.rules + [rule.(active := true)]))
  {
    hide Text;
  }

  /** Disabling takes a rule out of use and changes nothing else. */
  lemma DisableRuleEffect(st: State, actor: Actor, id: nat)
    ensures var r := DisableRule(st, actor, id);
            && (r.Ok? <==> actor.role in {Admin, Operator} && id < |st.rules|)
            && (r.Ok? ==>
                  && r.value == st.(rules := r.value.rules) && |r.value.rules| == |st.rules|
                  && forall i :: 0 <= i < |st.rules| ==>
                       r.value.rules[i] == if i == id then st.rules[i].(active := false) else st.rules[i])
  {
  }

  // --------------------------------------------------------------- attribution

  ghost predicate Promotes(st: State, a: AccountId) {
    a in st.accounts && st.accounts[a].active && st.accounts[a].kind == Promoter
  }

  /** The customer is bound to this promoter. */
  ghost predicate Refers(st: State, customer: Option<string>, a: AccountId) {
    customer.Some? && customer.value in st.bindings && st.bindings[customer.value] == a && Promotes(st, a)
  }

  /** This promoter is the parent of the one the customer is bound to. */
  ghost predicate RefersAbove(st: State, customer: Option<string>, a: AccountId) {
    exists d :: Refers(st, customer, d) && d in st.accounts && st.accounts[d].parent == Some(a) && Promotes(st, a)
  }

  /** A share goes to whom its slot says, with the amount its slot says. */
  ghost predicate ShareIsRight(st: State, o: Order, p: Allocation, terms: Terms) {
    match p.slot
    case Direct => Refers(st, o.customer, p.account) && IsFloorOfBps(p.original, o.feePool, terms.directBps)
    case Indirect => RefersAbove(st, o.customer, p.account) && IsFloorOfBps(p.original, o.feePool, terms.indirectBps)
    case PlatformSlot => p.account == PLATFORM
    case MerchantSlot => p.account == o.merchant && p.original == o.paid - o.feePool
  }

  function SlotsOf(allocations: seq<Allocation>): seq<Slot> {
    seq(|allocations|, i requires 0 <= i < |allocations| => allocations[i].slot)
  }

  /** The order is priced by its rule and shared out among the platform, its merchant, the
      promoter its customer is bound to, if any, and that promoter's parent, if any. */
  ghost predicate Attributed(st: State, o: Order) {
    && o.rule < |st.rules|
    && o.merchant in st.accounts && st.accounts[o.merchant].active && st.accounts[o.merchant].kind == Merchant
    && FeeIsRight(o.feePool, o.base, st.rules[o.rule].terms)
    && SlotsOf(o.allocations)
       == (if exists a :: Refers(st, o.customer, a) then [Direct] else [])
          + (if exists a :: RefersAbove(st, o.customer, a) then [Indirect] else []) + [PlatformSlot, MerchantSlot]
    && Total(Originals(o.allocations)) == o.paid
    && forall i :: 0 <= i < |o.allocations| ==> ShareIsRight(st, o, o.allocations[i], st.rules[o.rule].terms)
  }

  /** What the catalog's foreign keys and CHECKs ask. */
  ghost predicate CatalogOk(st: State) {
    && (forall a :: a in st.accounts ==> AccountOk(st, a))
    && (forall c :: c in st.bindings ==> Promotes(st, st.bindings[c]))
    && (forall i :: 0 <= i < |st.rules| ==> RuleOk(st, st.rules[i]))
  }

  ghost predicate AccountOk(st: State, a: AccountId)
    requires a in st.accounts
  {
    && st.accounts[a].active
    && (st.accounts[a].parent.Some? ==>
          st.accounts[a].kind == Promoter && Promotes(st, st.accounts[a].parent.value) && st.accounts[a].parent.value != a)
  }

  ghost predicate RuleOk(st: State, r: Rule) {
    && r.terms.Valid() && 0 <= r.minBase && (r.maxBase.Some? ==> r.minBase < r.maxBase.value)
    && (r.merchant.Some? ==> r.merchant.value in st.accounts && st.accounts[r.merchant.value].kind == Merchant)
    && (r.effectiveUntil.Some? ==> r.effectiveFrom < r.effectiveUntil.value)
  }

  ghost predicate Settled(st: State) {
    CatalogOk(st) && forall i :: 0 <= i < |st.orders| ==> Attributed(st, st.orders[i])
  }

  // ------------------------------------------------------- capturing an order

  /** The parties of a quote are those of the catalog. */
  lemma QuotedReferrers(st: State, now: int, input: CaptureInput, q: Quoted)
    requires Quote(st, input.merchant, input.customer, input.paid, input.base, now) == Ok(q)
    ensures input.merchant in st.accounts && st.accounts[input.merchant].active && st.accounts[input.merchant].kind == Merchant
    ensures ChooseRule(st.rules, input.merchant, input.base, now) == Some(q.rule)
    ensures forall a: AccountId :: Refers(st, input.customer, a) <==> q.direct == Some(a)
    ensures forall a: AccountId :: RefersAbove(st, input.customer, a) <==> q.indirect == Some(a)
  {
    hide SplitPaid, ChooseRule, Text;
    var direct := DirectOf(st, input.customer);
    assert q.direct == direct && q.indirect == IndirectOf(st, direct);
  }

  lemma QuotedIsAttributed(st: State, now: int, input: CaptureInput, q: Quoted, o: Order)
    requires Quote(st, input.merchant, input.customer, input.paid, input.base, now) == Ok(q) && q.rule < |st.rules|
    requires o == Order(input.externalId, input.merchant, input.customer, input.paid, input.base, q.split.feePool, 0, q.rule,
                        now + st.rules[q.rule].terms.freezeSeconds, None, AllocationsFor(q, input.merchant))
    ensures Attributed(st, o)
  {
    hide Quote, SplitPaid, IsFloorOfBps, Refers, RefersAbove;
    QuotedReferrers(st, now, input, q);
    QuotedParties(st, now, input, q);
    SplitSound(input.paid, input.base, st.rules[q.rule].terms, q.direct.Some?, q.indirect.Some?);
    QuotedTotal(q, input.merchant);
    QuotedSlots(q, input.merchant);
    assert q.direct.Some? <==> exists a :: Refers(st, input.customer, a);
    assert q.indirect.Some? <==> exists a :: RefersAbove(st, input.customer, a);
  }

  lemma QuotedSlots(q: Quoted, merchant: AccountId)
    ensures SlotsOf(AllocationsFor(q, merchant))
            == (if q.direct.Some? then [Direct] else []) + (if q.indirect.Some? then [Indirect] else []) + [PlatformSlot, MerchantSlot]
  {
  }

  /** A capture goes through, but for an overflow, exactly if the actor may make it, its fields
      are in order, the merchant is active, a rule covers it, and the number is new. It leaves
      one more order with the request's data, priced by the best rule and locked for its
      period, shared out as the catalog says, with the shares frozen. */
  lemma CaptureEffect(st: State, actor: Actor, now: int, input: CaptureInput)
    requires Reachable(st)
    ensures var r := Capture(st, actor, now, input);
            && (r.Ok? || r == Err(OutOfRange) <==>
                  && actor.role in {Admin, Operator, Integrator} && Text(input.externalId, 96) && input.cny
                  && (input.customer.Some? ==> Text(input.customer.value, 96))
                  && 0 < input.paid <= MAX_OPERATION_MINOR && 0 <= input.base <= input.paid
                  && input.merchant in st.accounts && st.accounts[input.merchant].active && st.accounts[input.merchant].kind == Merchant
                  && ChooseRule(st.rules, input.merchant, input.base, now).Some?
                  && forall i :: 0 <= i < |st.orders| ==> st.orders[i].externalId != input.externalId)
            && (r.Ok? ==>
                  && |r.value.orders| == |st.orders| + 1
                  && var o := r.value.orders[|st.orders|];
                     && r.value == st.(orders := st.orders + [o], books := r.value.books)
                     && o.externalId == input.externalId && o.merchant == input.merchant && o.customer == input.customer
                     && o.paid == input.paid && o.base == input.base && o.refunded == 0 && o.releasedAt == None
                     && Some(o.rule) == ChooseRule(st.rules, input.merchant, input.base, now)
                     && Attributed(st, o) && o.unlockAt == now + st.rules[o.rule].terms.freezeSeconds
                     && (forall i :: 0 <= i < |o.allocations| ==> o.allocations[i].refunded == 0)
                     && Posted(st.books, r.value.books, OrderCaptured(|st.orders|), CaptureJournal, Some(actor.id), Freezing(o)))
  {
    hide Post, Posted, Quote, Attributed, Overflows, Text, Reachable, Inv;
    ReachableSound(st);
    OrdersAreAttributed(st);
    QuoteGoesThrough(st, now, input);
    CaptureOverflow(st, actor, now, input);
    var quote := Quote(st, input.merchant, input.customer, input.paid, input.base, now);
    if quote.Ok? {
      QuotedReferrers(st, now, input, quote.value);
      QuoteAnswers(st, input, now);
      QuoteInOrder(st, now, input);
      if Capture(st, actor, now, input).Ok? {
        QuotedIsAttributed(st, now, input, quote.value, Capture(st, actor, now, input).value.orders[|st.orders|]);
        CaptureMoney(st, actor, now, input);
      }
    }
  }

  lemma QuoteInOrder(st: State, now: int, input: CaptureInput)
    requires Quote(st, input.merchant, input.customer, input.paid, input.base, now).Ok?
    ensures 0 < input.paid <= MAX_OPERATION_MINOR && 0 <= input.base <= input.paid
  {
    hide SplitPaid, ChooseRule, Text;
  }

  lemma QuoteGoesThrough(st: State, now: int, input: CaptureInput)
    requires CatalogOk(st)
    ensures && (input.customer.Some? ==> Text(input.customer.value, 96))
            && 0 < input.paid <= MAX_OPERATION_MINOR && 0 <= input.base <= input.paid
            && input.merchant in st.accounts && st.accounts[input.merchant].active && st.accounts[input.merchant].kind == Merchant
            && ChooseRule(st.rules, input.merchant, input.base, now).Some? ==>
              Quote(st, input.merchant, input.customer, input.paid, input.base, now).Ok?
  {
    hide SplitPaid, ChooseRule, Text;
    var rule := ChooseRule(st.rules, input.merchant, input.base, now);
    if rule.Some? {
      ChooseRuleIsBest(st.rules, input.merchant, input.base, now);
      var direct := DirectOf(st, input.customer);
      SplitSound(input.paid, input.base, st.rules[rule.value].terms, direct.Some?, IndirectOf(st, direct).Some?);
      assert RuleOk(st, st.rules[rule.value]);
    }
  }

  // ------------------------------------------------------------ over every run

  /** Accounts stay, and nothing is bound for this customer that was not before. */
  ghost predicate SameReferrals(st: State, st': State, customer: Option<string>) {
    && (forall a :: a in st.accounts ==> a in st'.accounts && st'.accounts[a] == st.accounts[a])
    && (forall c :: c in st.bindings ==> c in st'.bindings && st'.bindings[c] == st.bindings[c])
    && (customer.Some? && customer.value in st'.bindings ==> customer.value in st.bindings)
  }

  lemma ReferrersStay(st: State, st': State, customer: Option<string>)
    requires CatalogOk(st) && SameReferrals(st, st', customer)
    ensures forall a: AccountId :: Refers(st, customer, a) <==> Refers(st', customer, a)
    ensures forall a: AccountId :: RefersAbove(st, customer, a) <==> RefersAbove(st', customer, a)
  {
    forall a: AccountId ensures Refers(st, customer, a) <==> Refers(st', customer, a) {
      if customer.Some? && customer.value in st.bindings {
        assert Promotes(st, st.bindings[customer.value]);
      }
    }
    forall a: AccountId ensures RefersAbove(st, customer, a) <==> RefersAbove(st', customer, a) {
      if d :| Refers(st', customer, d) && d in st'.accounts && st'.accounts[d].parent == Some(a) {
        assert Refers(st, customer, d) && AccountOk(st, d) && st.accounts[d] == st'.accounts[d];
      }
      if RefersAbove(st, customer, a) {
        var d :| Refers(st, customer, d) && d in st.accounts && st.accounts[d].parent == Some(a) && Promotes(st, a);
        assert Refers(st', customer, d);
      }
    }
  }

  lemma AttributionStays(st: State, st': State, o: Order, o': Order)
    requires CatalogOk(st) && Attributed(st, o) && SameOrigin(o, o') && SameReferrals(st, st', o.customer)
    requires RulesFollow(st.rules, st'.rules)
    ensures Attributed(st', o')
  {
    hide Refers, RefersAbove, FeeIsRight, IsFloorOfBps;
    ReferrersStay(st, st', o.customer);
    assert RuleFollows(st.rules[o.rule], st'.rules[o.rule]);
    assert SlotsOf(o'.allocations) == SlotsOf(o.allocations);
    assert Originals(o'.allocations) == Originals(o.allocations);
    forall i | 0 <= i < |o'.allocations|
      ensures ShareIsRight(st', o', o'.allocations[i], st'.rules[o.rule].terms)
    {
      assert ShareIsRight(st, o, o.allocations[i], st.rules[o.rule].terms);
    }
  }

  /** A call binds no customer who has an order. */
  lemma BuyersStayBound(st: State, c: Call, i: nat)
    requires i < |st.orders|
    ensures SameReferrals(st, After(st, c), st.orders[i].customer)
  {
    hide Capture, Refund, ReleaseLocked, RequestPayout, Reject, Conclude, Text;
    StepFollows(st, c);
    if c.op.OpBindReferral? {
      BindReferralEffect(st, c.actor, c.op.customer, c.op.promoter);
    } else {
      SameBindings(st, c);
    }
  }

  lemma SameBindings(st: State, c: Call)
    ensures !c.op.OpBindReferral? ==> After(st, c).bindings == st.bindings
    ensures !c.op.OpCreateAccount? ==> After(st, c).accounts == st.accounts
    ensures !c.op.OpCreateRule? && !c.op.OpDisableRule? ==> After(st, c).rules == st.rules
    ensures !c.op.OpCapture? ==> |After(st, c).orders| == |st.orders|
  {
    hide Step;
    if c.op.OpCreateAccount? || c.op.OpBindReferral? || c.op.OpCreateRule? || c.op.OpDisableRule? {
      CatalogTouches(st, c);
    } else {
      StepTouches(st, c);
    }
  }

  lemma StepCatalog(st: State, c: Call)
    requires CatalogOk(st)
    ensures CatalogOk(After(st, c))
  {
    hide Text, Capture, Refund, Release, ReleaseOneDue, RequestPayout, Approve, Process, Reject, Conclude;
    SameBindings(st, c);
    StepFollows(st, c);
    match c.op
    case OpCreateAccount(id, externalId, name, kind, parent) =>
      CreateAccountEffect(st, c.actor, id, externalId, name, kind, parent);
      if Step(st, c).Ok? {
        NewAccountOk(st, After(st, c), id);
      }
    case OpBindReferral(customer, promoter) => BindReferralEffect(st, c.actor, customer, promoter);
    case OpCreateRule(rule) => CreateRuleEffect(st, c.actor, rule);
    case OpDisableRule(id) => DisableRuleEffect(st, c.actor, id);
    case _ => SameCatalog(st, After(st, c));
  }

  lemma SameCatalog(st: State, st': State)
    requires CatalogOk(st) && st'.accounts == st.accounts && st'.bindings == st.bindings && st'.rules == st.rules
    ensures CatalogOk(st')
  {
    assert forall a :: a in st.accounts ==> AccountOk(st, a);
    forall i | 0 <= i < |st.rules| ensures RuleOk(st', st'.rules[i]) {
      assert RuleOk(st, st.rules[i]);
    }
  }

  lemma NewAccountOk(st: State, st': State, id: AccountId)
    requires CatalogOk(st) && id !in st.accounts && id in st'.accounts && st'.accounts == st.accounts[id := st'.accounts[id]]
    requires st'.bindings == st.bindings && st'.rules == st.rules
    requires var a := st'.accounts[id];
             a.active && (a.parent.Some? ==> a.kind == Promoter && Promotes(st, a.parent.value))
    ensures CatalogOk(st')
  {
    forall a | a in st'.accounts ensures AccountOk(st', a) {
      assert a != id ==> AccountOk(st, a);
    }
    forall i | 0 <= i < |st.rules| ensures RuleOk(st', st'.rules[i]) {
      assert RuleOk(st, st.rules[i]);
    }
  }

  lemma StepSettles(st: State, c: Call)
    requires Settled(st)
    ensures Settled(After(st, c))
  {
    hide Step, Attributed, CatalogOk;
    StepCatalog(st, c);
    StepFollows(st, c);
    var st' := After(st, c);
    forall i | 0 <= i < |st.orders| ensures Attributed(st', st'.orders[i]) {
      BuyersStayBound(st, c, i);
      AttributionStays(st, st', st.orders[i], st'.orders[i]);
    }
    if c.op.OpCapture? {
      NewOrderIsAttributed(st, c);
    } else {
      SameBindings(st, c);
    }
  }

  lemma NewOrderIsAttributed(st: State, c: Call)
    requires c.op.OpCapture?
    ensures |After(st, c).orders| <= |st.orders| + 1
    ensures |After(st, c).orders| > |st.orders| ==> Attributed(After(st, c), After(st, c).orders[|st.orders|])
  {
    hide Post, Quote, Text, Attributed;
    var input, st' := c.op.capture, After(st, c);
    if |st'.orders| > |st.orders| {
      var q := Quote(st, input.merchant, input.customer, input.paid, input.base, c.now).value;
      QuoteAnswers(st, input, c.now);
      QuotedIsAttributed(st, c.now, input, q, st'.orders[|st.orders|]);
      OnlyCatalogCounts(st, st', st'.orders[|st.orders|]);
    }
  }

  lemma OnlyCatalogCounts(st: State, st': State, o: Order)
    requires Attributed(st, o) && st'.accounts == st.accounts && st'.bindings == st.bindings && st'.rules == st.rules
    ensures Attributed(st', o)
  {
    hide FeeIsRight, IsFloorOfBps;
    assert forall a :: Refers(st, o.customer, a) <==> Refers(st', o.customer, a);
    assert forall a: AccountId :: RefersAbove(st, o.customer, a) <==> RefersAbove(st', o.customer, a);
    forall i | 0 <= i < |o.allocations| ensures ShareIsRight(st', o, o.allocations[i], st'.rules[o.rule].terms) {
      assert ShareIsRight(st, o, o.allocations[i], st.rules[o.rule].terms);
    }
  }

  lemma {:induction false} RunSettles(st: State, calls: seq<Call>)
    requires Settled(st)
    ensures Settled(Run(st, calls))
  {
    hide Settled, Step;
    if calls != [] {
      RunSettles(st, calls[..|calls| - 1]);
      StepSettles(Run(st, calls[..|calls| - 1]), calls[|calls| - 1]);
    }
  }

  /** In every reachable state the catalog is in order, and every order ever captured is
      attributed by it as it stands now: its customer's promoter cannot have changed, nor been
      added, nor the terms of its rule. */
  lemma OrdersAreAttributed(st: State)
    requires Reachable(st)
    ensures CatalogOk(st)
    ensures forall i :: 0 <= i < |st.orders| ==> Attributed(st, st.orders[i])
  {
    hide Step;
    var calls :| Run(INITIAL, calls) == st;
    RunSettles(INITIAL, calls);
  }
}

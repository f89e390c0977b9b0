/** A refused call has the fault its error names (src/error.rs, src/service): with Effects,
    which says when a call goes through, this decides the answer to every call with a single
    fault. */
module Refusals {
  import opened Wrappers
  import opened Errors
  import opened Domain
  import opened Ledger
  import opened Model
  import opened Invariants
  import opened StepProofs
  import opened Runs
  import opened Overflow
  import opened Effects
  import opened Commissions

  lemma AccountRefusals(st: State, actor: Actor, id: AccountId, externalId: string, name: string, kind: AccountKind,
                        parent: Option<AccountId>)
    requires Reachable(st)
    ensures var r := CreateAccount(st, actor, id, externalId, name, kind, parent);
            && (r == Err(Forbidden) <==> actor.role !in {Admin, Operator})
            && (r == Err(NotFound) ==> parent.Some? && parent.value !in st.accounts)
            && (r == Err(Duplicate) ==> id in st.accounts || exists a :: a in st.accounts && st.accounts[a].externalId == externalId)
            && (r == Err(Invalid) ==>
                  || !Text(externalId, 96) || !Text(name, 120) || "__" <= externalId || kind !in {Merchant, Promoter}
                  || (parent.Some? && (kind == Merchant || (parent.value in st.accounts && st.accounts[parent.value].kind != Promoter))))
            && (r.Err? ==> r.error in {Forbidden, NotFound, Duplicate, Invalid})
  {
    hide Text, Reachable;
    OrdersAreAttributed(st);
    assert forall a :: a in st.accounts ==> AccountOk(st, a);
  }

  lemma ReferralRefusals(st: State, actor: Actor, customer: string, promoter: AccountId)
    requires Reachable(st)
    ensures var r := BindReferral(st, actor, customer, promoter);
            && (r == Err(Forbidden) <==> actor.role !in {Admin, Operator, Integrator})
            && (r == Err(NotFound) ==> promoter !in st.accounts)
            && (r == Err(Conflict) ==> exists i :: 0 <= i < |st.orders| && st.orders[i].customer == Some(customer))
            && (r == Err(Duplicate) ==> customer in st.bindings)
            && (r == Err(Invalid) ==> !Text(customer, 96) || (promoter in st.accounts && st.accounts[promoter].kind != Promoter))
            && (r.Err? ==> r.error in {Forbidden, NotFound, Conflict, Duplicate, Invalid})
  {
    hide Text, Reachable;
    OrdersAreAttributed(st);
    assert forall a :: a in st.accounts ==> AccountOk(st, a);
  }

  lemma RuleRefusals(st: State, actor: Actor, rule: Rule, id: nat)
    ensures var r := CreateRule(st, actor, rule);
            && (r == Err(Forbidden) <==> actor.role !in {Admin, Operator})
            && (r == Err(NotFound) ==> rule.merchant.Some? && rule.merchant.value !in st.accounts)
            && (r.Err? ==> r.error in {Forbidden, NotFound, Invalid})
    ensures var r := DisableRule(st, actor, id);
            r.Err? ==> r.error == if actor.role in {Admin, Operator} then NotFound else Forbidden
  {
    hide Text;
  }

  lemma CaptureRefusals(st: State, actor: Actor, now: int, input: CaptureInput)
    requires Reachable(st)
    ensures var r := Capture(st, actor, now, input);
            && (r == Err(Forbidden) <==> actor.role !in {Admin, Operator, Integrator})
            && (r == Err(NotFound) ==> input.merchant !in st.accounts)
            && (r == Err(Conflict) ==> ChooseRule(st.rules, input.merchant, input.base, now).None?)
            && (r == Err(Duplicate) ==> exists i :: 0 <= i < |st.orders| && st.orders[i].externalId == input.externalId)
            && (r == Err(Invalid) ==>
                  || !Text(input.externalId, 96) || !input.cny || (input.customer.Some? && !Text(input.customer.value, 96))
                  || !(0 < input.paid <= MAX_OPERATION_MINOR) || !(0 <= input.base <= input.paid)
                  || (input.merchant in st.accounts && st.accounts[input.merchant].kind != Merchant))
            && (r.Err? ==> r.error in {Forbidden, NotFound, Conflict, Duplicate, Invalid, OutOfRange})
  {
    hide Text, Reachable, Post, Quote, Inv, Attributed, Overflows;
    ReachableSound(st);
    OrdersAreAttributed(st);
    QuoteRefusals(st, now, input);
    CaptureOverflow(st, actor, now, input);
  }

  lemma QuoteRefusals(st: State, now: int, input: CaptureInput)
    requires CatalogOk(st)
    ensures var r := Quote(st, input.merchant, input.customer, input.paid, input.base, now);
            && (r == Err(NotFound) ==> input.merchant !in st.accounts)
            && (r == Err(Conflict) ==> ChooseRule(st.rules, input.merchant, input.base, now).None?)
            && (r == Err(Invalid) ==>
                  || (input.customer.Some? && !Text(input.customer.value, 96))
                  || !(0 < input.paid <= MAX_OPERATION_MINOR) || !(0 <= input.base <= input.paid)
                  || (input.merchant in st.accounts && st.accounts[input.merchant].kind != Merchant))
            && (r.Err? ==> r.error in {NotFound, Conflict, Invalid})
  {
    hide Text, SplitPaid, ChooseRule;
    QuoteGoesThrough(st, now, input);
    ChooseRuleIsBest(st.rules, input.merchant, input.base, now);
    assert input.merchant in st.accounts ==> AccountOk(st, input.merchant);
    var rule := ChooseRule(st.rules, input.merchant, input.base, now);
    if rule.Some? {
      var direct := DirectOf(st, input.customer);
      SplitSound(input.paid, input.base, st.rules[rule.value].terms, direct.Some?, IndirectOf(st, direct).Some?);
      assert RuleOk(st, st.rules[rule.value]);
    }
  }

  lemma RefundRefusals(st: State, actor: Actor, id: nat, input: RefundInput)
    requires Reachable(st)
    ensures var r := Refund(st, actor, id, input);
            && (r == Err(Forbidden) <==> actor.role !in {Admin, Operator, Integrator})
            && (r == Err(NotFound) ==> id >= |st.orders|)
            && (r == Err(Conflict) ==> id < |st.orders| && st.orders[id].refunded + input.amount > st.orders[id].paid)
            && (r == Err(Duplicate) ==> exists i :: 0 <= i < |st.refunds| && st.refunds[i].externalId == input.externalId)
            && (r == Err(Invalid) ==>
                  !Text(input.externalId, 96) || !Text(input.reason, 400) || !(0 < input.amount <= MAX_OPERATION_MINOR))
            && (r.Err? ==> r.error in {Forbidden, NotFound, Conflict, Duplicate, Invalid, OutOfRange})
  {
    hide Text, Reachable, Post, MoneyOk, RowsOk, KeysOk, RefundsOk, Overflows;
    ReachableSound(st);
    RefundOverflow(st, actor, id, input);
    RefundTotalFits(st, id, input.amount);
    if id < |st.orders| && Positive(input.amount) && st.orders[id].refunded + input.amount <= st.orders[id].paid {
      var targets := RefundTargets(st, id, input.amount);
    }
  }

  lemma ReleaseRefusals(st: State, actor: Actor, now: int, id: nat)
    requires Reachable(st)
    ensures var r := Release(st, actor, now, id);
            && (r == Err(Forbidden) <==> actor.role !in {Admin, Operator, Finance})
            && (r == Err(NotFound) ==> id >= |st.orders|)
            && (r == Err(Conflict) ==> id < |st.orders| && st.orders[id].releasedAt.None? && now < st.orders[id].unlockAt)
            && (r.Err? ==> r.error in {Forbidden, NotFound, Conflict, OutOfRange})
  {
    hide Reachable, Post, Inv, Overflows;
    ReachableSound(st);
    if id < |st.orders| {
      ReleaseOverflow(st, Some(actor.id), now, id);
    }
  }

  lemma RefundTotalFits(st: State, id: nat, amount: int)
    requires Inv(st)
    ensures id < |st.orders| && Positive(amount) ==> InI64(st.orders[id].refunded + amount)
  {
    hide MoneyOk, KeysOk, RefundsOk, Apportion;
    if id < |st.orders| {
      assert OrderOk(st.orders[id]);
    }
  }

  lemma RequestRefusals(st: State, actor: Actor, input: PayoutInput)
    requires Reachable(st)
    ensures var r := RequestPayout(st, actor, input);
            && (r == Err(Forbidden) <==> actor.role !in {Admin, Operator, Member})
            && (r == Err(NotFound) ==> input.account !in st.accounts || (actor.role == Member && actor.account != Some(input.account)))
            && (r == Err(Conflict) ==>
                  input.account == CLEARING || (input.account in st.books.wallets && st.books.wallets[input.account].available < input.amount))
            && (r == Err(Duplicate) ==> exists i :: 0 <= i < |st.payouts| && st.payouts[i].externalId == input.externalId)
            && (r == Err(Invalid) ==>
                  !Text(input.externalId, 96) || !Text(input.destination, 160) || !(0 < input.amount <= MAX_OPERATION_MINOR))
            && (r.Err? ==> r.error in {Forbidden, NotFound, Conflict, Duplicate, Invalid, OutOfRange})
  {
    hide Text, Reachable, Post, MoneyOk, KeysOk, RefundsOk, Overflows, OrderOk;
    ReachableSound(st);
    OrdersAreAttributed(st);
    assert input.account in st.accounts ==> AccountOk(st, input.account);
    RequestOverflow(st, actor, input);
  }

  lemma ReviewRefusals(st: State, actor: Actor, id: nat, reason: string)
    requires Reachable(st)
    ensures var r := Approve(st, actor, id);
            && (r == Err(Forbidden) <==> actor.role !in {Admin, Finance})
            && (r == Err(NotFound) ==> id >= |st.payouts|)
            && (r.Err? ==> r.error in {Forbidden, NotFound, Conflict})
    ensures var r := Process(st, actor, id, reason);
            && (r == Err(Forbidden) <==> actor.role !in {Admin, Finance})
            && (r == Err(NotFound) ==> id >= |st.payouts|) && (r == Err(Invalid) ==> !Text(reason, 400))
            && (r.Err? ==> r.error in {Forbidden, NotFound, Conflict, Invalid})
    ensures var r := Reject(st, actor, id, reason);
            && (r == Err(Forbidden) <==> actor.role !in {Admin, Finance})
            && (r == Err(NotFound) ==> id >= |st.payouts|) && (r == Err(Invalid) ==> !Text(reason, 400))
            && (r == Err(Conflict) ==> id < |st.payouts| && st.payouts[id].status !in {Requested, Approved})
            && (r.Err? ==> r.error in {Forbidden, NotFound, Conflict, Invalid, OutOfRange})
  {
    hide Text, Reachable, Post, MoneyOk, KeysOk, RefundsOk, Overflows, OrderOk;
    ReachableSound(st);
    RejectOverflow(st, actor, id, reason);
  }

  lemma OutcomeRefusals(st: State, actor: Actor, id: nat, input: OutcomeInput)
    requires Reachable(st)
    ensures var r := Conclude(st, actor, id, input);
            && (r == Err(Forbidden) <==> actor.role !in {Admin, Finance})
            && (r == Err(NotFound) ==> id >= |st.payouts|)
            && (r == Err(Conflict) ==>
                  id < |st.payouts| && (st.payouts[id].status !in {Processing, Unknown} || st.payouts[id].requestedBy == actor.id))
            && (r == Err(Duplicate) ==>
                  input.providerReference.Some?
                  && exists i :: 0 <= i < |st.payouts| && i != id && st.payouts[i].providerReference == input.providerReference)
            && (r == Err(Invalid) ==>
                  || !Text(input.evidence, 1000) || input.status !in {Succeeded, Failed, Unknown}
                  || (input.providerReference.Some? && !Text(input.providerReference.value, 160))
                  || (input.status == Succeeded && input.providerReference.None?))
            && (r.Err? ==> r.error in {Forbidden, NotFound, Conflict, Duplicate, Invalid, OutOfRange})
  {
    hide Text, Reachable, Post, Inv, Overflows;
    ReachableSound(st);
    ConcludeOverflow(st, actor, id, input);
    forall p: Posting ensures Post(st.books, p) != Err(Duplicate) {
      PostErrors(st.books, p);
    }
  }
}

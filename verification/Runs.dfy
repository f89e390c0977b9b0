/** What holds after every run of service calls from the migrated database. */
module Runs {
  import opened Wrappers
  import opened Errors
  import opened Sums
  import opened Domain
  import opened Ledger
  import opened Model
  import opened Invariants
  import opened Postings
  import opened StepProofs

  lemma {:induction false} RunKeeps(st: State, calls: seq<Call>)
    requires Inv(st)
    ensures Inv(Run(st, calls))
  {
    hide Inv, Step;
    if calls != [] {
      RunKeeps(st, calls[..|calls| - 1]);
      StepKeeps(Run(st, calls[..|calls| - 1]), calls[|calls| - 1]);
    }
  }

  lemma ReachableSound(st: State)
    requires Reachable(st)
    ensures Inv(st)
  {
    hide Inv, Step;
    assert Inv(INITIAL) by { InitialSound(); }
    var calls :| Run(INITIAL, calls) == st;
    RunKeeps(INITIAL, calls);
  }

  lemma InitialSound()
    ensures Inv(INITIAL)
  {
  }

  /** In a reachable state no call, whatever its actor, time and arguments, ends in an
      internal error, a repeated event key or a violated CHECK. */
  lemma CallsNeverBreak(st: State, c: Call)
    requires Reachable(st)
    ensures Step(st, c).Err? ==> Step(st, c).error in {Invalid, Forbidden, NotFound, Conflict, Duplicate, OutOfRange}
  {
    hide Inv, Step;
    ReachableSound(st);
    StepKeeps(st, c);
  }

  /** Exactly when a refund goes through: the request is well formed, stays within what was
      paid, its number is new, and no wallet column would overflow. The apportionment itself
      never refuses. */
  lemma RefundSucceedsIff(st: State, actor: Actor, id: nat, input: RefundInput)
    requires Reachable(st)
    ensures id < |st.orders| && Positive(input.amount) && st.orders[id].refunded + input.amount <= st.orders[id].paid ==>
              Refundable(Originals(st.orders[id].allocations), st.orders[id].refunded + input.amount)
    ensures Refund(st, actor, id, input).Ok?
            <==> && actor.Has({Operator, Integrator})
                 && Text(input.externalId, 96) && Text(input.reason, 400) && Positive(input.amount)
                 && id < |st.orders| && st.orders[id].refunded + input.amount <= st.orders[id].paid
                 && (forall i :: 0 <= i < |st.refunds| ==> st.refunds[i].externalId != input.externalId)
                 && var targets := Apportion(Originals(st.orders[id].allocations), st.orders[id].refunded + input.amount);
                    !Overflows(st.books, Posting(OrderRefunded(|st.refunds|), RefundJournal, Some(actor.id),
                                                 RefundLines(st.orders[id], input.amount, targets)))
  {
    hide MoneyOk, OrderOk, Post, Overflows;
    ReachableSound(st);
    if id < |st.orders| && Positive(input.amount) && st.orders[id].refunded + input.amount <= st.orders[id].paid {
      var o := st.orders[id];
      var targets := RefundTargets(st, id, input.amount);
      RefundMoney(st.books, st.orders, st.payouts, id, input.amount, targets,
                  o.(refunded := o.refunded + input.amount, allocations := Retarget(o.allocations, targets)),
                  Posting(OrderRefunded(|st.refunds|), RefundJournal, Some(actor.id), RefundLines(o, input.amount, targets)));
    }
  }

  /** `reconcile` reports ok in every reachable state. */
  lemma ReachableReconciles(st: State)
    requires Reachable(st)
    ensures Reconciles(st)
  {
    ReachableSound(st);
    forall i | 0 <= i < |st.orders|
      ensures SumBy(st.orders[i].allocations, OriginalOf()) == st.orders[i].paid
      ensures SumBy(st.orders[i].allocations, RefundedOf()) == st.orders[i].refunded
    {
      OrderSlots(st.orders[i]);
    }
    forall a | a in st.books.wallets
      ensures st.books.wallets[a].reserved == SumBy(st.payouts, OpenAmount(a))
    {
      WalletsHaveClosedForm(st, a);
    }
  }

  // --------------------------------------------------------- the closed form

  /** Net allocations of the orders that are, or are not, released. */
  function HeldFor(a: AccountId, released: bool): Order -> int {
    (o: Order) => if o.releasedAt.Some? == released then SumBy(o.allocations, NetTo(a)) else 0
  }

  function SucceededAmount(a: AccountId): Payout -> int {
    (p: Payout) => if p.account == a && p.status == Succeeded then p.amount else 0
  }

  function AnySucceeded(): Payout -> int {
    (p: Payout) => if p.status == Succeeded then p.amount else 0
  }

  function NetPaid(): Order -> int {
    (o: Order) => o.paid - o.refunded
  }

  /** Every wallet of a sound state, bucket by bucket, from orders and payouts alone. */
  lemma WalletsHaveClosedForm(st: State, a: AccountId)
    requires Inv(st) && a in st.books.wallets
    ensures st.books.wallets[a].frozen == SumBy(st.orders, HeldFor(a, false))
    ensures st.books.wallets[a].reserved == SumBy(st.payouts, OpenAmount(a))
    ensures a != CLEARING ==>
              st.books.wallets[a].available
              == SumBy(st.orders, HeldFor(a, true)) - SumBy(st.payouts, OpenAmount(a)) - SumBy(st.payouts, SucceededAmount(a))
    ensures a == CLEARING ==>
              st.books.wallets[a].available == SumBy(st.payouts, AnySucceeded()) - SumBy(st.orders, NetPaid())
  {
    hide LedgerOk, DebtBounded, KeysOk, RefundsOk;
    var w := st.books.wallets[a];
    assert w.frozen == w.Cell(Frozen) && w.available == w.Cell(Available) && w.reserved == w.Cell(Reserved);
    OrdersByBucket(st.orders, a);
    PayoutsByBucket(st.payouts, a);
  }

  lemma {:induction false} OrdersByBucket(orders: seq<Order>, a: AccountId)
    requires forall i :: 0 <= i < |orders| ==> OrderOk(orders[i])
    ensures SumBy(orders, OrderCell(a, Frozen)) == SumBy(orders, HeldFor(a, false))
    ensures SumBy(orders, OrderCell(a, Reserved)) == 0
    ensures SumBy(orders, OrderCell(a, Available))
            == if a == CLEARING then -SumBy(orders, NetPaid()) else SumBy(orders, HeldFor(a, true))
  {
    if orders != [] {
      OrdersByBucket(orders[1..], a);
      OrderSlots(orders[0]);
    }
  }

  lemma {:induction false} PayoutsByBucket(payouts: seq<Payout>, a: AccountId)
    requires forall i :: 0 <= i < |payouts| ==> PayoutOk(payouts[i])
    ensures SumBy(payouts, PayoutCell(a, Frozen)) == 0
    ensures SumBy(payouts, PayoutCell(a, Reserved)) == SumBy(payouts, OpenAmount(a))
    ensures SumBy(payouts, PayoutCell(a, Available))
            == if a == CLEARING then SumBy(payouts, AnySucceeded())
               else -SumBy(payouts, OpenAmount(a)) - SumBy(payouts, SucceededAmount(a))
  {
    if payouts != [] {
      PayoutsByBucket(payouts[1..], a);
    }
  }

  // ------------------------------------------------------- money is conserved

  function Whole(entries: seq<Line>): AccountId -> int {
    (a: AccountId) => Net(entries, a, Frozen) + Net(entries, a, Available) + Net(entries, a, Reserved)
  }

  function WholeOfJournals(journals: seq<Journal>): AccountId -> int {
    (a: AccountId) =>
      SumBy(journals, JournalCell(a, Frozen)) + SumBy(journals, JournalCell(a, Available)) + SumBy(journals, JournalCell(a, Reserved))
  }

  function WholeWallet(wallets: map<AccountId, Wallet>): AccountId -> int {
    (a: AccountId) => if a in wallets then wallets[a].frozen + wallets[a].available + wallets[a].reserved else 0
  }

  ghost predicate Distinct(ids: seq<AccountId>) {
    forall i, j :: 0 <= i < j < |ids| ==> ids[i] != ids[j]
  }

  lemma NetOfOne(e: Line, a: AccountId)
    ensures Whole([e])(a) == if e.account == a then e.delta else 0
  {
    assert [e][1..] == [];
    assert forall b :: Net([e], a, b) == At(a, b)(e) + Net([], a, b);
  }

  lemma {:induction false} OneEntrySpread(ids: seq<AccountId>, e: Line)
    requires Distinct(ids)
    ensures SumBy(ids, Whole([e])) == if e.account in ids then e.delta else 0
  {
    if ids != [] {
      OneEntrySpread(ids[1..], e);
      NetOfOne(e, ids[0]);
      assert e.account in ids <==> e.account == ids[0] || e.account in ids[1..];
    }
  }

  lemma {:induction false} EntriesSpread(ids: seq<AccountId>, entries: seq<Line>)
    requires Distinct(ids) && forall e :: e in entries ==> e.account in ids
    ensures SumBy(ids, Whole(entries)) == SumBy(entries, Delta())
  {
    if entries == [] {
      SumZero(ids, Whole(entries));
    } else {
      var e, rest := entries[0], entries[1..];
      OneEntrySpread(ids, e);
      EntriesSpread(ids, rest);
      forall i | 0 <= i < |ids|
        ensures Whole(entries)(ids[i]) == Whole([e])(ids[i]) + Whole(rest)(ids[i])
      {
        NetOfOne(e, ids[i]);
      }
      SumPlus(ids, Whole(entries), ids, Whole([e]), ids, Whole(rest));
    }
  }

  lemma {:induction false} JournalsSpread(ids: seq<AccountId>, journals: seq<Journal>)
    requires Distinct(ids)
    requires forall i :: 0 <= i < |journals| ==> Balanced(journals[i]) && forall e :: e in journals[i].entries ==> e.account in ids
    ensures SumBy(ids, WholeOfJournals(journals)) == 0
  {
    if journals == [] {
      SumZero(ids, WholeOfJournals(journals));
    } else {
      var j, rest := journals[0], journals[1..];
      EntriesSpread(ids, j.entries);
      JournalsSpread(ids, rest);
      SumPlus(ids, WholeOfJournals(journals), ids, Whole(j.entries), ids, WholeOfJournals(rest));
    }
  }

  /** However the accounts are listed, all buckets of all wallets add up to zero. */
  lemma MoneyIsConserved(st: State, ids: seq<AccountId>)
    requires Reachable(st)
    requires Distinct(ids) && forall a :: a in ids <==> a in st.accounts
    ensures SumBy(ids, WholeWallet(st.books.wallets)) == 0
  {
    hide KeysOk, RefundsOk, RowsOk, LedgerOk, Projects, DebtBounded;
    ReachableSound(st);
    BooksSumToZero(st.books, ids);
  }

  lemma BooksSumToZero(books: Books, ids: seq<AccountId>)
    requires LedgerOk(books) && Distinct(ids) && forall a :: a in ids <==> a in books.wallets
    ensures SumBy(ids, WholeWallet(books.wallets)) == 0
  {
    JournalsSpread(ids, books.journals);
    forall i | 0 <= i < |ids|
      ensures WholeWallet(books.wallets)(ids[i]) == WholeOfJournals(books.journals)(ids[i])
    {
      WholeCells(books, ids[i]);
    }
    SumSame(ids, WholeWallet(books.wallets), ids, WholeOfJournals(books.journals));
  }

  lemma WholeCells(books: Books, a: AccountId)
    requires LedgerOk(books) && a in books.wallets
    ensures WholeWallet(books.wallets)(a) == WholeOfJournals(books.journals)(a)
  {
    var w := books.wallets[a];
    assert w.Cell(Frozen) == SumBy(books.journals, JournalCell(a, Frozen));
    assert w.Cell(Available) == SumBy(books.journals, JournalCell(a, Available));
    assert w.Cell(Reserved) == SumBy(books.journals, JournalCell(a, Reserved));
  }

  // ------------------------------------------------------------------- debts

  /** Frozen and reserved money is never negative, and an account owes at most what refunds
      took from it after release; without such a refund it owes nothing. */
  lemma DebtBound(st: State, a: AccountId)
    requires Reachable(st) && a in st.accounts
    ensures a in st.books.wallets
    ensures st.books.wallets[a].frozen >= 0 && st.books.wallets[a].reserved >= 0
    ensures a != CLEARING ==> -st.books.wallets[a].available <= SumBy(st.books.journals, Clawback(a))
    ensures a != CLEARING && (forall i :: 0 <= i < |st.books.journals| ==> Clawback(a)(st.books.journals[i]) == 0) ==>
              st.books.wallets[a].available >= 0
  {
    hide KeysOk, RefundsOk, LedgerOk, OrderOk, PayoutOk;
    ReachableSound(st);
    ExpectedNonNegative(st.orders, st.payouts, a, Frozen);
    ExpectedNonNegative(st.orders, st.payouts, a, Reserved);
    assert st.books.wallets[a].Cell(Frozen) >= 0 && st.books.wallets[a].Cell(Reserved) >= 0;
    if forall i :: 0 <= i < |st.books.journals| ==> Clawback(a)(st.books.journals[i]) == 0 {
      SumZero(st.books.journals, Clawback(a));
    }
  }

  // ------------------------------------------------- refunds in any order

  /** Two orders of the same origin with the same total refunded and the same release flag. */
  ghost predicate SameStanding(o: Order, o': Order) {
    && o.paid == o'.paid && o.refunded == o'.refunded && o.releasedAt.Some? == o'.releasedAt.Some?
    && |o.allocations| == |o'.allocations|
    && forall i :: 0 <= i < |o.allocations| ==>
         o.allocations[i].account == o'.allocations[i].account && o.allocations[i].original == o'.allocations[i].original
  }

  ghost predicate SameRefunds(o: Order, o': Order) {
    && |o.allocations| == |o'.allocations|
    && forall j :: 0 <= j < |o.allocations| ==> o.allocations[j].refunded == o'.allocations[j].refunded
  }

  ghost predicate SameClaim(p: Payout, p': Payout) {
    p.account == p'.account && p.amount == p'.amount && p.status == p'.status
  }

  /** Whatever refunds, releases and payouts led there: if two reachable states agree on the
      refunded totals, release flags and payout states, they agree on every allocation's
      cumulative refund and on every wallet. */
  lemma PathIndependence(st: State, st': State)
    requires Reachable(st) && Reachable(st') && st.accounts.Keys == st'.accounts.Keys
    requires |st.orders| == |st'.orders| && forall i :: 0 <= i < |st.orders| ==> SameStanding(st.orders[i], st'.orders[i])
    requires |st.payouts| == |st'.payouts| && forall i :: 0 <= i < |st.payouts| ==> SameClaim(st.payouts[i], st'.payouts[i])
    ensures st.books.wallets == st'.books.wallets
    ensures forall i :: 0 <= i < |st.orders| ==> SameRefunds(st.orders[i], st'.orders[i])
  {
    hide LedgerOk, DebtBounded, KeysOk, RefundsOk, OrderOk, PayoutOk;
    ReachableSound(st);
    ReachableSound(st');
    forall i | 0 <= i < |st.orders|
      ensures SameRefunds(st.orders[i], st'.orders[i])
    {
      SameHoldings(st.orders[i], st'.orders[i], CLEARING);
    }
    forall a | a in st.books.wallets
      ensures st.books.wallets[a] == st'.books.wallets[a]
    {
      forall b
        ensures Expected(st.orders, st.payouts, a, b) == Expected(st'.orders, st'.payouts, a, b)
      {
        SameExpected(st.orders, st.payouts, st'.orders, st'.payouts, a, b);
      }
      assert forall b :: st.books.wallets[a].Cell(b) == st'.books.wallets[a].Cell(b);
      SameCells(st.books.wallets[a], st'.books.wallets[a]);
    }
  }

  lemma SameExpected(orders: seq<Order>, payouts: seq<Payout>, orders': seq<Order>, payouts': seq<Payout>, a: AccountId, b: Bucket)
    requires |orders| == |orders'|
    requires forall i :: 0 <= i < |orders| ==> OrderOk(orders[i]) && OrderOk(orders'[i]) && SameStanding(orders[i], orders'[i])
    requires |payouts| == |payouts'| && forall i :: 0 <= i < |payouts| ==> SameClaim(payouts[i], payouts'[i])
    ensures Expected(orders, payouts, a, b) == Expected(orders', payouts', a, b)
  {
    hide OrderOk;
    forall i | 0 <= i < |orders|
      ensures OrderCell(a, b)(orders[i]) == OrderCell(a, b)(orders'[i])
    {
      SameHoldings(orders[i], orders'[i], a);
    }
    SumSame(orders, OrderCell(a, b), orders', OrderCell(a, b));
    SumSame(payouts, PayoutCell(a, b), payouts', PayoutCell(a, b));
  }

  lemma SameCells(w: Wallet, w': Wallet)
    requires forall b :: w.Cell(b) == w'.Cell(b)
    ensures w == w'
  {
    assert w.Cell(Frozen) == w'.Cell(Frozen) && w.Cell(Available) == w'.Cell(Available) && w.Cell(Reserved) == w'.Cell(Reserved);
  }

  lemma SameHoldings(o: Order, o': Order, a: AccountId)
    requires OrderOk(o) && OrderOk(o') && SameStanding(o, o')
    ensures SameRefunds(o, o')
    ensures SumBy(o.allocations, NetTo(a)) == SumBy(o'.allocations, NetTo(a))
  {
    assert Originals(o.allocations) == Originals(o'.allocations);
    SumSame(o.allocations, NetTo(a), o'.allocations, NetTo(a));
  }

  /** The order after a refund of `amount`. */
  ghost predicate RefundedBy(o: Order, o': Order, amount: int) {
    && NonNegative(Originals(o.allocations)) && 0 <= o.refunded + amount <= Total(Originals(o.allocations))
    && o' == o.(refunded := o.refunded + amount,
                allocations := Retarget(o.allocations, Apportion(Originals(o.allocations), o.refunded + amount)))
  }

  lemma RefundShape(st: State, actor: Actor, id: nat, input: RefundInput)
    requires Reachable(st) && Refund(st, actor, id, input).Ok?
    ensures var st' := Refund(st, actor, id, input).value;
            && Reachable(st') && st'.payouts == st.payouts && st'.accounts == st.accounts
            && id < |st.orders| && st'.orders == st.orders[id := st'.orders[id]]
            && RefundedBy(st.orders[id], st'.orders[id], input.amount)
  {
    hide Post, Inv;
    StepReachable(st, Call(actor, 0, OpRefund(id, input)));
  }

  lemma ReleaseShape(st: State, actor: Actor, now: int, id: nat)
    requires Reachable(st) && Release(st, actor, now, id).Ok? && id < |st.orders| && st.orders[id].releasedAt == None
    ensures var st' := Release(st, actor, now, id).value;
            && Reachable(st') && st'.payouts == st.payouts && st'.accounts == st.accounts
            && st'.orders == st.orders[id := st.orders[id].(releasedAt := Some(now))]
  {
    hide Post, Inv;
    StepReachable(st, Call(actor, now, OpRelease(id)));
  }

  /** Refunding in two calls leaves the orders and wallets one call for the sum would leave. */
  lemma RefundsAddUp(st: State, actor: Actor, id: nat, first: RefundInput, second: RefundInput, once: RefundInput)
    requires Reachable(st) && once.amount == first.amount + second.amount
    ensures Refund(st, actor, id, first).Ok? && Refund(Refund(st, actor, id, first).value, actor, id, second).Ok?
            && Refund(st, actor, id, once).Ok? ==>
              var twice := Refund(Refund(st, actor, id, first).value, actor, id, second).value;
              var single := Refund(st, actor, id, once).value;
              twice.orders == single.orders && twice.books.wallets == single.books.wallets
  {
    hide Refund, Reachable;
    if Refund(st, actor, id, first).Ok? && Refund(st, actor, id, once).Ok? {
      var mid, single := Refund(st, actor, id, first).value, Refund(st, actor, id, once).value;
      if Refund(mid, actor, id, second).Ok? {
        var twice := Refund(mid, actor, id, second).value;
        RefundShape(st, actor, id, first);
        RefundShape(mid, actor, id, second);
        RefundShape(st, actor, id, once);
        assert Originals(mid.orders[id].allocations) == Originals(st.orders[id].allocations);
        assert twice.orders[id].allocations == single.orders[id].allocations;
        SameOrders(twice, single);
      }
    }
  }

  lemma SameOrders(st: State, st': State)
    requires Reachable(st) && Reachable(st')
    requires st.orders == st'.orders && st.payouts == st'.payouts && st.accounts == st'.accounts
    ensures st.books.wallets == st'.books.wallets
  {
    hide Reachable;
    PathIndependence(st, st');
  }

  /** A refund before or after the release makes no difference to orders and wallets. */
  lemma RefundReleaseCommute(st: State, actor: Actor, now: int, id: nat, input: RefundInput)
    requires Reachable(st) && id < |st.orders| && st.orders[id].releasedAt == None
    requires Refund(st, actor, id, input).Ok? && Release(Refund(st, actor, id, input).value, actor, now, id).Ok?
    requires Release(st, actor, now, id).Ok? && Refund(Release(st, actor, now, id).value, actor, id, input).Ok?
    ensures var refundFirst := Release(Refund(st, actor, id, input).value, actor, now, id).value;
            var releaseFirst := Refund(Release(st, actor, now, id).value, actor, id, input).value;
            refundFirst.orders == releaseFirst.orders && refundFirst.books.wallets == releaseFirst.books.wallets
  {
    hide Refund, Release, Reachable;
    var refunded, released := Refund(st, actor, id, input).value, Release(st, actor, now, id).value;
    RefundShape(st, actor, id, input);
    ReleaseShape(st, actor, now, id);
    ReleaseShape(refunded, actor, now, id);
    RefundShape(released, actor, id, input);
    SameOrders(Release(refunded, actor, now, id).value, Refund(released, actor, id, input).value);
  }

  lemma StepReachable(st: State, c: Call)
    requires Reachable(st)
    ensures Reachable(After(st, c))
  {
    hide Step;
    var calls :| Run(INITIAL, calls) == st;
    assert (calls + [c])[..|calls|] == calls;
    assert Run(INITIAL, calls + [c]) == After(st, c);
  }

  // ---------------------------------------------------------- payout journals

  function Keyed(key: EventKey): Journal -> int {
    (j: Journal) => if j.key == key then 1 else 0
  }

  lemma {:induction false} KeyCount(journals: seq<Journal>, key: EventKey)
    requires forall i, j :: 0 <= i < j < |journals| ==> journals[i].key != journals[j].key
    ensures SumBy(journals, Keyed(key)) == if KeyUsed(journals, key) then 1 else 0
  {
    if journals != [] {
      var rest := journals[1..];
      assert forall i :: 0 <= i < |rest| ==> rest[i] == journals[i + 1];
      KeyCount(rest, key);
      if KeyUsed(rest, key) {
        var i :| 0 <= i < |rest| && rest[i].key == key;
        assert journals[i + 1].key == key;
      }
    }
  }

  /** Every payout has exactly one reserving journal, and exactly one closing journal if and
      only if it is rejected, succeeded or failed. */
  lemma PayoutJournals(st: State, i: nat)
    requires Reachable(st) && i < |st.payouts|
    ensures SumBy(st.books.journals, Keyed(PayoutReserved(i))) == 1
    ensures SumBy(st.books.journals, Keyed(PayoutRejected(i))) + SumBy(st.books.journals, Keyed(PayoutClosed(i)))
            == if st.payouts[i].status in {Rejected, Succeeded, Failed} then 1 else 0
  {
    hide MoneyOk, RowsOk, RefundsOk;
    ReachableSound(st);
    var journals := st.books.journals;
    KeyCount(journals, PayoutReserved(i));
    KeyCount(journals, PayoutRejected(i));
    KeyCount(journals, PayoutClosed(i));
    assert Journalled(journals, st.payouts[i], i);
  }

  /** A payout that got past review was approved by somebody other than its requester. */
  lemma PayoutsAreReviewed(st: State, i: nat)
    requires Reachable(st) && i < |st.payouts|
    requires st.payouts[i].status in {Approved, Processing, Unknown, Succeeded, Failed}
    ensures st.payouts[i].approvedBy.Some? && st.payouts[i].approvedBy.value != st.payouts[i].requestedBy
    ensures st.payouts[i].status == Succeeded ==> st.payouts[i].providerReference.Some?
  {
    hide MoneyOk, KeysOk, RefundsOk;
    ReachableSound(st);
  }
}

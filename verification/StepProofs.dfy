/** Every service call keeps the invariant, and in a sound state fails only for a reason
    its caller can be told: never for an internal error, a repeated event key or a CHECK. */
module StepProofs {
  import opened Wrappers
  import opened Errors
  import opened Sums
  import opened Domain
  import opened Ledger
  import opened Model
  import opened Invariants
  import opened Postings

  /** Refusals of the request itself, and the overflow of a wallet column. */
  predicate Expectable(e: Error) {
    e in {Invalid, Forbidden, NotFound, Conflict, Duplicate, OutOfRange}
  }

  ghost predicate Sound(r: Outcome<State>) {
    match r case Ok(st) => Inv(st) case Err(e) => Expectable(e)
  }

  /** The journals after a posting: as before, or one more with a key not used yet. */
  ghost predicate Extends(journals': seq<Journal>, journals: seq<Journal>, key: EventKey) {
    journals' == journals
    || exists j :: journals' == journals + [j] && j.key == key && !KeyUsed(journals, key)
  }

  lemma KeysGrow(journals: seq<Journal>, orders: seq<Order>, refunds: seq<RefundRow>, payouts: seq<Payout>,
                 journals': seq<Journal>, orders': seq<Order>, refunds': seq<RefundRow>, payouts': seq<Payout>, key: EventKey)
    requires KeysOk(journals, orders, refunds, payouts) && Extends(journals', journals, key)
    requires forall k :: KeyFits(orders, refunds, payouts, k) ==> KeyFits(orders', refunds', payouts', k)
    requires KeyFits(orders', refunds', payouts', key)
    requires forall i: nat :: i < |payouts'| ==> Journalled(journals', payouts'[i], i)
    ensures KeysOk(journals', orders', refunds', payouts')
  {
  }

  /** A posting that moves money leaves its key behind. */
  lemma PostRecords(books: Books, p: Posting, a: AccountId, b: Bucket)
    requires Post(books, p).Ok? && a in books.wallets && Net(p.lines, a, b) != 0
    ensures KeyUsed(Post(books, p).value.journals, p.key)
    ensures forall k :: KeyUsed(books.journals, k) ==> KeyUsed(Post(books, p).value.journals, k)
  {
    var books' := Post(books, p).value;
    PostEffect(books, p);
    assert books'.wallets[a].Cell(b) != books.wallets[a].Cell(b);
    var j :| books'.journals == books.journals + [j] && j.key == p.key;
    assert books'.journals[|books.journals|].key == p.key;
    forall k | KeyUsed(books.journals, k)
      ensures KeyUsed(books'.journals, k)
    {
      var i :| 0 <= i < |books.journals| && books.journals[i].key == k;
      assert books'.journals[i].key == k;
    }
  }

  lemma PostExtends(books: Books, p: Posting)
    requires Post(books, p).Ok?
    ensures Extends(Post(books, p).value.journals, books.journals, p.key)
    ensures Post(books, p).value.wallets.Keys == books.wallets.Keys
    ensures forall k :: KeyUsed(books.journals, k) ==> KeyUsed(Post(books, p).value.journals, k)
  {
    PostEffect(books, p);
    var journals, journals' := books.journals, Post(books, p).value.journals;
    forall k | KeyUsed(journals, k)
      ensures KeyUsed(journals', k)
    {
      var i :| 0 <= i < |journals| && journals[i].key == k;
      assert journals'[i].key == k;
    }
  }

  /** The posting fails exactly for an overflow; accepted, it keeps the books in order for the
      new rows and appends at most a journal under its own fresh key. */
  ghost predicate Posts(books: Books, p: Posting, orders': seq<Order>, payouts': seq<Payout>) {
    match Post(books, p)
    case Err(e) => e == OutOfRange && Overflows(books, p)
    case Ok(books') =>
      && !Overflows(books, p)
      && MoneyOk(books', orders', payouts')
      && books'.wallets.Keys == books.wallets.Keys
      && Extends(books'.journals, books.journals, p.key)
      && forall k :: KeyUsed(books.journals, k) ==> KeyUsed(books'.journals, k)
  }

  /** A balanced posting from sound rows to sound rows fails only for an overflow; accepted,
      it keeps the books in order and appends at most a journal under its own fresh key. */
  lemma PostStep(books: Books, p: Posting, orders: seq<Order>, payouts: seq<Payout>,
                 orders': seq<Order>, payouts': seq<Payout>)
    requires MoneyOk(books, orders, payouts)
    requires Moves(p.lines, orders, payouts, orders', payouts') && DebtStep(books, p)
    requires RowsOk(orders', payouts', books.wallets)
    requires ModestLines(p.lines) && KnownAccounts(books.wallets, p.lines)
    requires SumBy(p.lines, Delta()) == 0 && !KeyUsed(books.journals, p.key)
    ensures Posts(books, p, orders', payouts')
  {
    SoundPosting(books, p, orders, payouts, orders', payouts');
    PostAccepts(books, p);
    if Post(books, p).Ok? {
      PostKeeps(books, p, orders, payouts, orders', payouts');
      PostExtends(books, p);
    }
  }

  // ------------------------------------------------------------------- catalog

  lemma CreateAccountKeeps(st: State, actor: Actor, id: AccountId, externalId: string, name: string,
                           kind: AccountKind, parent: Option<AccountId>)
    requires Inv(st)
    ensures Sound(CreateAccount(st, actor, id, externalId, name, kind, parent))
  {
    hide MoneyOk, RowsOk, KeysOk, RefundsOk;
    var r := CreateAccount(st, actor, id, externalId, name, kind, parent);
    if r.Ok? {
      UnknownAccount(st, id);
      OpenWallet(st.books, id, st.orders, st.payouts);
      assert RowsOk(st.orders, st.payouts, r.value.books.wallets) by {
        MoreWallets(st.orders, st.payouts, st.books.wallets, r.value.books.wallets);
      }
    } else if parent.Some? {
      assert AccountError(st, parent.value, Promoter).Some? ==> Expectable(AccountError(st, parent.value, Promoter).value);
    }
  }

  /** Nothing was ever posted to an account that does not exist yet. */
  lemma UnknownAccount(st: State, id: AccountId)
    requires RowsOk(st.orders, st.payouts, st.books.wallets) && MoneyOk(st.books, st.orders, st.payouts)
    requires CLEARING in st.books.wallets && id !in st.books.wallets
    ensures forall b :: Expected(st.orders, st.payouts, id, b) == 0
    ensures forall b :: SumBy(st.books.journals, JournalCell(id, b)) == 0
    ensures SumBy(st.books.journals, Clawback(id)) == 0
  {
    forall i, b | 0 <= i < |st.orders|
      ensures OrderCell(id, b)(st.orders[i]) == 0
    {
      SumZero(st.orders[i].allocations, NetTo(id));
    }
    forall i, b | 0 <= i < |st.books.journals|
      ensures Net(st.books.journals[i].entries, id, b) == 0
    {
      NetOfOther(st.books.journals[i].entries, id, b);
    }
    forall b
      ensures Expected(st.orders, st.payouts, id, b) == 0 && SumBy(st.books.journals, JournalCell(id, b)) == 0
    {
      SumZero(st.orders, OrderCell(id, b));
      SumZero(st.payouts, PayoutCell(id, b));
      SumZero(st.books.journals, JournalCell(id, b));
    }
    SumZero(st.books.journals, Clawback(id));
  }

  lemma MoreWallets(orders: seq<Order>, payouts: seq<Payout>, wallets: map<AccountId, Wallet>, wallets': map<AccountId, Wallet>)
    requires RowsOk(orders, payouts, wallets) && wallets.Keys <= wallets'.Keys
    ensures RowsOk(orders, payouts, wallets')
  {
  }

  lemma OpenWallet(books: Books, id: AccountId, orders: seq<Order>, payouts: seq<Payout>)
    requires id !in books.wallets && MoneyOk(books, orders, payouts)
    requires forall b :: Expected(orders, payouts, id, b) == 0
    requires forall b :: SumBy(books.journals, JournalCell(id, b)) == 0
    requires SumBy(books.journals, Clawback(id)) == 0
    ensures var books' := books.(wallets := books.wallets[id := Wallet(0, 0, 0)]);
            MoneyOk(books', orders, payouts)
  {
  }

  lemma BindReferralKeeps(st: State, actor: Actor, customer: string, promoter: AccountId)
    requires Inv(st)
    ensures Sound(BindReferral(st, actor, customer, promoter))
  {
  }

  lemma CreateRuleKeeps(st: State, actor: Actor, rule: Rule)
    requires Inv(st)
    ensures Sound(CreateRule(st, actor, rule))
  {
  }

  lemma DisableRuleKeeps(st: State, actor: Actor, id: nat)
    requires Inv(st)
    ensures Sound(DisableRule(st, actor, id))
  {
  }

  // -------------------------------------------------------------------- orders

  ghost predicate Holder(st: State, a: AccountId) {
    a in st.accounts && st.accounts[a].kind != ClearingAccount
  }

  /** What a quote's answer says about the catalog it came from. */
  lemma QuotedParties(st: State, now: int, input: CaptureInput, q: Quoted)
    requires Quote(st, input.merchant, input.customer, input.paid, input.base, now) == Ok(q)
    ensures q.rule < |st.rules|
    ensures SplitPaid(input.paid, input.base, st.rules[q.rule].terms, q.direct.Some?, q.indirect.Some?) == Ok(q.split)
    ensures Holder(st, input.merchant)
    ensures q.direct.Some? ==> Holder(st, q.direct.value)
    ensures q.indirect.Some? ==> Holder(st, q.indirect.value)
  {
    hide SplitPaid, ChooseRule;
  }

  /** Rows of a quoted order, whatever rule and referral the catalog holds. */
  lemma QuotedOrder(st: State, now: int, input: CaptureInput, q: Quoted, o: Order)
    requires Inv(st)
    requires Quote(st, input.merchant, input.customer, input.paid, input.base, now) == Ok(q)
    requires q.rule < |st.rules|
    requires o == Order(input.externalId, input.merchant, input.customer, input.paid, input.base, q.split.feePool, 0, q.rule,
                        now + st.rules[q.rule].terms.freezeSeconds, None, AllocationsFor(q, input.merchant))
    ensures OrderOk(o) && Owned(o.allocations, st.books.wallets)
  {
    hide MoneyOk, RowsOk, KeysOk, RefundsOk, Quote, SplitPaid, Apportion;
    QuotedParties(st, now, input, q);
    SplitSound(input.paid, input.base, st.rules[q.rule].terms, q.direct.Some?, q.indirect.Some?);
    var parts := o.allocations;
    assert |parts| == 2 + (if q.direct.Some? then 1 else 0) + (if q.indirect.Some? then 1 else 0);
    QuotedTotal(q, input.merchant);
    TotalNonNegative(Originals(parts));
    ApportionEnds(Originals(parts));
  }

  lemma QuotedTotal(q: Quoted, merchant: AccountId)
    requires q.direct.None? ==> q.split.direct == 0
    requires q.indirect.None? ==> q.split.indirect == 0
    ensures Total(Originals(AllocationsFor(q, merchant)))
            == q.split.direct + q.split.indirect + q.split.platform + q.split.merchant
  {
    var d := if q.direct.Some? then [q.split.direct] else [];
    var i := if q.indirect.Some? then [q.split.indirect] else [];
    assert Originals(AllocationsFor(q, merchant)) == d + (i + [q.split.platform, q.split.merchant]);
    assert [q.split.platform, q.split.merchant][1..] == [q.split.merchant];
    assert [q.split.merchant][1..] == [] && Total([q.split.merchant]) == q.split.merchant;
    assert Total(d) == q.split.direct && Total(i) == q.split.indirect;
    TotalConcat(i, [q.split.platform, q.split.merchant]);
    TotalConcat(d, i + [q.split.platform, q.split.merchant]);
  }

  lemma {:induction false} TotalConcat(a: seq<int>, b: seq<int>)
    requires |a| <= 1
    ensures Total(a + b) == Total(a) + Total(b)
  {
    if a == [] {
      assert a + b == b;
    } else {
      assert (a + b)[1..] == b;
    }
  }

  lemma CaptureKeeps(st: State, actor: Actor, now: int, input: CaptureInput)
    requires Inv(st)
    ensures Sound(Capture(st, actor, now, input))
  {
    hide Inv, Post, Quote;
    var quote := Quote(st, input.merchant, input.customer, input.paid, input.base, now);
    QuoteAnswers(st, input, now);
    if quote.Ok? {
      var q := quote.value;
      var o := Order(input.externalId, input.merchant, input.customer, input.paid, input.base, q.split.feePool, 0, q.rule,
                     now + st.rules[q.rule].terms.freezeSeconds, None, AllocationsFor(q, input.merchant));
      QuotedOrder(st, now, input, q, o);
      CapturePosted(st, Some(actor.id), o);
    }
  }

  lemma QuoteAnswers(st: State, input: CaptureInput, now: int)
    ensures match Quote(st, input.merchant, input.customer, input.paid, input.base, now)
            case Ok(q) => q.rule < |st.rules|
            case Err(e) => Expectable(e)
  {
  }

  lemma CapturePosted(st: State, actor: Option<ActorId>, o: Order)
    requires Inv(st) && OrderOk(o) && Owned(o.allocations, st.books.wallets) && o.refunded == 0 && o.releasedAt == None
    ensures var p := Posting(OrderCaptured(|st.orders|), CaptureJournal, actor, CaptureLines(o.paid, o.allocations));
            match Post(st.books, p)
            case Ok(books) => Inv(st.(orders := st.orders + [o], books := books)) && !Overflows(st.books, p)
            case Err(e) => e == OutOfRange && Overflows(st.books, p)
  {
    hide MoneyOk, OrderOk, Post, Overflows;
    var p := Posting(OrderCaptured(|st.orders|), CaptureJournal, actor, CaptureLines(o.paid, o.allocations));
    var orders' := st.orders + [o];
    CaptureMoves(o);
    forall a, b
      ensures Expected(orders', st.payouts, a, b) == Expected(st.orders, st.payouts, a, b) + Net(p.lines, a, b)
    {
      SumAppend(st.orders, o, OrderCell(a, b));
    }
    forall a | a != CLEARING
      ensures Net(p.lines, a, Available) == 0
    {
      assert Net(p.lines, a, Available) == OrderCell(a, Available)(o);
    }
    PostStep(st.books, p, st.orders, st.payouts, orders', st.payouts);
    var r := Post(st.books, p);
    if r.Ok? {
      KeysGrow(st.books.journals, st.orders, st.refunds, st.payouts, r.value.journals, orders', st.refunds, st.payouts, p.key);
      NoRefundsYet(st.orders, st.refunds, o);
      MoreWallets(orders', st.payouts, st.books.wallets, r.value.wallets);
    }
  }

  lemma NoRefundsYet(orders: seq<Order>, refunds: seq<RefundRow>, o: Order)
    requires RefundsOk(orders, refunds) && o.refunded == 0
    ensures RefundsOk(orders + [o], refunds)
  {
    SumZero(refunds, RefundOf(|orders|));
  }

  lemma RefundKeeps(st: State, actor: Actor, id: nat, input: RefundInput)
    requires Inv(st)
    ensures Sound(Refund(st, actor, id, input))
  {
    hide Inv, Post, OrderOk;
    if id < |st.orders| && Positive(input.amount) && st.orders[id].refunded + input.amount <= st.orders[id].paid {
      var o := st.orders[id];
      var targets := RefundTargets(st, id, input.amount);
      RefundPosted(st, Some(actor.id), id, input, targets,
                   o.(refunded := o.refunded + input.amount, allocations := Retarget(o.allocations, targets)));
    }
  }

  /** A refund within the paid amount is always refundable, and never lowers a slot. */
  lemma RefundTargets(st: State, id: nat, amount: int) returns (targets: seq<int>)
    requires Inv(st) && id < |st.orders| && Positive(amount) && st.orders[id].refunded + amount <= st.orders[id].paid
    ensures Refundable(Originals(st.orders[id].allocations), st.orders[id].refunded + amount)
    ensures targets == Apportion(Originals(st.orders[id].allocations), st.orders[id].refunded + amount)
    ensures forall i :: 0 <= i < |targets| ==> st.orders[id].allocations[i].refunded <= targets[i]
    ensures InI64(st.orders[id].refunded + amount)
  {
    hide MoneyOk, KeysOk, RefundsOk;
    var o := st.orders[id];
    targets := Apportion(Originals(o.allocations), o.refunded + amount);
    RefundMoves(o, o.(refunded := o.refunded + amount, allocations := Retarget(o.allocations, targets)), amount, targets);
  }

  lemma RefundPosted(st: State, actor: Option<ActorId>, id: nat, input: RefundInput, targets: seq<int>, o': Order)
    requires Inv(st) && id < |st.orders| && Positive(input.amount) && |targets| == |st.orders[id].allocations|
    requires var o := st.orders[id];
             && o.refunded + input.amount <= o.paid
             && targets == Apportion(Originals(o.allocations), o.refunded + input.amount)
             && o' == o.(refunded := o.refunded + input.amount, allocations := Retarget(o.allocations, targets))
    ensures var p := Posting(OrderRefunded(|st.refunds|), RefundJournal, actor, RefundLines(st.orders[id], input.amount, targets));
            match Post(st.books, p)
            case Ok(books) => Inv(st.(orders := st.orders[id := o'],
                                      refunds := st.refunds + [RefundRow(id, input.externalId, input.amount, o'.refunded, input.reason)],
                                      books := books)) && !Overflows(st.books, p)
            case Err(e) => e == OutOfRange && Overflows(st.books, p)
  {
    hide MoneyOk, OrderOk, Post, Overflows;
    var o := st.orders[id];
    var p := Posting(OrderRefunded(|st.refunds|), RefundJournal, actor, RefundLines(o, input.amount, targets));
    var orders' := st.orders[id := o'];
    var row := RefundRow(id, input.externalId, input.amount, o'.refunded, input.reason);
    RefundMoves(o, o', input.amount, targets);
    RefundMoney(st.books, st.orders, st.payouts, id, input.amount, targets, o', p);
    var r := Post(st.books, p);
    if r.Ok? {
      KeysGrow(st.books.journals, st.orders, st.refunds, st.payouts, r.value.journals, orders', st.refunds + [row], st.payouts, p.key);
      RefundRecorded(st.orders, st.refunds, id, o', row);
      MoreWallets(orders', st.payouts, st.books.wallets, r.value.wallets);
    }
  }

  lemma RefundMoney(books: Books, orders: seq<Order>, payouts: seq<Payout>, id: nat, amount: int, targets: seq<int>,
                    o': Order, p: Posting)
    requires MoneyOk(books, orders, payouts) && RowsOk(orders, payouts, books.wallets) && CLEARING in books.wallets
    requires id < |orders| && Positive(amount) && |targets| == |orders[id].allocations|
    requires var o := orders[id];
             && o.refunded + amount <= o.paid && targets == Apportion(Originals(o.allocations), o.refunded + amount)
             && o' == o.(refunded := o.refunded + amount, allocations := Retarget(o.allocations, targets))
    requires p.kind == RefundJournal && p.lines == RefundLines(orders[id], amount, targets) && !KeyUsed(books.journals, p.key)
    ensures Posts(books, p, orders[id := o'], payouts)
  {
    hide MoneyOk, OrderOk, Post, Posts;
    var o := orders[id];
    RefundMoves(o, o', amount, targets);
    RefundTakes(o, o', p);
    RefundAccounts(o, amount, targets, books.wallets);
    forall a, b
      ensures Expected(orders[id := o'], payouts, a, b) == Expected(orders, payouts, a, b) + Net(p.lines, a, b)
    {
      SumUpdate(orders, id, o', OrderCell(a, b));
    }
    PostStep(books, p, orders, payouts, orders[id := o'], payouts);
  }

  lemma RefundAccounts(o: Order, amount: int, targets: seq<int>, wallets: map<AccountId, Wallet>)
    requires Owned(o.allocations, wallets) && CLEARING in wallets && |targets| == |o.allocations|
    ensures KnownAccounts(wallets, RefundLines(o, amount, targets))
  {
  }

  lemma RefundRecorded(orders: seq<Order>, refunds: seq<RefundRow>, id: nat, o': Order, row: RefundRow)
    requires RefundsOk(orders, refunds) && id < |orders|
    requires row.order == id && o'.refunded == orders[id].refunded + row.amount
    ensures RefundsOk(orders[id := o'], refunds + [row])
  {
    forall i: nat | i < |orders|
      ensures SumBy(refunds + [row], RefundOf(i)) == orders[id := o'][i].refunded
    {
      SumAppend(refunds, row, RefundOf(i));
    }
  }

  /** A refund never adds to a beneficiary's available bucket. */
  lemma RefundTakes(o: Order, o': Order, p: Posting)
    requires |o.allocations| == |o'.allocations| && Holding(o) == Holding(o')
    requires forall i :: 0 <= i < |o.allocations| ==>
               && o.allocations[i].account == o'.allocations[i].account && o.allocations[i].original == o'.allocations[i].original
               && o.allocations[i].refunded <= o'.allocations[i].refunded
    requires forall a, b :: Net(p.lines, a, b) == OrderCell(a, b)(o') - OrderCell(a, b)(o)
    ensures forall a :: a != CLEARING ==> Net(p.lines, a, Available) <= 0
  {
    forall a | a != CLEARING
      ensures Net(p.lines, a, Available) <= 0
    {
      SumOrdered(o'.allocations, o.allocations, NetTo(a));
    }
  }

  lemma {:induction false} SumOrdered<T>(s: seq<T>, t: seq<T>, f: T -> int)
    requires |s| == |t| && forall i :: 0 <= i < |s| ==> f(s[i]) <= f(t[i])
    ensures SumBy(s, f) <= SumBy(t, f)
  {
    if s != [] {
      assert forall i :: 0 <= i < |s| - 1 ==> s[1..][i] == s[i + 1] && t[1..][i] == t[i + 1];
      SumOrdered(s[1..], t[1..], f);
    }
  }

  lemma ReleaseLockedKeeps(st: State, actor: Option<ActorId>, now: int, id: nat)
    requires Inv(st) && id < |st.orders|
    ensures Sound(ReleaseLocked(st, actor, now, id))
  {
    hide MoneyOk, OrderOk, Post;
    var o := st.orders[id];
    if o.releasedAt == None && o.unlockAt <= now {
      var p := Posting(OrderReleased(id), ReleaseJournal, actor, ReleaseLines(o.allocations));
      var o' := o.(releasedAt := Some(now));
      var orders' := st.orders[id := o'];
      ReleaseMoves(o, now);
      ReleaseMoney(st.books, st.orders, st.payouts, id, now, p);
      var r := Post(st.books, p);
      if r.Ok? {
        KeysGrow(st.books.journals, st.orders, st.refunds, st.payouts, r.value.journals, orders', st.refunds, st.payouts, p.key);
        MoreWallets(orders', st.payouts, st.books.wallets, r.value.wallets);
      }
    }
  }

  lemma ReleaseMoney(books: Books, orders: seq<Order>, payouts: seq<Payout>, id: nat, now: int, p: Posting)
    requires MoneyOk(books, orders, payouts) && RowsOk(orders, payouts, books.wallets)
    requires id < |orders| && orders[id].releasedAt == None && orders[id].unlockAt <= now
    requires p.kind == ReleaseJournal && p.lines == ReleaseLines(orders[id].allocations) && !KeyUsed(books.journals, p.key)
    ensures Posts(books, p, orders[id := orders[id].(releasedAt := Some(now))], payouts)
  {
    hide MoneyOk, OrderOk, Post, Posts;
    var o := orders[id];
    var o' := o.(releasedAt := Some(now));
    ReleaseMoves(o, now);
    ReleaseAccounts(o, books.wallets);
    forall a, b
      ensures Expected(orders[id := o'], payouts, a, b) == Expected(orders, payouts, a, b) + Net(p.lines, a, b)
    {
      SumUpdate(orders, id, o', OrderCell(a, b));
    }
    PostStep(books, p, orders, payouts, orders[id := o'], payouts);
  }

  lemma ReleaseAccounts(o: Order, wallets: map<AccountId, Wallet>)
    requires OrderOk(o) && Owned(o.allocations, wallets)
    ensures KnownAccounts(wallets, ReleaseLines(o.allocations))
  {
    OrderSlots(o);
    ReleaseSize(o.allocations);
  }

  lemma ReleaseKeeps(st: State, actor: Actor, now: int, id: nat)
    requires Inv(st)
    ensures Sound(Release(st, actor, now, id))
  {
    if id < |st.orders| {
      ReleaseLockedKeeps(st, Some(actor.id), now, id);
    }
  }

  lemma ReleaseOneDueKeeps(st: State, now: int, skip: set<nat>)
    requires Inv(st)
    ensures Sound(ReleaseOneDue(st, now, skip))
  {
    if exists i: nat :: FirstDue(st.orders, now, skip, i) {
      var i: nat :| FirstDue(st.orders, now, skip, i)
                    && ReleaseOneDue(st, now, skip) == ReleaseLocked(st, None, now, i);
      ReleaseLockedKeeps(st, None, now, i);
    }
  }

  // ------------------------------------------------------------------- payouts

  lemma RequestPayoutKeeps(st: State, actor: Actor, input: PayoutInput)
    requires Inv(st)
    ensures Sound(RequestPayout(st, actor, input))
  {
    hide MoneyOk, RowsOk, KeysOk, RefundsOk, Post;
    if Positive(input.amount) && input.account != CLEARING && input.account in st.books.wallets
       && st.books.wallets[input.account].available >= input.amount
    {
      RequestPosted(st, Some(actor.id),
                    Payout(input.externalId, input.account, input.amount, input.destination, Requested, actor.id, None, None, None));
    }
  }

  lemma RequestPosted(st: State, actor: Option<ActorId>, payout: Payout)
    requires Inv(st) && PayoutOk(payout) && payout.status == Requested && payout.account in st.books.wallets
    requires st.books.wallets[payout.account].available >= payout.amount
    ensures var p := Posting(PayoutReserved(|st.payouts|), PayoutReserve, actor,
                             Transfer(payout.account, Available, payout.account, Reserved, payout.amount));
            match Post(st.books, p)
            case Ok(books) => Inv(st.(payouts := st.payouts + [payout], books := books)) && !Overflows(st.books, p)
            case Err(e) => e == OutOfRange && Overflows(st.books, p)
  {
    hide MoneyOk, OrderOk, RefundsOk, Post, Overflows;
    var p := Posting(PayoutReserved(|st.payouts|), PayoutReserve, actor,
                     Transfer(payout.account, Available, payout.account, Reserved, payout.amount));
    var payouts' := st.payouts + [payout];
    TransferNet(payout.account, Available, payout.account, Reserved, payout.amount);
    ReserveMoney(st.books, st.orders, st.payouts, payout, p);
    var r := Post(st.books, p);
    if r.Ok? {
      PostRecords(st.books, p, payout.account, Reserved);
      KeysGrow(st.books.journals, st.orders, st.refunds, st.payouts, r.value.journals, st.orders, st.refunds, payouts', p.key);
      MoreWallets(st.orders, payouts', st.books.wallets, r.value.wallets);
    }
  }

  lemma ReserveMoney(books: Books, orders: seq<Order>, payouts: seq<Payout>, payout: Payout, p: Posting)
    requires MoneyOk(books, orders, payouts) && RowsOk(orders, payouts, books.wallets)
    requires PayoutOk(payout) && payout.status == Requested && payout.account in books.wallets
    requires books.wallets[payout.account].available >= payout.amount
    requires p.kind != RefundJournal && !KeyUsed(books.journals, p.key)
    requires p.lines == Transfer(payout.account, Available, payout.account, Reserved, payout.amount)
    ensures Posts(books, p, orders, payouts + [payout])
  {
    hide MoneyOk, OrderOk, Post, Posts;
    TransferNet(payout.account, Available, payout.account, Reserved, payout.amount);
    forall a, b
      ensures Expected(orders, payouts + [payout], a, b) == Expected(orders, payouts, a, b) + Net(p.lines, a, b)
    {
      SumAppend(payouts, payout, PayoutCell(a, b));
    }
    PostStep(books, p, orders, payouts, orders, payouts + [payout]);
  }

  /** A change of a payout that leaves its money where it is. */
  lemma StatusChange(st: State, id: nat, payout: Payout)
    requires Inv(st) && id < |st.payouts| && PayoutOk(payout)
    requires st.payouts[id].Open() && payout.Open()
    requires payout.account == st.payouts[id].account && payout.amount == st.payouts[id].amount
    ensures Inv(st.(payouts := st.payouts[id := payout]))
  {
    hide OrderOk, RefundsOk, LedgerOk, DebtBounded;
    var payouts' := st.payouts[id := payout];
    forall a, b
      ensures Expected(st.orders, payouts', a, b) == Expected(st.orders, st.payouts, a, b)
    {
      SumUpdate(st.payouts, id, payout, PayoutCell(a, b));
    }
    assert Journalled(st.books.journals, st.payouts[id], id);
  }

  /** Closing a payout: its reserve goes to `destination`'s available bucket. */
  lemma ClosePosted(st: State, actor: Option<ActorId>, id: nat, payout: Payout, destination: AccountId, p: Posting)
    requires Inv(st) && id < |st.payouts| && PayoutOk(payout) && st.payouts[id].Open()
    requires payout.account == st.payouts[id].account && payout.amount == st.payouts[id].amount
    requires payout.status in {Rejected, Succeeded, Failed}
    requires destination == if payout.status == Succeeded then CLEARING else payout.account
    requires p.key == (if payout.status == Rejected then PayoutRejected(id) else PayoutClosed(id)) && p.kind != RefundJournal
    requires p.lines == Transfer(payout.account, Reserved, destination, Available, payout.amount)
    ensures match Post(st.books, p)
            case Ok(books) => Inv(st.(payouts := st.payouts[id := payout], books := books)) && !Overflows(st.books, p)
            case Err(e) => e == OutOfRange && Overflows(st.books, p)
  {
    hide MoneyOk, OrderOk, RefundsOk, Post, Overflows;
    var payouts' := st.payouts[id := payout];
    TransferNet(payout.account, Reserved, destination, Available, payout.amount);
    CloseMoney(st.books, st.orders, st.payouts, id, payout, destination, p);
    var r := Post(st.books, p);
    if r.Ok? {
      PostRecords(st.books, p, payout.account, Reserved);
      assert Journalled(st.books.journals, st.payouts[id], id);
      KeysGrow(st.books.journals, st.orders, st.refunds, st.payouts, r.value.journals, st.orders, st.refunds, payouts', p.key);
      MoreWallets(st.orders, payouts', st.books.wallets, r.value.wallets);
    }
  }

  lemma CloseMoney(books: Books, orders: seq<Order>, payouts: seq<Payout>, id: nat, payout: Payout, destination: AccountId, p: Posting)
    requires MoneyOk(books, orders, payouts) && RowsOk(orders, payouts, books.wallets) && CLEARING in books.wallets
    requires id < |payouts| && PayoutOk(payout) && payouts[id].Open()
    requires payout.account == payouts[id].account && payout.amount == payouts[id].amount
    requires payout.status in {Rejected, Succeeded, Failed}
    requires destination == if payout.status == Succeeded then CLEARING else payout.account
    requires p.kind != RefundJournal && p.lines == Transfer(payout.account, Reserved, destination, Available, payout.amount)
    requires !KeyUsed(books.journals, p.key)
    ensures Posts(books, p, orders, payouts[id := payout])
  {
    hide MoneyOk, OrderOk, Post, Posts;
    TransferNet(payout.account, Reserved, destination, Available, payout.amount);
    forall a, b
      ensures Expected(orders, payouts[id := payout], a, b) == Expected(orders, payouts, a, b) + Net(p.lines, a, b)
    {
      SumUpdate(payouts, id, payout, PayoutCell(a, b));
    }
    PostStep(books, p, orders, payouts, orders, payouts[id := payout]);
  }

  lemma ApproveKeeps(st: State, actor: Actor, id: nat)
    requires Inv(st)
    ensures Sound(Approve(st, actor, id))
  {
    if id < |st.payouts| && st.payouts[id].status == Requested && st.payouts[id].requestedBy != actor.id {
      StatusChange(st, id, st.payouts[id].(status := Approved, approvedBy := Some(actor.id)));
    }
  }

  lemma ProcessKeeps(st: State, actor: Actor, id: nat, reason: string)
    requires Inv(st)
    ensures Sound(Process(st, actor, id, reason))
  {
    if id < |st.payouts| && st.payouts[id].status == Approved {
      StatusChange(st, id, st.payouts[id].(status := Processing, evidence := Some(reason)));
    }
  }

  lemma RejectKeeps(st: State, actor: Actor, id: nat, reason: string)
    requires Inv(st)
    ensures Sound(Reject(st, actor, id, reason))
  {
    if id < |st.payouts| && st.payouts[id].status in {Requested, Approved} {
      var p := st.payouts[id];
      ClosePosted(st, Some(actor.id), id, p.(status := Rejected, evidence := Some(reason)), p.account,
                  Posting(PayoutRejected(id), PayoutReject, Some(actor.id), Transfer(p.account, Reserved, p.account, Available, p.amount)));
    }
  }

  lemma ConcludeKeeps(st: State, actor: Actor, id: nat, input: OutcomeInput)
    requires Inv(st)
    ensures Sound(Conclude(st, actor, id, input))
  {
    hide MoneyOk, KeysOk, RefundsOk, AccountsOk, Post;
    if id < |st.payouts| && st.payouts[id].status in {Processing, Unknown} && input.status in {Succeeded, Failed, Unknown}
       && (input.status == Succeeded ==> input.providerReference.Some?)
    {
      var p := st.payouts[id];
      var reference := if input.providerReference.Some? then input.providerReference else p.providerReference;
      var p' := p.(status := input.status, providerReference := reference, evidence := Some(input.evidence));
      if input.status == Unknown {
        StatusChange(st, id, p');
      } else {
        var destination := if input.status == Succeeded then CLEARING else p.account;
        var posting := Posting(PayoutClosed(id), if input.status == Succeeded then PayoutPaid else PayoutFailed, Some(actor.id),
                               Transfer(p.account, Reserved, destination, Available, p.amount));
        ClosePosted(st, Some(actor.id), id, p', destination, posting);
      }
    }
  }

  /** Every call, whatever its arguments, actor and time. */
  lemma StepKeeps(st: State, c: Call)
    requires Inv(st)
    ensures Sound(Step(st, c))
  {
    hide Inv, Sound, CreateAccount, BindReferral, CreateRule, DisableRule, Capture, Refund, Release, ReleaseOneDue,
      RequestPayout, Approve, Process, Reject, Conclude;
    match c.op
    case OpCreateAccount(id, externalId, name, kind, parent) => CreateAccountKeeps(st, c.actor, id, externalId, name, kind, parent);
    case OpBindReferral(customer, promoter) => BindReferralKeeps(st, c.actor, customer, promoter);
    case OpCreateRule(rule) => CreateRuleKeeps(st, c.actor, rule);
    case OpDisableRule(id) => DisableRuleKeeps(st, c.actor, id);
    case OpCapture(input) => CaptureKeeps(st, c.actor, c.now, input);
    case OpRefund(id, input) => RefundKeeps(st, c.actor, id, input);
    case OpRelease(id) => ReleaseKeeps(st, c.actor, c.now, id);
    case OpReleaseOneDue(skip) => ReleaseOneDueKeeps(st, c.now, skip);
    case OpRequestPayout(input) => RequestPayoutKeeps(st, c.actor, input);
    case OpApprove(id) => ApproveKeeps(st, c.actor, id);
    case OpProcess(id, reason) => ProcessKeeps(st, c.actor, id, reason);
    case OpReject(id, reason) => RejectKeeps(st, c.actor, id, reason);
    case OpConclude(id, input) => ConcludeKeeps(st, c.actor, id, input);
  }
}

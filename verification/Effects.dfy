/** What each call does to the rows and the money, and exactly when it goes through, in terms
    of the database before it and the request alone (src/service/catalog.rs,
    src/service/orders.rs, src/service/payouts.rs). */
module Effects {
  import opened Wrappers
  import opened Errors
  import opened Sums
  import opened Domain
  import opened Ledger
  import opened Model
  import opened Invariants
  import opened Postings
  import opened StepProofs
  import opened Runs
  import opened Overflow

  /** Every wallet cell moves by `change`, and one journal is added: under this key, balanced,
      with one non-zero entry for each changed cell, in the order of the cells. */
  ghost predicate Posted(books: Books, books': Books, key: EventKey, kind: Kind, actor: Option<ActorId>,
                         change: (AccountId, Bucket) -> int)
  {
    && books'.wallets.Keys == books.wallets.Keys
    && (forall a, b :: a in books.wallets ==> books'.wallets[a].Cell(b) == books.wallets[a].Cell(b) + change(a, b))
    && exists j :: Records(j, key, kind, actor, change) && books'.journals == books.journals + [j]
  }

  ghost predicate Records(j: Journal, key: EventKey, kind: Kind, actor: Option<ActorId>, change: (AccountId, Bucket) -> int) {
    && j.key == key && j.kind == kind && j.actor == actor && Balanced(j)
    && Ascending(j.entries) && (forall e :: e in j.entries ==> e.delta != 0)
    && forall a, b :: Net(j.entries, a, b) == change(a, b)
  }

  lemma PostingRecorded(books: Books, p: Posting, change: (AccountId, Bucket) -> int, a: AccountId, b: Bucket)
    requires Post(books, p).Ok? && (forall a, b :: Net(p.lines, a, b) == change(a, b))
    requires a in books.wallets && change(a, b) != 0
    ensures Posted(books, Post(books, p).value, p.key, p.kind, p.actor, change)
  {
    hide Post;
    PostEffect(books, p);
    var books' := Post(books, p).value;
    assert books'.wallets[a].Cell(b) != books.wallets[a].Cell(b);
    var j :| books'.journals == books.journals + [j] && j.key == p.key && j.kind == p.kind && j.actor == p.actor
             && Balanced(j) && Ascending(j.entries) && (forall e :: e in j.entries ==> e.delta != 0)
             && forall a, b :: Net(j.entries, a, b) == Net(p.lines, a, b);
    assert Records(j, p.key, p.kind, p.actor, change);
  }

  /** An amount leaves one cell for another. */
  function Moving(from: AccountId, fromBucket: Bucket, to: AccountId, toBucket: Bucket, amount: int): (AccountId, Bucket) -> int {
    (a: AccountId, b: Bucket) => (if a == to && b == toBucket then amount else 0) - (if a == from && b == fromBucket then amount else 0)
  }

  lemma TransferPosts(books: Books, p: Posting, from: AccountId, fromBucket: Bucket, to: AccountId, toBucket: Bucket, amount: int)
    requires Positive(amount) && (from != to || fromBucket != toBucket) && from in books.wallets && to in books.wallets
    requires p.lines == Transfer(from, fromBucket, to, toBucket, amount) && !KeyUsed(books.journals, p.key)
    ensures Post(books, p).Ok?
            <==> && CanTake(books.wallets[from].Cell(fromBucket) - amount, fromBucket)
                 && CanTake(books.wallets[to].Cell(toBucket) + amount, toBucket)
    ensures Post(books, p).Ok? ==>
              Posted(books, Post(books, p).value, p.key, p.kind, p.actor, Moving(from, fromBucket, to, toBucket, amount))
  {
    hide Post, Posted, Net, CellTakes, Combine, InI64;
    TransferNet(from, fromBucket, to, toBucket, amount);
    CombineSound(p.lines);
    PostSucceedsIff(books, p);
    var change := Moving(from, fromBucket, to, toBucket, amount);
    CellTakesIt(books, p.lines, from, fromBucket);
    CellTakesIt(books, p.lines, to, toBucket);
    assert forall a, b :: Net(p.lines, a, b) == change(a, b);
    if Post(books, p).Ok? {
      PostingRecorded(books, p, change, to, toBucket);
    }
  }

  lemma CellTakesIt(books: Books, lines: seq<Line>, a: AccountId, b: Bucket)
    requires a in books.wallets && InI64(Net(lines, a, b))
    ensures CellTakes(books, lines, a, b) <==> CanTake(books.wallets[a].Cell(b) + Net(lines, a, b), b)
  {
  }

  /** A value a wallet column can hold: in range, and not negative where a CHECK says so. */
  predicate CanTake(value: int, bucket: Bucket) {
    InI64(value) && (bucket != Available ==> value >= 0)
  }

  // ---------------------------------------------------------- BIGINT columns

  ghost predicate InRange(books: Books) {
    forall a, b :: a in books.wallets ==> InI64(books.wallets[a].Cell(b))
  }

  lemma PostInRange(books: Books, p: Posting)
    requires InRange(books) && Post(books, p).Ok?
    ensures InRange(Post(books, p).value)
  {
    hide Post, Combine;
    PostSucceedsIff(books, p);
    PostEffect(books, p);
    forall a, b | a in books.wallets
      ensures InI64(Post(books, p).value.wallets[a].Cell(b))
    {
      assert Net(p.lines, a, b) != 0 ==> CellTakes(books, p.lines, a, b);
    }
  }

  function WithWallet(books: Books, a: AccountId): Books {
    books.(wallets := books.wallets[a := Wallet(0, 0, 0)])
  }

  /** All a call can do to the books: nothing, one posting, or a new empty wallet. */
  ghost predicate BooksStep(books: Books, books': Books) {
    books' == books || (exists p :: Post(books, p) == Ok(books')) || (exists a: AccountId :: books' == WithWallet(books, a))
  }

  ghost predicate BooksDo(books: Books, r: Outcome<State>) {
    r.Ok? ==> BooksStep(books, r.value.books)
  }

  lemma CreateAccountBooks(st: State, actor: Actor, id: AccountId, externalId: string, name: string, kind: AccountKind, parent: Option<AccountId>)
    ensures BooksDo(st.books, CreateAccount(st, actor, id, externalId, name, kind, parent))
  {
    hide Text, AccountError;
    var r := CreateAccount(st, actor, id, externalId, name, kind, parent);
    assert r.Ok? ==> r.value.books == WithWallet(st.books, id);
  }

  lemma OrderBooks(st: State, actor: Actor, now: int, capture: CaptureInput, id: nat, refund: RefundInput)
    ensures BooksDo(st.books, Capture(st, actor, now, capture))
    ensures BooksDo(st.books, Refund(st, actor, id, refund))
  {
    hide Post, Quote, Text;
  }

  lemma ReleaseBooks(st: State, actor: Option<ActorId>, now: int, id: nat)
    requires id < |st.orders|
    ensures BooksDo(st.books, ReleaseLocked(st, actor, now, id))
  {
    hide Post;
  }

  lemma PayoutBooks(st: State, actor: Actor, request: PayoutInput, id: nat, reason: string, outcome: OutcomeInput)
    ensures BooksDo(st.books, RequestPayout(st, actor, request))
    ensures BooksDo(st.books, Reject(st, actor, id, reason))
    ensures BooksDo(st.books, Conclude(st, actor, id, outcome))
  {
    hide Post, Text;
  }

  lemma StepBooks(st: State, c: Call)
    ensures BooksStep(st.books, After(st, c).books)
  {
    hide Capture, Refund, ReleaseLocked, RequestPayout, Reject, Conclude, CreateAccount, BooksStep;
    assert BooksStep(st.books, st.books) by { NothingPosted(st.books); }
    match c.op
    case OpCreateAccount(id, externalId, name, kind, parent) => CreateAccountBooks(st, c.actor, id, externalId, name, kind, parent);
    case OpCapture(input) => OrderBooks(st, c.actor, c.now, input, 0, RefundInput("", 0, ""));
    case OpRefund(id, input) => OrderBooks(st, c.actor, c.now, CaptureInput("", true, 0, None, 0, 0), id, input);
    case OpRelease(id) =>
      if id < |st.orders| {
        ReleaseBooks(st, Some(c.actor.id), c.now, id);
      }
    case OpReleaseOneDue(skip) =>
      if exists i: nat :: FirstDue(st.orders, c.now, skip, i) {
        var i: nat :| FirstDue(st.orders, c.now, skip, i) && Step(st, c) == ReleaseLocked(st, None, c.now, i);
        ReleaseBooks(st, None, c.now, i);
      }
    case OpRequestPayout(input) => PayoutBooks(st, c.actor, input, 0, "", OutcomeInput(Unknown, None, ""));
    case OpReject(id, reason) => PayoutBooks(st, c.actor, PayoutInput("", 0, 0, ""), id, reason, OutcomeInput(Unknown, None, ""));
    case OpConclude(id, input) => PayoutBooks(st, c.actor, PayoutInput("", 0, 0, ""), id, "", input);
    case _ =>
  }

  lemma NothingPosted(books: Books)
    ensures BooksStep(books, books)
  {
  }

  lemma {:induction false} RunInRange(st: State, calls: seq<Call>)
    requires InRange(st.books)
    ensures InRange(Run(st, calls).books)
  {
    hide Step, Post;
    if calls != [] {
      var before := Run(st, calls[..|calls| - 1]);
      RunInRange(st, calls[..|calls| - 1]);
      StepBooks(before, calls[|calls| - 1]);
      if p :| Post(before.books, p) == Ok(Run(st, calls).books) {
        PostInRange(before.books, p);
      }
    }
  }

  /** No run ever leaves a wallet column outside BIGINT, or a protected one below zero. */
  lemma WalletsInRange(st: State, a: AccountId, b: Bucket)
    requires Reachable(st) && a in st.books.wallets
    ensures CanTake(st.books.wallets[a].Cell(b), b)
  {
    hide Step;
    var calls :| Run(INITIAL, calls) == st;
    RunInRange(INITIAL, calls);
    assert a in st.accounts by { ReachableSound(st); }
    DebtBound(st, a);
  }

  // ------------------------------------------------------------------- payouts

  /** A payout request goes through exactly if the actor may make it, its fields are in order,
      the account has the money, the number is new, and the reserve fits its column. It then
      leaves one more payout, waiting for review, and has moved the amount to reserved. */
  lemma RequestPayoutEffect(st: State, actor: Actor, input: PayoutInput)
    requires Reachable(st)
    ensures RequestPayout(st, actor, input).Ok?
            <==> && actor.role in {Admin, Operator, Member} && (actor.role == Member ==> actor.account == Some(input.account))
                 && Text(input.externalId, 96) && Text(input.destination, 160) && 0 < input.amount <= MAX_OPERATION_MINOR
                 && input.account in st.accounts && st.accounts[input.account].active && input.account != CLEARING
                 && input.account in st.books.wallets && input.amount <= st.books.wallets[input.account].available
                 && st.books.wallets[input.account].reserved + input.amount <= I64_MAX
                 && forall i :: 0 <= i < |st.payouts| ==> st.payouts[i].externalId != input.externalId
    ensures RequestPayout(st, actor, input).Ok? ==>
              var st' := RequestPayout(st, actor, input).value;
              && st' == st.(payouts := st'.payouts, books := st'.books)
              && st'.payouts == st.payouts + [Payout(input.externalId, input.account, input.amount, input.destination,
                                                     Requested, actor.id, None, None, None)]
              && Posted(st.books, st'.books, PayoutReserved(|st.payouts|), PayoutReserve, Some(actor.id),
                        Moving(input.account, Available, input.account, Reserved, input.amount))
  {
    hide Post, Posted, Transfer, Text, MoneyOk, RowsOk, RefundsOk;
    ReachableSound(st);
    var a := input.account;
    if a in st.books.wallets && Positive(input.amount) && input.amount <= st.books.wallets[a].available {
      WalletsInRange(st, a, Available);
      WalletsInRange(st, a, Reserved);
      var p := Posting(PayoutReserved(|st.payouts|), PayoutReserve, Some(actor.id),
                       Transfer(a, Available, a, Reserved, input.amount));
      TransferPosts(st.books, p, a, Available, a, Reserved, input.amount);
    }
  }

  /** Approving needs another credential than the requester's and an account without debt. */
  lemma ApproveEffect(st: State, actor: Actor, id: nat)
    requires Reachable(st)
    ensures Approve(st, actor, id).Ok?
            <==> && actor.role in {Admin, Finance} && id < |st.payouts| && st.payouts[id].status == Requested
                 && st.payouts[id].requestedBy != actor.id
                 && st.payouts[id].account in st.books.wallets && st.books.wallets[st.payouts[id].account].available >= 0
    ensures Approve(st, actor, id).Ok? ==>
              var p, p' := st.payouts[id], Approve(st, actor, id).value.payouts[id];
              && Approve(st, actor, id).value == st.(payouts := st.payouts[id := p'])
              && p' == p.(status := p'.status, approvedBy := p'.approvedBy)
              && p'.status == Approved && p'.approvedBy == Some(actor.id)
  {
    hide Inv;
    ReachableSound(st);
  }

  /** Processing needs an approved payout, another credential, and an account without debt. */
  lemma ProcessEffect(st: State, actor: Actor, id: nat, reason: string)
    requires Reachable(st)
    ensures Process(st, actor, id, reason).Ok?
            <==> && actor.role in {Admin, Finance} && Text(reason, 400) && id < |st.payouts| && st.payouts[id].status == Approved
                 && st.payouts[id].requestedBy != actor.id
                 && st.payouts[id].account in st.books.wallets && st.books.wallets[st.payouts[id].account].available >= 0
    ensures Process(st, actor, id, reason).Ok? ==>
              var p, p' := st.payouts[id], Process(st, actor, id, reason).value.payouts[id];
              && Process(st, actor, id, reason).value == st.(payouts := st.payouts[id := p'])
              && p' == p.(status := p'.status, evidence := p'.evidence)
              && p'.status == Processing && p'.evidence == Some(reason)
  {
    hide Inv, Text;
    ReachableSound(st);
  }

  /** What closing payouts needs of a reachable state. */
  lemma OpenPayout(st: State, id: nat)
    requires Reachable(st) && id < |st.payouts| && st.payouts[id].Open()
    ensures Positive(st.payouts[id].amount) && st.payouts[id].account in st.books.wallets && CLEARING in st.books.wallets
    ensures st.payouts[id].account != CLEARING
    ensures !KeyUsed(st.books.journals, PayoutRejected(id)) && !KeyUsed(st.books.journals, PayoutClosed(id))
    ensures CanTake(st.books.wallets[st.payouts[id].account].reserved - st.payouts[id].amount, Reserved)
    ensures forall a :: a in st.books.wallets ==> InI64(st.books.wallets[a].available)
  {
    hide MoneyOk, RefundsOk, OrderOk;
    ReachableSound(st);
    var a := st.payouts[id].account;
    assert PayoutOk(st.payouts[id]);
    ReservedCovers(st, id);
    WalletsInRange(st, a, Reserved);
    forall a | a in st.books.wallets
      ensures InI64(st.books.wallets[a].available)
    {
      WalletsInRange(st, a, Available);
    }
  }

  /** The reserve of an account covers each of its open payouts. */
  lemma ReservedCovers(st: State, id: nat)
    requires Inv(st) && id < |st.payouts| && st.payouts[id].Open()
    ensures st.payouts[id].account in st.books.wallets
    ensures st.payouts[id].amount <= st.books.wallets[st.payouts[id].account].reserved
  {
    hide LedgerOk, DebtBounded, KeysOk, RefundsOk, OrderOk;
    var a := st.payouts[id].account;
    WalletsHaveClosedForm(st, a);
    forall i | 0 <= i < |st.payouts|
      ensures OpenAmount(a)(st.payouts[i]) >= 0
    {
      assert PayoutOk(st.payouts[i]);
    }
    SumNonNegative(st.payouts, OpenAmount(a));
  }

  /** Rejecting gives the reserve back to the account. */
  lemma RejectEffect(st: State, actor: Actor, id: nat, reason: string)
    requires Reachable(st)
    ensures Reject(st, actor, id, reason).Ok?
            <==> && actor.role in {Admin, Finance} && Text(reason, 400) && id < |st.payouts|
                 && st.payouts[id].status in {Requested, Approved} && st.payouts[id].account in st.books.wallets
                 && st.books.wallets[st.payouts[id].account].available + st.payouts[id].amount <= I64_MAX
    ensures Reject(st, actor, id, reason).Ok? ==>
              var p, st' := st.payouts[id], Reject(st, actor, id, reason).value;
              var p' := st'.payouts[id];
              && st' == st.(payouts := st.payouts[id := p'], books := st'.books)
              && p' == p.(status := p'.status, evidence := p'.evidence)
              && p'.status == Rejected && p'.evidence == Some(reason)
              && Posted(st.books, st'.books, PayoutRejected(id), PayoutReject, Some(actor.id),
                        Moving(p.account, Reserved, p.account, Available, p.amount))
  {
    hide Post, Posted, Transfer, Text, Reachable;
    if id < |st.payouts| && st.payouts[id].status in {Requested, Approved} {
      OpenPayout(st, id);
      var p := st.payouts[id];
      var posting := Posting(PayoutRejected(id), PayoutReject, Some(actor.id), Transfer(p.account, Reserved, p.account, Available, p.amount));
      TransferPosts(st.books, posting, p.account, Reserved, p.account, Available, p.amount);
    }
  }

  /** Where a closed payout's money goes: out through clearing, or back to the account. */
  function Destination(p: Payout, outcome: Status): AccountId {
    if outcome == Succeeded then CLEARING else p.account
  }

  /** An outcome is taken on a processing or unknown payout, from another credential than the
      requester's, a success only with a reference, and a reference only if no other payout
      holds it. An unknown outcome leaves the money reserved; a success sends it out through
      clearing, a failure back to the account. */
  lemma ConcludeEffect(st: State, actor: Actor, id: nat, input: OutcomeInput)
    requires Reachable(st)
    ensures Conclude(st, actor, id, input).Ok?
            <==> && actor.role in {Admin, Finance} && Text(input.evidence, 1000) && input.status in {Succeeded, Failed, Unknown}
                 && (input.providerReference.Some? ==> Text(input.providerReference.value, 160))
                 && (input.status == Succeeded ==> input.providerReference.Some?)
                 && id < |st.payouts| && st.payouts[id].status in {Processing, Unknown} && st.payouts[id].requestedBy != actor.id
                 && (input.providerReference.Some? ==>
                       forall i :: 0 <= i < |st.payouts| && i != id ==> st.payouts[i].providerReference != input.providerReference)
                 && (input.status != Unknown ==>
                       && Destination(st.payouts[id], input.status) in st.books.wallets
                       && st.books.wallets[Destination(st.payouts[id], input.status)].available + st.payouts[id].amount <= I64_MAX)
    ensures Conclude(st, actor, id, input).Ok? ==>
              var p, st' := st.payouts[id], Conclude(st, actor, id, input).value;
              var p' := st'.payouts[id];
              && st' == st.(payouts := st.payouts[id := p'], books := st'.books)
              && p' == p.(status := p'.status, providerReference := p'.providerReference, evidence := p'.evidence)
              && p'.status == input.status && p'.evidence == Some(input.evidence)
              && (input.providerReference.Some? ==> p'.providerReference == input.providerReference)
              && (input.providerReference.None? ==> p'.providerReference == p.providerReference)
              && (input.status == Unknown ==> st'.books == st.books)
              && (input.status == Succeeded ==>
                    Posted(st.books, st'.books, PayoutClosed(id), PayoutPaid, Some(actor.id),
                           Moving(p.account, Reserved, CLEARING, Available, p.amount)))
              && (input.status == Failed ==>
                    Posted(st.books, st'.books, PayoutClosed(id), PayoutFailed, Some(actor.id),
                           Moving(p.account, Reserved, p.account, Available, p.amount)))
  {
    hide Post, Posted, Transfer, Text, Reachable;
    if id < |st.payouts| && st.payouts[id].status in {Processing, Unknown} && input.status in {Succeeded, Failed} {
      OpenPayout(st, id);
      var p := st.payouts[id];
      var destination := Destination(p, input.status);
      var posting := Posting(PayoutClosed(id), if input.status == Succeeded then PayoutPaid else PayoutFailed, Some(actor.id),
                             Transfer(p.account, Reserved, destination, Available, p.amount));
      TransferPosts(st.books, posting, p.account, Reserved, destination, Available, p.amount);
    }
  }

  // -------------------------------------------------------------------- orders

  function OriginalTo(a: AccountId): Allocation -> int {
    (p: Allocation) => if p.account == a then p.original else 0
  }

  function RefundedTo(a: AccountId): Allocation -> int {
    (p: Allocation) => if p.account == a then p.refunded else 0
  }

  lemma NetIsOriginalLessRefunded(allocations: seq<Allocation>, a: AccountId)
    ensures SumBy(allocations, OriginalTo(a)) == SumBy(allocations, NetTo(a)) + SumBy(allocations, RefundedTo(a))
  {
    SumPlus(allocations, OriginalTo(a), allocations, NetTo(a), allocations, RefundedTo(a));
  }

  /** What a new order freezes: each account's shares, out of clearing. */
  function Freezing(o: Order): (AccountId, Bucket) -> int {
    (a: AccountId, b: Bucket) =>
      (if b == Frozen then SumBy(o.allocations, OriginalTo(a)) else 0) - (if a == CLEARING && b == Available then o.paid else 0)
  }

  lemma CaptureMoney(st: State, actor: Actor, now: int, input: CaptureInput)
    requires Reachable(st) && Capture(st, actor, now, input).Ok?
    ensures var st' := Capture(st, actor, now, input).value;
            && |st'.orders| == |st.orders| + 1
            && Posted(st.books, st'.books, OrderCaptured(|st.orders|), CaptureJournal, Some(actor.id), Freezing(st'.orders[|st.orders|]))
  {
    hide Post, Posted, Quote, OrderOk, MoneyOk, RowsOk, KeysOk, RefundsOk, Net, Text;
    ReachableSound(st);
    var q := Quote(st, input.merchant, input.customer, input.paid, input.base, now).value;
    QuoteAnswers(st, input, now);
    var o := Order(input.externalId, input.merchant, input.customer, input.paid, input.base, q.split.feePool, 0, q.rule,
                   now + st.rules[q.rule].terms.freezeSeconds, None, AllocationsFor(q, input.merchant));
    QuotedOrder(st, now, input, q, o);
    CaptureMoves(o);
    var p := Posting(OrderCaptured(|st.orders|), CaptureJournal, Some(actor.id), CaptureLines(input.paid, o.allocations));
    forall a, b
      ensures Net(p.lines, a, b) == Freezing(o)(a, b)
    {
      NetIsOriginalLessRefunded(o.allocations, a);
      SumZero(o.allocations, RefundedTo(a));
    }
    ClearingPays(o);
    PostingRecorded(st.books, p, Freezing(o), CLEARING, Available);
  }

  lemma ClearingPays(o: Order)
    requires OrderOk(o)
    ensures Freezing(o)(CLEARING, Available) < 0
  {
  }

  /** What a refund gives back: each account's part, from where its shares are held, into clearing. */
  function GivingBack(o: Order, o': Order): (AccountId, Bucket) -> int {
    (a: AccountId, b: Bucket) =>
      (if a == CLEARING && b == Available then o'.refunded - o.refunded else 0)
      - (if b == (if o.releasedAt.Some? then Available else Frozen)
         then SumBy(o'.allocations, RefundedTo(a)) - SumBy(o.allocations, RefundedTo(a)) else 0)
  }

  lemma RefundMoneyMoves(st: State, actor: Actor, id: nat, input: RefundInput)
    requires Reachable(st) && Refund(st, actor, id, input).Ok?
    ensures var st' := Refund(st, actor, id, input).value;
            && id < |st.orders| == |st'.orders|
            && Posted(st.books, st'.books, OrderRefunded(|st.refunds|), RefundJournal, Some(actor.id),
                      GivingBack(st.orders[id], st'.orders[id]))
  {
    hide Post, Posted, OrderOk, MoneyOk, RowsOk, KeysOk, RefundsOk, Net, Text, RefundLines;
    ReachableSound(st);
    var o, o' := st.orders[id], Refund(st, actor, id, input).value.orders[id];
    var targets := RefundTargets(st, id, input.amount);
    OrderIsOk(st, id);
    RefundMoves(o, o', input.amount, targets);
    var p := Posting(OrderRefunded(|st.refunds|), RefundJournal, Some(actor.id), RefundLines(o, input.amount, targets));
    GivingBackNets(o, o', p.lines);
    ClearingHoldsNothing(o, o');
    PostingRecorded(st.books, p, GivingBack(o, o'), CLEARING, Available);
  }

  lemma GivingBackNets(o: Order, o': Order, lines: seq<Line>)
    requires forall a, b :: Net(lines, a, b) == OrderCell(a, b)(o') - OrderCell(a, b)(o)
    requires o'.paid == o.paid && o'.releasedAt == o.releasedAt && |o'.allocations| == |o.allocations|
    requires forall i :: 0 <= i < |o.allocations| ==>
               o'.allocations[i].account == o.allocations[i].account && o'.allocations[i].original == o.allocations[i].original
    ensures forall a, b :: Net(lines, a, b) == GivingBack(o, o')(a, b)
  {
    hide Net;
    forall a, b
      ensures Net(lines, a, b) == GivingBack(o, o')(a, b)
    {
      NetIsOriginalLessRefunded(o.allocations, a);
      NetIsOriginalLessRefunded(o'.allocations, a);
      SumSame(o.allocations, OriginalTo(a), o'.allocations, OriginalTo(a));
    }
  }

  /** An accepted refund leaves one more refund row with the request's number, amount and
      reason and the new total, the order refunded that much further with its allocations
      apportioned anew and nothing else about it changed, and one journal of the difference. */
  lemma RefundEffect(st: State, actor: Actor, id: nat, input: RefundInput)
    requires Reachable(st) && Refund(st, actor, id, input).Ok?
    ensures var st' := Refund(st, actor, id, input).value;
            && id < |st.orders| == |st'.orders|
            && var o, o' := st.orders[id], st'.orders[id];
               && st' == st.(orders := st.orders[id := o'], refunds := st'.refunds, books := st'.books)
               && st'.refunds == st.refunds + [RefundRow(id, input.externalId, input.amount, o.refunded + input.amount, input.reason)]
               && o' == o.(refunded := o.refunded + input.amount, allocations := o'.allocations)
               && NonNegative(Originals(o.allocations)) && 0 <= o'.refunded <= Total(Originals(o.allocations))
               && |o'.allocations| == |o.allocations|
               && (forall i :: 0 <= i < |o.allocations| ==>
                     o'.allocations[i] == o.allocations[i].(refunded := Apportion(Originals(o.allocations), o'.refunded)[i]))
               && Posted(st.books, st'.books, OrderRefunded(|st.refunds|), RefundJournal, Some(actor.id), GivingBack(o, o'))
  {
    hide Post, Posted, Text, RefundLines, Reachable, GivingBack;
    RefundMoneyMoves(st, actor, id, input);
  }

  lemma OrderIsOk(st: State, id: nat)
    requires Inv(st) && id < |st.orders|
    ensures OrderOk(st.orders[id]) && Owned(st.orders[id].allocations, st.books.wallets)
  {
  }

  lemma ClearingHoldsNothing(o: Order, o': Order)
    requires OrderOk(o) && OrderOk(o')
    ensures GivingBack(o, o')(CLEARING, Available) == o'.refunded - o.refunded
  {
    SumZero(o.allocations, RefundedTo(CLEARING));
    SumZero(o'.allocations, RefundedTo(CLEARING));
  }

  /** What a release thaws: each account's net shares. */
  function Thawing(o: Order): (AccountId, Bucket) -> int {
    (a: AccountId, b: Bucket) =>
      if b == Frozen then -SumBy(o.allocations, NetTo(a)) else if b == Available then SumBy(o.allocations, NetTo(a)) else 0
  }

  /** The order is marked released now and nothing else about it changes; its net shares go
      from frozen to available, with one journal unless nothing is left of them. */
  ghost predicate Thawed(st: State, st': State, actor: Option<ActorId>, now: int, id: nat)
    requires id < |st.orders|
  {
    var o := st.orders[id];
    && st' == st.(orders := st.orders[id := o.(releasedAt := Some(now))], books := st'.books)
    && if o.refunded == o.paid then st'.books == st.books
       else Posted(st.books, st'.books, OrderReleased(id), ReleaseJournal, actor, Thawing(o))
  }

  /** The row locked, a release goes through, but for an overflow, exactly if the order is
      released already, which changes nothing, or its time has come. */
  lemma ReleaseLockedEffect(st: State, actor: Option<ActorId>, now: int, id: nat)
    requires Reachable(st) && id < |st.orders|
    ensures var r := ReleaseLocked(st, actor, now, id);
            && (r.Ok? || r == Err(OutOfRange) <==> st.orders[id].releasedAt.Some? || st.orders[id].unlockAt <= now)
            && (r.Ok? ==> if st.orders[id].releasedAt.Some? then r.value == st else Thawed(st, r.value, actor, now, id))
  {
    hide Post, Posted, OrderOk, MoneyOk, RowsOk, KeysOk, RefundsOk, Net, ReleaseLines, Overflows, Thawing;
    ReachableSound(st);
    ReleaseOverflow(st, actor, now, id);
    var o := st.orders[id];
    if o.releasedAt.None? && o.unlockAt <= now && ReleaseLocked(st, actor, now, id).Ok? {
      var p := Posting(OrderReleased(id), ReleaseJournal, actor, ReleaseLines(o.allocations));
      OrderIsOk(st, id);
      ThawingNets(o);
      if o.refunded == o.paid {
        NothingPostedFor(st.books, p);
      } else {
        var i := StillHolds(o);
        PostingRecorded(st.books, p, Thawing(o), o.allocations[i].account, Frozen);
      }
    }
  }

  lemma NothingPostedFor(books: Books, p: Posting)
    requires forall a, b :: Net(p.lines, a, b) == 0
    ensures Post(books, p) == Ok(books)
  {
    EmptyIff(p.lines);
  }

  lemma ThawingNets(o: Order)
    requires OrderOk(o)
    ensures forall a, b :: Net(ReleaseLines(o.allocations), a, b) == Thawing(o)(a, b)
    ensures o.refunded == o.paid ==> forall a, b :: Thawing(o)(a, b) == 0
  {
    hide OrderOk, Net, ReleaseLines;
    forall a, b
      ensures Net(ReleaseLines(o.allocations), a, b) == Thawing(o)(a, b)
    {
      ReleaseNet(o.allocations, a, b);
    }
    if o.refunded == o.paid {
      forall a ensures SumBy(o.allocations, NetTo(a)) == 0 {
        RefundedWhole(o, a);
      }
    }
  }

  lemma RefundedWhole(o: Order, a: AccountId)
    requires OrderOk(o) && o.refunded == o.paid
    ensures SumBy(o.allocations, NetTo(a)) == 0
  {
    ApportionEnds(Originals(o.allocations));
    SumZero(o.allocations, NetTo(a));
  }

  /** An order not wholly refunded still holds something for somebody. */
  lemma StillHolds(o: Order) returns (i: nat)
    requires OrderOk(o) && o.refunded < o.paid
    ensures i < |o.allocations| && Thawing(o)(o.allocations[i].account, Frozen) < 0
  {
    OrderSlots(o);
    if forall i :: 0 <= i < |o.allocations| ==> o.allocations[i].original <= o.allocations[i].refunded {
      SumSame(o.allocations, OriginalOf(), o.allocations, RefundedOf());
      assert false;
    }
    i :| i < |o.allocations| && o.allocations[i].original > o.allocations[i].refunded;
    SumNonNegative(o.allocations, NetTo(o.allocations[i].account));
  }

  lemma ReleaseEffect(st: State, actor: Actor, now: int, id: nat)
    requires Reachable(st)
    ensures var r := Release(st, actor, now, id);
            && (r.Ok? || r == Err(OutOfRange) <==>
                  && actor.role in {Admin, Operator, Finance} && id < |st.orders|
                  && (st.orders[id].releasedAt.Some? || st.orders[id].unlockAt <= now))
            && (r.Ok? ==> if st.orders[id].releasedAt.Some? then r.value == st else Thawed(st, r.value, Some(actor.id), now, id))
  {
    hide ReleaseLocked, Thawed, Reachable;
    if id < |st.orders| {
      ReleaseLockedEffect(st, Some(actor.id), now, id);
    }
  }
}

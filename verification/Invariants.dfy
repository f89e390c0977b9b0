/** What every reachable database state satisfies, and the five checks of `reconcile`
    (src/service/queries.rs). */
module Invariants {
  import opened Wrappers
  import opened Errors
  import opened Sums
  import opened Domain
  import opened Ledger
  import opened Model

  // ------------------------------------------- the closed form of the wallets

  /** What an allocation still holds for account `a`. */
  function NetTo(a: AccountId): Allocation -> int {
    (p: Allocation) => if p.account == a then p.original - p.refunded else 0
  }

  /** What an order contributes to one wallet cell: the net of its allocations where they
      are held, and the net paid amount on the clearing side. */
  function OrderCell(a: AccountId, b: Bucket): Order -> int {
    (o: Order) =>
      (if b == Holding(o) then SumBy(o.allocations, NetTo(a)) else 0)
      - (if a == CLEARING && b == Available then o.paid - o.refunded else 0)
  }

  /** What a payout contributes to one wallet cell. */
  function PayoutCell(a: AccountId, b: Bucket): Payout -> int {
    (p: Payout) =>
      (if b == Reserved && p.account == a && p.Open() then p.amount else 0)
      - (if b == Available && p.account == a && (p.Open() || p.status == Succeeded) then p.amount else 0)
      + (if b == Available && a == CLEARING && p.status == Succeeded then p.amount else 0)
  }

  /** The value a wallet cell must have, from orders and payouts alone. */
  function Expected(orders: seq<Order>, payouts: seq<Payout>, a: AccountId, b: Bucket): int {
    SumBy(orders, OrderCell(a, b)) + SumBy(payouts, PayoutCell(a, b))
  }

  ghost predicate Projects(books: Books, orders: seq<Order>, payouts: seq<Payout>) {
    forall a, b :: a in books.wallets ==> books.wallets[a].Cell(b) == Expected(orders, payouts, a, b)
  }

  // --------------------------------------------------------------- row validity

  /** The rows of one order agree: the allocations partition what was paid and what was
      refunded, the refunds exactly as the apportionment of the cumulative refund says. */
  ghost predicate OrderOk(o: Order) {
    && 0 < o.paid <= MAX_OPERATION_MINOR
    && 0 <= o.feePool <= o.base <= o.paid
    && 0 <= o.refunded <= o.paid
    && (o.releasedAt.Some? ==> o.unlockAt <= o.releasedAt.value)
    && 2 <= |o.allocations| <= 4
    && NonNegative(Originals(o.allocations))
    && Total(Originals(o.allocations)) == o.paid
    && forall i :: 0 <= i < |o.allocations| ==>
         o.allocations[i].account != CLEARING
         && o.allocations[i].refunded == Apportion(Originals(o.allocations), o.refunded)[i]
  }

  ghost predicate PayoutOk(p: Payout) {
    && Positive(p.amount) && p.account != CLEARING
    && (p.approvedBy.Some? ==> p.approvedBy != Some(p.requestedBy))
    && (p.status in {Approved, Processing, Unknown, Succeeded, Failed} ==> p.approvedBy.Some?)
    && (p.status == Requested ==> p.approvedBy == None)
    && (p.status == Succeeded ==> p.providerReference.Some? && p.evidence.Some?)
  }

  ghost predicate RowsOk(orders: seq<Order>, payouts: seq<Payout>, wallets: map<AccountId, Wallet>) {
    && (forall i :: 0 <= i < |orders| ==> OrderOk(orders[i]) && Owned(orders[i].allocations, wallets))
    && (forall i :: 0 <= i < |payouts| ==> PayoutOk(payouts[i]) && payouts[i].account in wallets)
  }

  ghost predicate Owned(allocations: seq<Allocation>, wallets: map<AccountId, Wallet>) {
    forall i :: 0 <= i < |allocations| ==> allocations[i].account in wallets
  }

  ghost predicate AccountsOk(accounts: map<AccountId, Account>, wallets: map<AccountId, Wallet>) {
    && accounts.Keys == wallets.Keys
    && PLATFORM in accounts && CLEARING in accounts
    && (forall a :: a in accounts ==> (accounts[a].kind == ClearingAccount <==> a == CLEARING))
  }

  // -------------------------------------------------------------------- refunds

  function RefundOf(order: nat): RefundRow -> int {
    (r: RefundRow) => if r.order == order then r.amount else 0
  }

  ghost predicate RefundsOk(orders: seq<Order>, refunds: seq<RefundRow>) {
    && (forall i :: 0 <= i < |refunds| ==> refunds[i].order < |orders|)
    && (forall i: nat :: i < |orders| ==> SumBy(refunds, RefundOf(i)) == orders[i].refunded)
  }

  // ------------------------------------------------------------------- journals

  function JournalCell(a: AccountId, b: Bucket): Journal -> int {
    (j: Journal) => Net(j.entries, a, b)
  }

  /** Every journal is balanced, and every wallet cell is the sum of its entries. */
  ghost predicate LedgerOk(books: Books) {
    && (forall i :: 0 <= i < |books.journals| ==>
          Balanced(books.journals[i]) && KnownAccounts(books.wallets, books.journals[i].entries))
    && (forall a, b :: a in books.wallets ==> books.wallets[a].Cell(b) == SumBy(books.journals, JournalCell(a, b)))
  }

  /** What a journal's event key says about the rows. */
  ghost predicate KeyFits(orders: seq<Order>, refunds: seq<RefundRow>, payouts: seq<Payout>, key: EventKey) {
    match key
    case OrderCaptured(i) => i < |orders|
    case OrderRefunded(i) => i < |refunds|
    case OrderReleased(i) => i < |orders| && orders[i].releasedAt.Some?
    case PayoutReserved(i) => i < |payouts|
    case PayoutRejected(i) => i < |payouts| && payouts[i].status == Rejected
    case PayoutClosed(i) => i < |payouts| && payouts[i].status in {Succeeded, Failed}
  }

  /** The journals a payout must have left behind. */
  ghost predicate Journalled(journals: seq<Journal>, p: Payout, i: nat) {
    && KeyUsed(journals, PayoutReserved(i))
    && (p.status == Rejected ==> KeyUsed(journals, PayoutRejected(i)))
    && (p.status in {Succeeded, Failed} ==> KeyUsed(journals, PayoutClosed(i)))
  }

  ghost predicate KeysOk(journals: seq<Journal>, orders: seq<Order>, refunds: seq<RefundRow>, payouts: seq<Payout>) {
    && (forall i :: 0 <= i < |journals| ==> KeyFits(orders, refunds, payouts, journals[i].key))
    && (forall i, j :: 0 <= i < j < |journals| ==> journals[i].key != journals[j].key)
    && (forall i: nat :: i < |payouts| ==> Journalled(journals, payouts[i], i))
  }

  // ----------------------------------------------------------------------- debt

  /** What a refund journal took from the available bucket of an account, which happens
      only to orders already released. */
  function Clawback(a: AccountId): Journal -> int {
    (j: Journal) => if j.kind == RefundJournal then -Net(j.entries, a, Available) else 0
  }

  ghost predicate DebtBounded(books: Books) {
    && (forall a, i :: a != CLEARING && 0 <= i < |books.journals| ==> Clawback(a)(books.journals[i]) >= 0)
    && (forall a :: a in books.wallets && a != CLEARING ==>
          books.wallets[a].available >= -SumBy(books.journals, Clawback(a)))
  }

  /** The books agree with the rows, with their journals, and with the debt bound. */
  ghost predicate MoneyOk(books: Books, orders: seq<Order>, payouts: seq<Payout>) {
    Projects(books, orders, payouts) && LedgerOk(books) && DebtBounded(books)
  }

  ghost predicate Inv(st: State) {
    && AccountsOk(st.accounts, st.books.wallets)
    && RowsOk(st.orders, st.payouts, st.books.wallets)
    && MoneyOk(st.books, st.orders, st.payouts)
    && RefundsOk(st.orders, st.refunds)
    && KeysOk(st.books.journals, st.orders, st.refunds, st.payouts)
  }

  // ------------------------------------------------------------------ reconcile

  function OriginalOf(): Allocation -> int { (p: Allocation) => p.original }

  function RefundedOf(): Allocation -> int { (p: Allocation) => p.refunded }

  function OpenAmount(a: AccountId): Payout -> int {
    (p: Payout) => if p.account == a && p.Open() then p.amount else 0
  }

  /** The five conditions whose conjunction `reconcile` reports as ok: no unbalanced
      journal and no wallet, allocation, refund or reserved difference. */
  ghost predicate Reconciles(st: State) {
    && (forall i :: 0 <= i < |st.books.journals| ==> Balanced(st.books.journals[i]))
    && (forall a, b :: a in st.books.wallets ==>
          st.books.wallets[a].Cell(b) == SumBy(st.books.journals, JournalCell(a, b)))
    && (forall i :: 0 <= i < |st.orders| ==>
          && SumBy(st.orders[i].allocations, OriginalOf()) == st.orders[i].paid
          && SumBy(st.orders[i].allocations, RefundedOf()) == st.orders[i].refunded)
    && (forall i: nat :: i < |st.orders| ==> SumBy(st.refunds, RefundOf(i)) == st.orders[i].refunded)
    && (forall a :: a in st.books.wallets ==> st.books.wallets[a].reserved == SumBy(st.payouts, OpenAmount(a)))
  }
}

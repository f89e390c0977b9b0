/** The locks of concurrent transactions: the idempotency row with the key lock its foreign
    key puts on the acting credential (src/transaction.rs), the advisory locks
    (src/service/catalog.rs, src/service/orders.rs), the business row, and the wallets of a
    posting (src/ledger.rs). */
module Locks {
  import opened Wrappers
  import opened Ledger
  import Model

  /** All locks are exclusive but one: `ActorKey` is the shared FOR KEY SHARE lock on the row
      that `CredentialRow` locks FOR UPDATE. */
  datatype Lock =
    | Claimed(claim: nat)
    | ActorKey(credential: nat)
    | Customer(hash: nat)
    | Administrators
    | OrderRow(order: nat)
    | PayoutRow(payout: nat)
    | CredentialRow(credential: nat)
    | ConnectionRow(connection: nat)
    | CheckpointRow(checkpoint: nat)
    | EventRow(place: nat)
    | WalletRow(account: AccountId)

  /** Two transactions cannot hold these at the same time. */
  predicate Conflicts(l: Lock, m: Lock) {
    if l.ActorKey? then m == CredentialRow(l.credential)
    else if m.ActorKey? then l == CredentialRow(m.credential)
    else l == m
  }

  /** The transactions that lock something explicitly, with the credential behind them and the
      posting lines they send. */
  datatype Transaction =
    | Plain(claim: nat, actor: nat)
    | BindReferral(claim: nat, actor: nat, customer: nat)
    | Capture(claim: nat, actor: nat, buyer: Option<nat>, lines: seq<Line>)
    | RefundOrRelease(claim: nat, actor: nat, order: nat, lines: seq<Line>)
    | WorkerRelease(order: nat, lines: seq<Line>)
    | RequestPayout(claim: nat, actor: nat, account: AccountId, amount: int)
    | CheckPayout(claim: nat, actor: nat, payout: nat, account: AccountId)
    | SettlePayout(claim: nat, actor: nat, payout: nat, lines: seq<Line>)
    | RevokeCredential(claim: nat, actor: nat, target: nat)
    | SetConnection(claim: nat, actor: nat, connection: nat)
    | AdvanceCheckpoint(checkpoint: nat)
    | ClaimEvents(taken: set<nat>, size: nat)
    | Bootstrap

  /** Locking what is already held takes nothing new. */
  function Acquire(held: seq<Lock>, locks: seq<Lock>): seq<Lock>
    decreases locks
  {
    if locks == [] then held
    else Acquire(if locks[0] in held then held else held + [locks[0]], locks[1..])
  }

  /** `post` locks the accounts of its combined entries in one query, ordered by account. */
  function WalletLocks(entries: seq<Line>): seq<Lock> {
    if entries == [] then []
    else
      var before, last := WalletLocks(entries[..|entries| - 1]), WalletRow(entries[|entries| - 1].account);
      if last in before then before else before + [last]
  }

  function PostLocks(lines: seq<Line>): seq<Lock> {
    WalletLocks(Combine(lines))
  }

  /** The events an outbox claim takes, in the order of its query. */
  function EventLocks(taken: set<nat>, size: nat): seq<Lock> {
    if size == 0 then []
    else EventLocks(taken, size - 1) + (if size - 1 in taken then [EventRow(size - 1)] else [])
  }

  /** `Work::begin`: the idempotency row, whose insertion checks its foreign key. */
  function Begun(claim: nat, actor: nat): seq<Lock> {
    [Claimed(claim), ActorKey(actor)]
  }

  /** The locks a transaction takes, in order. */
  function LocksOf(t: Transaction): seq<Lock> {
    match t
    case Plain(claim, actor) => Begun(claim, actor)
    case BindReferral(claim, actor, customer) => Begun(claim, actor) + [Customer(customer)]
    case Capture(claim, actor, buyer, lines) =>
      Begun(claim, actor) + (if buyer.Some? then [Customer(buyer.value)] else []) + PostLocks(lines)
    case RefundOrRelease(claim, actor, order, lines) => Begun(claim, actor) + [OrderRow(order)] + PostLocks(lines)
    case WorkerRelease(order, lines) => [OrderRow(order)] + PostLocks(lines)
    case RequestPayout(claim, actor, account, amount) =>
      Acquire(Begun(claim, actor) + [WalletRow(account)],
              PostLocks(Model.Transfer(account, Available, account, Reserved, amount)))
    case CheckPayout(claim, actor, payout, account) => Begun(claim, actor) + [PayoutRow(payout), WalletRow(account)]
    case SettlePayout(claim, actor, payout, lines) => Begun(claim, actor) + [PayoutRow(payout)] + PostLocks(lines)
    case RevokeCredential(claim, actor, target) => Begun(claim, actor) + [Administrators, CredentialRow(target)]
    case SetConnection(claim, actor, connection) => Begun(claim, actor) + [ConnectionRow(connection)]
    case AdvanceCheckpoint(checkpoint) => [CheckpointRow(checkpoint)]
    case ClaimEvents(taken, size) => EventLocks(taken, size)
    case Bootstrap => [Administrators]
  }

  function Rank(l: Lock): nat {
    match l
    case Claimed(_) => 0
    case ActorKey(_) => 1
    case Customer(_) | Administrators => 2
    case OrderRow(_) | PayoutRow(_) | CredentialRow(_) | ConnectionRow(_) | CheckpointRow(_) => 3
    case EventRow(place) => place
    case WalletRow(account) => 4 + account
  }

  ghost predicate Increasing(locks: seq<Lock>) {
    forall i, j :: 0 <= i < j < |locks| ==> Rank(locks[i]) < Rank(locks[j])
  }

  // --------------------------------------------------------- one lock order

  lemma {:induction false} WalletLocksTouch(entries: seq<Line>)
    ensures forall l :: l in WalletLocks(entries) ==> exists i :: 0 <= i < |entries| && l == WalletRow(entries[i].account)
    ensures forall i :: 0 <= i < |entries| ==> WalletRow(entries[i].account) in WalletLocks(entries)
  {
    if entries != [] {
      var n := |entries| - 1;
      var before := entries[..n];
      WalletLocksTouch(before);
      forall i | 0 <= i < n ensures WalletRow(entries[i].account) in WalletLocks(entries) {
        assert before[i] == entries[i];
      }
      forall l | l in WalletLocks(before) ensures exists i :: 0 <= i < |entries| && l == WalletRow(entries[i].account) {
        var i :| 0 <= i < |before| && l == WalletRow(before[i].account);
        assert entries[i] == before[i];
      }
    }
  }

  lemma {:induction false} WalletLocksIncrease(entries: seq<Line>)
    requires Ascending(entries)
    ensures Increasing(WalletLocks(entries))
    ensures entries != [] ==>
              WalletLocks(entries) != [] && WalletLocks(entries)[|WalletLocks(entries)| - 1] == WalletRow(entries[|entries| - 1].account)
  {
    if entries != [] {
      var n := |entries| - 1;
      var before := entries[..n];
      PrefixAscends(entries, n);
      WalletLocksIncrease(before);
      if n > 0 {
        AscendingAt(entries, n - 1, n);
        assert before[n - 1] == entries[n - 1];
        LastIsHighest(WalletLocks(before), WalletRow(entries[n].account));
      }
    }
  }

  /** A lock at least as high as the last one is the last one or new. */
  lemma LastIsHighest(locks: seq<Lock>, l: Lock)
    requires Increasing(locks) && locks != [] && l.WalletRow? && Rank(locks[|locks| - 1]) <= Rank(l)
    ensures l in locks ==> l == locks[|locks| - 1]
    ensures l !in locks && Rank(locks[|locks| - 1]) < Rank(l) ==> Increasing(locks + [l])
  {
  }

  lemma {:induction false} PrefixAscends(entries: seq<Line>, n: nat)
    requires Ascending(entries) && n <= |entries|
    ensures Ascending(entries[..n])
  {
    if n > 0 {
      PrefixAscends(entries[1..], n - 1);
      assert entries[..n][1..] == entries[1..][..n - 1];
    }
  }

  /** A posting locks exactly the wallets its entries touch, in increasing order. */
  lemma PostLocksIncrease(lines: seq<Line>)
    ensures Increasing(PostLocks(lines))
    ensures forall l :: l in PostLocks(lines) ==> l.WalletRow?
    ensures forall e :: e in Combine(lines) ==> WalletRow(e.account) in PostLocks(lines)
  {
    CombineSound(lines);
    WalletLocksIncrease(Combine(lines));
    WalletLocksTouch(Combine(lines));
  }

  lemma {:induction false} NothingNew(held: seq<Lock>, locks: seq<Lock>)
    requires forall l :: l in locks ==> l in held
    ensures Acquire(held, locks) == held
  {
    if locks != [] {
      NothingNew(held, locks[1..]);
    }
  }

  lemma RequestLocks(claim: nat, actor: nat, account: AccountId, amount: int)
    ensures LocksOf(RequestPayout(claim, actor, account, amount)) == Begun(claim, actor) + [WalletRow(account)]
  {
    var lines := Model.Transfer(account, Available, account, Reserved, amount);
    CombineSound(lines);
    WalletLocksTouch(Combine(lines));
    NothingNew(Begun(claim, actor) + [WalletRow(account)], PostLocks(lines));
  }

  lemma {:induction false} EventLocksIncrease(taken: set<nat>, size: nat)
    ensures Increasing(EventLocks(taken, size))
    ensures forall l :: l in EventLocks(taken, size) ==> Rank(l) < size
  {
    if size > 0 {
      EventLocksIncrease(taken, size - 1);
      var before := EventLocks(taken, size - 1);
      assert forall i :: 0 <= i < |before| ==> before[i] in before;
    }
  }

  lemma ThenWallets(first: seq<Lock>, wallets: seq<Lock>)
    requires Increasing(first) && Increasing(wallets)
    requires forall l :: l in first ==> Rank(l) < 4
    requires forall l :: l in wallets ==> l.WalletRow?
    ensures Increasing(first + wallets)
  {
    assert forall i :: 0 <= i < |first| ==> first[i] in first;
    assert forall i :: 0 <= i < |wallets| ==> wallets[i] in wallets;
  }

  /** A posting behind locks lower than wallets. */
  lemma PostingIncreases(first: seq<Lock>, lines: seq<Line>)
    requires Increasing(first) && forall l :: l in first ==> Rank(l) < 4
    ensures Increasing(first + PostLocks(lines))
  {
    hide PostLocks, Rank;
    PostLocksIncrease(lines);
    ThenWallets(first, PostLocks(lines));
  }

  lemma CaptureIncreases(claim: nat, actor: nat, buyer: Option<nat>, lines: seq<Line>)
    ensures Increasing(LocksOf(Capture(claim, actor, buyer, lines)))
  {
    if buyer.Some? {
      PostingIncreases(Begun(claim, actor) + [Customer(buyer.value)], lines);
    } else {
      assert Begun(claim, actor) + [] == Begun(claim, actor);
      PostingIncreases(Begun(claim, actor), lines);
    }
  }

  lemma PlainIncreases(t: Transaction)
    requires !t.Capture? && !t.RefundOrRelease? && !t.WorkerRelease? && !t.SettlePayout? && !t.RequestPayout? && !t.ClaimEvents?
    ensures Increasing(LocksOf(t))
  {
  }

  /** Every transaction takes its locks in one strictly increasing order. */
  lemma LocksIncrease(t: Transaction)
    ensures Increasing(LocksOf(t))
  {
    match t
    case Capture(claim, actor, buyer, lines) => CaptureIncreases(claim, actor, buyer, lines);
    case RefundOrRelease(claim, actor, order, lines) => PostingIncreases(Begun(claim, actor) + [OrderRow(order)], lines);
    case WorkerRelease(order, lines) => PostingIncreases([OrderRow(order)], lines);
    case SettlePayout(claim, actor, payout, lines) => PostingIncreases(Begun(claim, actor) + [PayoutRow(payout)], lines);
    case RequestPayout(claim, actor, account, amount) =>
      hide Acquire, PostLocks;
      RequestLocks(claim, actor, account, amount);
    case ClaimEvents(taken, size) => EventLocksIncrease(taken, size);
    case _ => PlainIncreases(t);
  }

  // ------------------------------------------------- where some locks stand

  lemma {:induction false} EventLocksAreEvents(taken: set<nat>, size: nat)
    ensures forall l :: l in EventLocks(taken, size) ==> l.EventRow?
  {
    if size > 0 {
      EventLocksAreEvents(taken, size - 1);
    }
  }

  /** Only the claim, the key lock, the customer, the administrators and the credential are
      taken before the rows and wallets, and where. */
  lemma Places(t: Transaction, i: nat)
    requires i < |LocksOf(t)|
    ensures LocksOf(t)[i].ActorKey? ==>
              i == 1 && !t.WorkerRelease? && !t.AdvanceCheckpoint? && !t.ClaimEvents? && !t.Bootstrap?
              && LocksOf(t)[i] == ActorKey(t.actor)
    ensures LocksOf(t)[i].Administrators? ==> t.Bootstrap? || (t.RevokeCredential? && i == 2)
    ensures LocksOf(t)[i].CredentialRow? ==> t.RevokeCredential? && i == 3 && LocksOf(t)[i] == CredentialRow(t.target)
    ensures LocksOf(t)[i].Customer? ==> i == 2 && (t.BindReferral? || t.Capture?)
  {
    hide PostLocks;
    match t
    case Capture(claim, actor, buyer, lines) =>
      var first := Begun(claim, actor) + (if buyer.Some? then [Customer(buyer.value)] else []);
      assert first == if buyer.Some? then [Claimed(claim), ActorKey(actor), Customer(buyer.value)] else Begun(claim, actor);
      BeforeWallets(first, lines, i);
    case RefundOrRelease(claim, actor, order, lines) => BeforeWallets(Begun(claim, actor) + [OrderRow(order)], lines, i);
    case WorkerRelease(order, lines) => BeforeWallets([OrderRow(order)], lines, i);
    case SettlePayout(claim, actor, payout, lines) => BeforeWallets(Begun(claim, actor) + [PayoutRow(payout)], lines, i);
    case RequestPayout(claim, actor, account, amount) => RequestLocks(claim, actor, account, amount);
    case ClaimEvents(taken, size) =>
      EventLocksAreEvents(taken, size);
      assert LocksOf(t)[i] in EventLocks(taken, size);
    case _ =>
  }

  /** A lock is one of the first ones or a wallet. */
  lemma BeforeWallets(first: seq<Lock>, lines: seq<Line>, i: nat)
    requires i < |first + PostLocks(lines)|
    ensures if i < |first| then (first + PostLocks(lines))[i] == first[i] else (first + PostLocks(lines))[i].WalletRow?
  {
    hide PostLocks;
    PostLocksIncrease(lines);
    if i >= |first| {
      assert PostLocks(lines)[i - |first|] in PostLocks(lines);
    }
  }

  /** Behind the customer come only wallets. */
  lemma AfterCustomer(t: Transaction, i: nat, j: nat)
    requires i < j < |LocksOf(t)| && LocksOf(t)[i].Customer?
    ensures Rank(LocksOf(t)[j]) >= 4
  {
    hide PostLocks;
    Places(t, i);
    if t.Capture? {
      var first := Begun(t.claim, t.actor) + (if t.buyer.Some? then [Customer(t.buyer.value)] else []);
      assert |first| <= 3;
      BeforeWallets(first, t.lines, j);
    }
  }

  // --------------------------------------------------- what a transaction locks

  ghost predicate Moves(lines: seq<Line>, a: AccountId) {
    exists e :: e in Combine(lines) && e.account == a
  }

  /** The rows and names a transaction works on. */
  ghost predicate WorksOn(t: Transaction, l: Lock) {
    var claims := !(t.WorkerRelease? || t.AdvanceCheckpoint? || t.ClaimEvents? || t.Bootstrap?);
    match l
    case Claimed(claim) => claims && t.claim == claim
    case ActorKey(credential) => claims && t.actor == credential
    case Customer(hash) => (t.BindReferral? && t.customer == hash) || (t.Capture? && t.buyer == Some(hash))
    case Administrators => t.RevokeCredential? || t.Bootstrap?
    case OrderRow(order) => (t.RefundOrRelease? || t.WorkerRelease?) && t.order == order
    case PayoutRow(payout) => (t.CheckPayout? || t.SettlePayout?) && t.payout == payout
    case CredentialRow(credential) => t.RevokeCredential? && t.target == credential
    case ConnectionRow(connection) => t.SetConnection? && t.connection == connection
    case CheckpointRow(checkpoint) => t.AdvanceCheckpoint? && t.checkpoint == checkpoint
    case EventRow(place) => t.ClaimEvents? && place < t.size && place in t.taken
    case WalletRow(account) =>
      || ((t.RequestPayout? || t.CheckPayout?) && t.account == account)
      || ((t.Capture? || t.RefundOrRelease? || t.WorkerRelease? || t.SettlePayout?) && Moves(t.lines, account))
  }

  lemma PostLocksAre(lines: seq<Line>, l: Lock)
    ensures l in PostLocks(lines) <==> l.WalletRow? && Moves(lines, l.account)
  {
    WalletLocksTouch(Combine(lines));
    PostLocksIncrease(lines);
    if l in PostLocks(lines) {
      var i :| 0 <= i < |Combine(lines)| && l == WalletRow(Combine(lines)[i].account);
      assert Combine(lines)[i] in Combine(lines);
    }
  }

  lemma {:induction false} EventLocksAre(taken: set<nat>, size: nat, l: Lock)
    ensures l in EventLocks(taken, size) <==> l.EventRow? && l.place < size && l.place in taken
  {
    if size > 0 {
      EventLocksAre(taken, size - 1, l);
    }
  }

  /** A transaction locks exactly what it works on. */
  lemma LocksAreItsWork(t: Transaction, l: Lock)
    ensures l in LocksOf(t) <==> WorksOn(t, l)
  {
    hide PostLocks, EventLocks, Moves, Acquire;
    match t
    case Capture(_, _, _, lines) => PostLocksAre(lines, l);
    case RefundOrRelease(_, _, _, lines) => PostLocksAre(lines, l);
    case WorkerRelease(_, lines) => PostLocksAre(lines, l);
    case SettlePayout(_, _, _, lines) => PostLocksAre(lines, l);
    case RequestPayout(claim, actor, account, amount) => RequestLocks(claim, actor, account, amount);
    case ClaimEvents(taken, size) => EventLocksAre(taken, size, l);
    case _ =>
  }
}

/** The overflow is real: a merchant whose orders are never released collects more than a
    BIGINT column holds. */
module OverflowRun {
  import opened Wrappers
  import opened Errors
  import opened Sums
  import opened Domain
  import opened Ledger
  import opened Model
  import opened Invariants
  import opened Runs
  import opened Overflow
  import Text = MoneyText

  const SELLER: AccountId := 3
  const ADMIN := Actor(0, Admin, None)
  const FREE := Rule("free", None, 0, 0, None, Terms(0, 0, None, 0, 0, 0), 0, None, true)

  /** One merchant and one rule that takes no fee. */
  function Opened(): State {
    INITIAL.(accounts := INITIAL.accounts[SELLER := Account("seller", "seller", Merchant, None, true)],
             books := INITIAL.books.(wallets := INITIAL.books.wallets[SELLER := Wallet(0, 0, 0)]),
             rules := [FREE])
  }

  lemma OpenedIsReachable()
    ensures Reachable(Opened())
  {
    assert Run(INITIAL, []) == INITIAL;
    var account := Call(ADMIN, 0, OpCreateAccount(SELLER, "seller", "seller", Merchant, None));
    PlainText("seller", 's');
    PlainText("free", 'f');
    StepReachable(INITIAL, account);
    StepReachable(After(INITIAL, account), Call(ADMIN, 0, OpCreateRule(FREE)));
    assert After(After(INITIAL, account), Call(ADMIN, 0, OpCreateRule(FREE))) == Opened();
  }

  lemma PlainText(s: string, c: char)
    requires 0 < |s| <= 96 && s[0] == c && 'a' <= c <= 'z' && forall i :: 0 <= i < |s| ==> 'a' <= s[i] <= 'z'
    ensures Model.Text(s, 96) && Model.Text(s, 120)
  {
    assert !IsSpace(s[0]);
  }

  /** The largest sale there is, under a number of its own. */
  function Sale(n: nat): CaptureInput {
    CaptureInput(Text.Digits(n), true, SELLER, None, MAX_OPERATION_MINOR, MAX_OPERATION_MINOR)
  }

  function SaleOrder(n: nat): Order {
    Order(Text.Digits(n), SELLER, None, MAX_OPERATION_MINOR, MAX_OPERATION_MINOR, 0, 0, 0, 0, None,
          [Allocation(PlatformSlot, PLATFORM, 0, 0), Allocation(MerchantSlot, SELLER, MAX_OPERATION_MINOR, 0)])
  }

  function SaleCall(n: nat): Call {
    Call(ADMIN, 0, OpCapture(Sale(n)))
  }

  /** After n such sales and nothing else. */
  ghost predicate Filled(st: State, n: nat) {
    && Reachable(st) && st.accounts == Opened().accounts && st.rules == [FREE]
    && |st.orders| == n && forall i :: 0 <= i < n ==> st.orders[i] == SaleOrder(i)
  }

  lemma {:induction false} FewDigits(n: nat, k: nat)
    requires k > 0 && n < Text.Pow10(k)
    ensures |Text.Digits(n)| <= k
  {
    if n >= 10 {
      FewDigits(n / 10, k - 1);
    }
  }

  lemma SaleNumber(n: nat)
    requires n < 100_000
    ensures Model.Text(Text.Digits(n), 96)
  {
    assert Text.Pow10(5) == 10 * Text.Pow10(4) && Text.Pow10(3) == 1000;
    FewDigits(n, 5);
    assert Text.IsDigit(Text.Digits(n)[0]);
  }

  lemma SaleNumberIsNew(i: nat, n: nat)
    requires i != n
    ensures Text.Digits(i) != Text.Digits(n)
  {
    Text.ValueOfDigits(i);
    Text.ValueOfDigits(n);
  }

  lemma SaleQuote(st: State)
    requires st.accounts == Opened().accounts && st.rules == [FREE]
    ensures Quote(st, SELLER, None, MAX_OPERATION_MINOR, MAX_OPERATION_MINOR, 0)
            == Ok(Quoted(0, None, None, Split(0, MAX_OPERATION_MINOR, 0, 0, 0)))
  {
    assert st.rules[..0] == [];
    assert ChooseRule([], SELLER, MAX_OPERATION_MINOR, 0) == None;
    assert Applies(FREE, SELLER, MAX_OPERATION_MINOR, 0);
    assert ChooseRule(st.rules, SELLER, MAX_OPERATION_MINOR, 0) == Some(0);
  }

  function SalePosting(n: nat): Posting {
    Posting(OrderCaptured(n), CaptureJournal, Some(ADMIN.id), CaptureLines(MAX_OPERATION_MINOR, SaleOrder(n).allocations))
  }

  /** The sale's own checks all pass. */
  lemma SalePasses(st: State, n: nat)
    requires Filled(st, n) && n < 100_000
    ensures PostingOf(st, SaleCall(n)) == Some(SalePosting(n))
  {
    hide Quote, Reachable, Model.Text;
    SaleQuote(st);
    SaleNumber(n);
    forall i | 0 <= i < n ensures st.orders[i].externalId != Text.Digits(n) {
      SaleNumberIsNew(i, n);
    }
    assert AllocationsFor(Quoted(0, None, None, Split(0, MAX_OPERATION_MINOR, 0, 0, 0)), SELLER) == SaleOrder(n).allocations;
  }

  lemma SaleGoesOn(st: State, n: nat)
    requires Filled(st, n) && n < 100_000
    ensures Step(st, SaleCall(n)) == Err(OutOfRange) || (Step(st, SaleCall(n)).Ok? && Filled(Step(st, SaleCall(n)).value, n + 1))
  {
    hide Quote, Reachable, Model.Text, Post, PostingOf, Overflows;
    SaleQuote(st);
    SalePasses(st, n);
    OverflowIff(st, SaleCall(n));
    StepReachable(st, SaleCall(n));
    assert AllocationsFor(Quoted(0, None, None, Split(0, MAX_OPERATION_MINOR, 0, 0, 0)), SELLER) == SaleOrder(n).allocations;
  }

  lemma {:induction false} HeldSum(orders: seq<Order>)
    requires forall i :: 0 <= i < |orders| ==> HeldFor(SELLER, false)(orders[i]) == MAX_OPERATION_MINOR
    ensures SumBy(orders, HeldFor(SELLER, false)) == |orders| * MAX_OPERATION_MINOR
  {
    if orders != [] {
      HeldSum(orders[1..]);
    }
  }

  lemma SaleHolds(n: nat)
    ensures HeldFor(SELLER, false)(SaleOrder(n)) == MAX_OPERATION_MINOR
  {
    var parts := SaleOrder(n).allocations;
    assert parts[1..] == [parts[1]] && parts[1..][1..] == [];
    assert SumBy(parts, NetTo(SELLER)) == NetTo(SELLER)(parts[0]) + SumBy(parts[1..], NetTo(SELLER));
  }

  /** The merchant's frozen column grows by the full price each time. */
  lemma FilledFrozen(st: State, n: nat)
    requires Filled(st, n)
    ensures SELLER in st.books.wallets && st.books.wallets[SELLER].Cell(Frozen) == n * MAX_OPERATION_MINOR
  {
    hide Reachable, MoneyOk, RowsOk, RefundsOk, KeysOk;
    ReachableSound(st);
    WalletsHaveClosedForm(st, SELLER);
    forall i | 0 <= i < n ensures HeldFor(SELLER, false)(st.orders[i]) == MAX_OPERATION_MINOR {
      SaleHolds(i);
    }
    HeldSum(st.orders);
  }

  lemma SaleFreezes(n: nat)
    ensures Net(SalePosting(n).lines, SELLER, Frozen) == MAX_OPERATION_MINOR
  {
    var lines := SalePosting(n).lines;
    assert lines == [Line(CLEARING, Available, -MAX_OPERATION_MINOR), Line(PLATFORM, Frozen, 0), Line(SELLER, Frozen, MAX_OPERATION_MINOR)];
    var at := At(SELLER, Frozen);
    assert lines[1..] == [lines[1], lines[2]] && lines[1..][1..] == [lines[2]] && [lines[2]][1..] == [];
    assert SumBy([lines[2]], at) == at(lines[2]);
    assert SumBy(lines[1..], at) == at(lines[1]) + SumBy([lines[2]], at);
  }

  const LAST: nat := 92_233

  lemma LastSale(st: State)
    requires Filled(st, LAST)
    ensures Step(st, SaleCall(LAST)) == Err(OutOfRange)
  {
    hide Quote, Reachable, Model.Text, PostingOf, Step, Filled, Net;
    SalePasses(st, LAST);
    FilledFrozen(st, LAST);
    SaleFreezes(LAST);
    assert !InI64(st.books.wallets[SELLER].Cell(Frozen) + Net(SalePosting(LAST).lines, SELLER, Frozen));
    FilledIsReachable(st, LAST);
    OverflowIff(st, SaleCall(LAST));
  }

  lemma FilledIsReachable(st: State, n: nat)
    requires Filled(st, n)
    ensures Reachable(st)
  {
  }

  /** Selling again and again ends in an overflow, or goes through every time. */
  lemma {:induction false} Fill(n: nat) returns (st: State, c: Call)
    requires n <= LAST
    ensures Filled(st, n) || (Reachable(st) && Step(st, c) == Err(OutOfRange))
  {
    hide Step, Reachable;
    if n == 0 {
      OpenedIsReachable();
      st, c := Opened(), SaleCall(0);
    } else {
      st, c := Fill(n - 1);
      if Filled(st, n - 1) {
        SaleGoesOn(st, n - 1);
        if Step(st, SaleCall(n - 1)) == Err(OutOfRange) {
          c := SaleCall(n - 1);
        } else {
          st := Step(st, SaleCall(n - 1)).value;
        }
      }
    }
  }

  /** Some call in some reachable state fails for an overflow, which the source answers as its
      internal error. */
  lemma OverflowHappens()
    ensures exists st, c :: Reachable(st) && Step(st, c) == Err(OutOfRange)
  {
    hide Step, Reachable;
    var st, c := Fill(LAST);
    if Filled(st, LAST) {
      LastSale(st);
      assert Reachable(st) && Step(st, SaleCall(LAST)) == Err(OutOfRange);
    }
  }
}

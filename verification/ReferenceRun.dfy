/** A provider reference recorded with an unknown outcome can be replaced, and is then free
    for another payout. */
module ReferenceRun {
  import opened Wrappers
  import opened Errors
  import opened Sums
  import opened Domain
  import opened Ledger
  import opened Model
  import opened Invariants
  import opened Postings
  import opened Runs
  import opened Overflow
  import opened Effects
  import opened Numbers
  import opened OverflowRun

  const CLERK := Actor(5, Operator, None)

  lemma ShortText(s: string)
    requires 0 < |s| <= 10 && forall i :: 0 <= i < |s| ==> 'a' <= s[i] <= 'z'
    ensures Model.Text(s, 96) && Model.Text(s, 160) && Model.Text(s, 400) && Model.Text(s, 1000)
  {
    assert !IsSpace(s[0]);
  }

  /** Cells far from the ends of their range, and lines that cannot take them there. */
  lemma FarFromOverflow(books: Books, p: Posting)
    requires ModestLines(p.lines)
    requires forall a, b :: a in books.wallets ==> -8 * MAX_OPERATION_MINOR <= books.wallets[a].Cell(b) <= 8 * MAX_OPERATION_MINOR
    ensures !Overflows(books, p)
  {
    forall a, b | a in books.wallets ensures InI64(books.wallets[a].Cell(b) + Net(p.lines, a, b)) {
      NetBound(p.lines, a, b);
    }
  }

  lemma SaleIsModest()
    ensures ModestLines(SalePosting(0).lines)
    ensures ModestLines(ReleaseLines(SaleOrder(0).allocations))
  {
    ReleaseSize(SaleOrder(0).allocations);
  }

  /** One sale. */
  lemma Sold() returns (st: State)
    ensures Filled(st, 1) && st.payouts == []
    ensures forall a, b :: a in st.books.wallets ==> -8 * MAX_OPERATION_MINOR <= st.books.wallets[a].Cell(b) <= 8 * MAX_OPERATION_MINOR
  {
    hide Reachable, Step, Inv, Post, PostingOf, Overflows, Model.Text, Posted, Commissions.Attributed;
    OpenedIsReachable();
    var start := Opened();
    SalePasses(start, 0);
    SaleIsModest();
    FarFromOverflow(start.books, SalePosting(0));
    OverflowIff(start, SaleCall(0));
    SaleGoesOn(start, 0);
    st := Step(start, SaleCall(0)).value;
    SaleStep(start);
    Commissions.CaptureEffect(start, ADMIN, 0, Sale(0));
    SoldCells(start.books, st.books);
  }

  lemma SaleStep(st: State)
    ensures Step(st, SaleCall(0)) == Capture(st, ADMIN, 0, Sale(0))
  {
  }

  lemma SoldCells(before: Books, after: Books)
    requires before == Opened().books
    requires Posted(before, after, OrderCaptured(0), CaptureJournal, Some(ADMIN.id), Freezing(SaleOrder(0)))
    ensures forall a, b :: a in after.wallets ==> -8 * MAX_OPERATION_MINOR <= after.wallets[a].Cell(b) <= 8 * MAX_OPERATION_MINOR
  {
    var parts := SaleOrder(0).allocations;
    assert parts[1..] == [parts[1]] && parts[1..][1..] == [];
    forall a, b | a in after.wallets ensures -2 * MAX_OPERATION_MINOR <= after.wallets[a].Cell(b) <= 2 * MAX_OPERATION_MINOR {
      assert SumBy(parts, OriginalTo(a)) == OriginalTo(a)(parts[0]) + SumBy(parts[1..], OriginalTo(a));
      assert after.wallets[a].Cell(b) == before.wallets[a].Cell(b) + Freezing(SaleOrder(0))(a, b);
    }
  }

  /** One sale, released: the seller has money to draw. */
  lemma Funded() returns (st: State)
    ensures Reachable(st) && st.payouts == [] && st.accounts == Opened().accounts
    ensures SELLER in st.books.wallets && st.books.wallets[SELLER].available == MAX_OPERATION_MINOR && st.books.wallets[SELLER].reserved == 0
  {
    hide Reachable, Step, Inv, Post, Overflows, Posted, ReleaseLines;
    var sold := Sold();
    var release := Call(ADMIN, 0, OpRelease(0));
    FilledIsReachable(sold, 1);
    SaleIsModest();
    FarFromOverflow(sold.books, Posting(OrderReleased(0), ReleaseJournal, Some(ADMIN.id), ReleaseLines(SaleOrder(0).allocations)));
    OverflowIff(sold, release);
    assert Step(sold, release) == Release(sold, ADMIN, 0, 0) by { ReleaseStep(sold); }
    ReleaseEffect(sold, ADMIN, 0, 0);
    CallReaches(sold, release);
    st := Step(sold, release).value;
    FundedWallet(st);
  }

  lemma ReleaseStep(st: State)
    ensures Step(st, Call(ADMIN, 0, OpRelease(0))) == Release(st, ADMIN, 0, 0)
  {
  }

  lemma FundedWallet(st: State)
    requires Reachable(st) && st.payouts == [] && st.orders == [SaleOrder(0).(releasedAt := Some(0))] && st.accounts == Opened().accounts
    ensures SELLER in st.books.wallets && st.books.wallets[SELLER].available == MAX_OPERATION_MINOR && st.books.wallets[SELLER].reserved == 0
  {
    hide Reachable, MoneyOk, RowsOk, RefundsOk, KeysOk;
    ReachableSound(st);
    WalletsHaveClosedForm(st, SELLER);
    SaleHolds(0);
    assert HeldFor(SELLER, true)(st.orders[0]) == HeldFor(SELLER, false)(SaleOrder(0));
    assert st.orders[1..] == [];
    assert SumBy(st.orders, HeldFor(SELLER, true)) == HeldFor(SELLER, true)(st.orders[0]) + SumBy(st.orders[1..], HeldFor(SELLER, true));
  }

  /** A payout of one cent, under way. */
  function Cent(number: string, status: Status, approved: Option<ActorId>, reference: Option<string>, evidence: Option<string>): Payout {
    Payout(number, SELLER, 1, "d", status, CLERK.id, approved, reference, evidence)
  }

  lemma Requests(st: State, number: string) returns (st': State)
    requires Reachable(st) && st.accounts == Opened().accounts && SELLER in st.books.wallets
    requires 1 <= st.books.wallets[SELLER].available && st.books.wallets[SELLER].reserved <= 1
    requires 0 < |number| <= 10 && (forall i :: 0 <= i < |number| ==> 'a' <= number[i] <= 'z')
    requires forall i :: 0 <= i < |st.payouts| ==> st.payouts[i].externalId != number
    ensures Reachable(st') && st'.accounts == st.accounts && st'.payouts == st.payouts + [Cent(number, Requested, None, None, None)]
    ensures SELLER in st'.books.wallets
    ensures st'.books.wallets[SELLER].available == st.books.wallets[SELLER].available - 1
    ensures st'.books.wallets[SELLER].reserved == st.books.wallets[SELLER].reserved + 1
  {
    hide Reachable, Step, Model.Text, RequestPayout;
    ShortText(number);
    ShortText("d");
    var input := PayoutInput(number, SELLER, 1, "d");
    RequestPayoutEffect(st, CLERK, input);
    assert Step(st, Call(CLERK, 0, OpRequestPayout(input))) == RequestPayout(st, CLERK, input) by { RequestStep(st, input); }
    CallReaches(st, Call(CLERK, 0, OpRequestPayout(input)));
    st' := RequestPayout(st, CLERK, input).value;
    assert forall b :: st'.books.wallets[SELLER].Cell(b) == st.books.wallets[SELLER].Cell(b) + Moving(SELLER, Available, SELLER, Reserved, 1)(SELLER, b);
    assert st'.books.wallets[SELLER].Cell(Available) == st.books.wallets[SELLER].Cell(Available) - 1;
    assert st'.books.wallets[SELLER].Cell(Reserved) == st.books.wallets[SELLER].Cell(Reserved) + 1;
  }

  lemma RequestStep(st: State, input: PayoutInput)
    ensures Step(st, Call(CLERK, 0, OpRequestPayout(input))) == RequestPayout(st, CLERK, input)
  {
  }

  /** Approving and processing, by another credential. */
  lemma Reviews(st: State, id: nat, number: string) returns (st': State)
    requires Reachable(st) && id < |st.payouts| && st.payouts[id] == Cent(number, Requested, None, None, None)
    requires SELLER in st.books.wallets && st.books.wallets[SELLER].available >= 0
    ensures Reachable(st')
    ensures st' == st.(payouts := st.payouts[id := Cent(number, Processing, Some(ADMIN.id), None, Some("go"))])
  {
    hide Reachable, Step, Model.Text, Approve, Process;
    ShortText("go");
    ApproveEffect(st, ADMIN, id);
    var approved := Approve(st, ADMIN, id).value;
    assert Step(st, Call(ADMIN, 0, OpApprove(id))) == Approve(st, ADMIN, id)
           && Step(approved, Call(ADMIN, 0, OpProcess(id, "go"))) == Process(approved, ADMIN, id, "go") by { ReviewSteps(st, approved, id); }
    CallReaches(st, Call(ADMIN, 0, OpApprove(id)));
    ProcessEffect(approved, ADMIN, id, "go");
    CallReaches(approved, Call(ADMIN, 0, OpProcess(id, "go")));
    st' := Process(approved, ADMIN, id, "go").value;
  }

  lemma ReviewSteps(st: State, approved: State, id: nat)
    ensures Step(st, Call(ADMIN, 0, OpApprove(id))) == Approve(st, ADMIN, id)
    ensures Step(approved, Call(ADMIN, 0, OpProcess(id, "go"))) == Process(approved, ADMIN, id, "go")
  {
  }

  /** An unknown outcome with a reference nobody else holds. */
  lemma Answers(st: State, id: nat, reference: string) returns (st': State)
    requires Reachable(st) && id < |st.payouts| && st.payouts[id].status in {Processing, Unknown} && st.payouts[id].requestedBy == CLERK.id
    requires 0 < |reference| <= 10 && (forall i :: 0 <= i < |reference| ==> 'a' <= reference[i] <= 'z')
    requires forall i :: 0 <= i < |st.payouts| && i != id ==> st.payouts[i].providerReference != Some(reference)
    ensures Conclude(st, ADMIN, id, OutcomeInput(Unknown, Some(reference), "ok")) == Ok(st') && Reachable(st')
    ensures |st'.payouts| == |st.payouts| && st'.payouts[id].status == Unknown && st'.payouts[id].requestedBy == CLERK.id
    ensures st'.payouts[id].providerReference == Some(reference)
    ensures forall i :: 0 <= i < |st.payouts| && i != id ==> st'.payouts[i] == st.payouts[i]
  {
    hide Reachable, Step, Model.Text, Conclude;
    ShortText(reference);
    ShortText("ok");
    var input := OutcomeInput(Unknown, Some(reference), "ok");
    ConcludeEffect(st, ADMIN, id, input);
    assert Step(st, Call(ADMIN, 0, OpConclude(id, input))) == Conclude(st, ADMIN, id, input) by { ConcludeStep(st, id, input); }
    CallReaches(st, Call(ADMIN, 0, OpConclude(id, input)));
    st' := Conclude(st, ADMIN, id, input).value;
  }

  lemma ConcludeStep(st: State, id: nat, input: OutcomeInput)
    ensures Step(st, Call(ADMIN, 0, OpConclude(id, input))) == Conclude(st, ADMIN, id, input)
  {
  }

  /** In some reachable state an unknown outcome is recorded with a reference, then another one
      of the same payout with a new reference, and then the first reference is taken for
      another payout. */
  lemma ReplacedReferenceIsFree()
    ensures exists st, actor, id, id', first: OutcomeInput, second: OutcomeInput, other: OutcomeInput ::
              && Reachable(st) && id != id' && first.status == Unknown
              && first.providerReference.Some? && other.providerReference == first.providerReference
              && Conclude(st, actor, id, first).Ok?
              && Conclude(Conclude(st, actor, id, first).value, actor, id, second).Ok?
              && Conclude(Conclude(Conclude(st, actor, id, first).value, actor, id, second).value, actor, id', other).Ok?
  {
    hide Reachable, Conclude;
    var funded := Funded();
    var one := Requests(funded, "one");
    var two := Requests(one, "two");
    var ready := Reviews(two, 0, "one");
    var st := Reviews(ready, 1, "two");
    var a := Answers(st, 0, "a");
    var b := Answers(a, 0, "b");
    var c := Answers(b, 1, "a");
  }
}

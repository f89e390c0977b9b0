/** The services as they run: tables updated statement by statement inside a transaction
    that commits or rolls back. Every method is proved to do what its function in Model
    says, and to keep the invariant. */
module Backend {
  import opened Wrappers
  import opened Errors
  import opened Sums
  import opened Domain
  import opened Ledger
  import opened Model
  import opened Invariants
  import opened Postings
  import opened StepProofs

  lemma {:induction false} NonZeroAppend(m: seq<Line>, l: Line)
    ensures NonZero(m + [l]) == NonZero(m) + if l.delta != 0 then [l] else []
  {
    if m == [] {
      assert [l][1..] == [];
    } else {
      assert (m + [l])[1..] == m[1..] + [l];
      NonZeroAppend(m[1..], l);
    }
  }

  lemma UpdateLast<T>(s: seq<T>, x: T, y: T)
    ensures (s + [x])[|s| := y] == s + [y]
  {
  }

  lemma TakeMore<T>(s: seq<T>, k: nat)
    requires k < |s|
    ensures s[..k + 1] == s[..k] + [s[k]]
  {
  }

  lemma CaptureLinesGrow(paid: int, parts: seq<Allocation>, p: Allocation)
    ensures CaptureLines(paid, parts + [p]) == CaptureLines(paid, parts) + [FreezeLine()(p)]
  {
  }

  lemma RefundLinesGrow(order: Order, amount: int, targets: seq<int>, k: nat)
    requires |targets| == |order.allocations| && k < |targets|
    ensures var part := order.allocations[k];
            RefundLines(order, amount, targets)[..k + 2]
            == RefundLines(order, amount, targets)[..k + 1] + [Line(part.account, Holding(order), -(targets[k] - part.refunded))]
  {
  }

  lemma RefundLinesShape(order: Order, amount: int, targets: seq<int>)
    requires |targets| == |order.allocations|
    ensures |RefundLines(order, amount, targets)| == |targets| + 1 && |Retarget(order.allocations, targets)| == |targets|
    ensures RefundLines(order, amount, targets)[..1] == [Line(CLEARING, Available, amount)]
  {
  }

  lemma RetargetGrow(parts: seq<Allocation>, targets: seq<int>, k: nat)
    requires |targets| == |parts| && k < |targets|
    ensures (Retarget(parts, targets)[..k] + parts[k..])[k := parts[k].(refunded := targets[k])]
            == Retarget(parts, targets)[..k + 1] + parts[k + 1..]
  {
  }

  lemma ReleaseLinesGrow(lines: seq<Line>, parts: seq<Allocation>, k: nat)
    requires k < |parts|
    ensures var net := parts[k].original - parts[k].refunded;
            lines + ReleaseLines(parts[k..])
            == lines + [Line(parts[k].account, Frozen, -net)] + [Line(parts[k].account, Available, net)] + ReleaseLines(parts[k + 1..])
  {
    assert parts[k..][1..] == parts[k + 1..];
  }

  /** The lines of `release_locked`: each allocation's net from frozen to available. */
  method MoveLines(parts: seq<Allocation>) returns (lines: seq<Line>)
    ensures lines == ReleaseLines(parts)
  {
    hide ReleaseLines;
    lines := [];
    assert parts[0..] == parts;
    for k := 0 to |parts|
      invariant lines + ReleaseLines(parts[k..]) == ReleaseLines(parts)
    {
      ReleaseLinesGrow(lines, parts, k);
      var net := parts[k].original - parts[k].refunded;
      lines := lines + [Line(parts[k].account, Frozen, -net)];
      lines := lines + [Line(parts[k].account, Available, net)];
    }
    NoMoreLines(parts);
  }

  lemma NoMoreLines(parts: seq<Allocation>)
    ensures ReleaseLines(parts[|parts|..]) == []
  {
  }

  class Database {
    var accounts: map<AccountId, Account>
    var rules: seq<Rule>
    var bindings: map<string, AccountId>
    var orders: seq<Order>
    var refunds: seq<RefundRow>
    var payouts: seq<Payout>
    var wallets: map<AccountId, Wallet>
    var journals: seq<Journal>

    function Books(): Books
      reads this
    {
      Ledger.Books(wallets, journals)
    }

    function Snapshot(): State
      reads this
    {
      State(accounts, rules, bindings, orders, refunds, payouts, Books())
    }

    ghost predicate Valid()
      reads this
    {
      Inv(Snapshot())
    }

    /** The call did what the specification says: it took the step, or failed with the
        specified error and left nothing behind. */
    ghost predicate Did(before: State, spec: Outcome<State>, r: Outcome<()>)
      reads this
    {
      match spec
      case Ok(after) => r.Ok? && Snapshot() == after
      case Err(e) => r == Err(e) && Snapshot() == before
    }

    constructor ()
      ensures Snapshot() == INITIAL && Valid()
    {
      accounts, rules, bindings := INITIAL.accounts, [], map[];
      orders, refunds, payouts := [], [], [];
      wallets, journals := INITIAL.books.wallets, [];
    }

    method Rollback(saved: State)
      modifies this
      ensures Snapshot() == saved
    {
      accounts, rules, bindings := saved.accounts, saved.rules, saved.bindings;
      orders, refunds, payouts := saved.orders, saved.refunds, saved.payouts;
      wallets, journals := saved.books.wallets, saved.books.journals;
    }

    /** Adds the lines up by cell, in cell order, and drops the cells that come to nothing. */
    method CombineLines(lines: seq<Line>) returns (entries: seq<Line>, sum: int)
      ensures entries == Combine(lines) && sum == SumBy(entries, Delta())
    {
      var combined: seq<Line> := [];
      for i := 0 to |lines|
        invariant combined == Accumulate(lines[..i])
      {
        assert lines[..i + 1][..i] == lines[..i];
        combined := Upsert(combined, lines[i]);
      }
      assert lines[..|lines|] == lines;
      entries, sum := [], 0;
      for i := 0 to |combined|
        invariant entries == NonZero(combined[..i])
        invariant sum == SumBy(entries, Delta())
      {
        TakeMore(combined, i);
        NonZeroAppend(combined[..i], combined[i]);
        if combined[i].delta != 0 {
          SumAppend(entries, combined[i], Delta());
          entries := entries + [combined[i]];
          sum := sum + combined[i].delta;
        }
      }
      assert combined[..|combined|] == combined;
    }

    /** `ledger::post`. On an error the transaction is aborted, so what the wallets and
        journals hold then is up to the rollback. */
    method Post(p: Posting) returns (r: Outcome<()>)
      modifies this`wallets, this`journals
      ensures match Ledger.Post(old(Books()), p)
              case Ok(books) => r.Ok? && Books() == books
              case Err(e) => r == Err(e)
    {
      ghost var before := Books();
      var entries, sum := CombineLines(p.lines);
      if entries == [] {
        return Ok(());
      }
      if |entries| < 2 || sum != 0 || !KnownAccounts(wallets, entries) {
        return Err(Internal);
      }
      if KeyUsed(journals, p.key) {
        return Err(EventKeyTaken);
      }
      var id := |journals|;
      journals := journals + [Journal(p.key, p.kind, p.actor, [])];
      for line := 0 to |entries|
        invariant KnownAccounts(wallets, entries)
        invariant ApplyEntries(before.wallets, entries, 0) == ApplyEntries(wallets, entries, line)
        invariant journals == before.journals + [Journal(p.key, p.kind, p.actor, entries[..line])]
      {
        var e := entries[line];
        if !InI64(e.delta) || line > MAX_LINE_NO {
          return Err(Internal);
        }
        UpdateLast(before.journals, journals[id], journals[id].(entries := journals[id].entries + [e]));
        TakeMore(entries, line);
        journals := journals[id := journals[id].(entries := journals[id].entries + [e])];
        var w := wallets[e.account].Add(e.bucket, e.delta);
        if !InI64(w.Cell(e.bucket)) {
          return Err(OutOfRange);
        }
        if e.bucket != Available && w.Cell(e.bucket) < 0 {
          return Err(CheckViolation);
        }
        wallets := wallets[e.account := w];
      }
      assert entries[..|entries|] == entries;
      return Ok(());
    }

    // ----------------------------------------------------------------- catalog

    method CreateAccount(actor: Actor, id: AccountId, externalId: string, name: string, kind: AccountKind,
                         parent: Option<AccountId>) returns (r: Outcome<()>)
      requires Valid()
      modifies this
      ensures Valid() && Did(old(Snapshot()), Model.CreateAccount(old(Snapshot()), actor, id, externalId, name, kind, parent), r)
    {
      hide Inv;
      ghost var before := Snapshot();
      CreateAccountKeeps(before, actor, id, externalId, name, kind, parent);
      if !actor.Has({Operator}) { return Err(Forbidden); }
      if !Text(externalId, 96) || !Text(name, 120) { return Err(Invalid); }
      if kind !in {Merchant, Promoter} || (parent.Some? && kind != Promoter) || "__" <= externalId { return Err(Invalid); }
      if parent.Some? {
        var error := AccountError(Snapshot(), parent.value, Promoter);
        if error.Some? { return Err(error.value); }
      }
      if id in accounts || exists a :: a in accounts && accounts[a].externalId == externalId { return Err(Duplicate); }
      accounts := accounts[id := Account(externalId, name, kind, parent, true)];
      wallets := wallets[id := Wallet(0, 0, 0)];
      return Ok(());
    }

    method BindReferral(actor: Actor, customer: string, promoter: AccountId) returns (r: Outcome<()>)
      requires Valid()
      modifies this
      ensures Valid() && Did(old(Snapshot()), Model.BindReferral(old(Snapshot()), actor, customer, promoter), r)
    {
      if !actor.Has({Operator, Integrator}) { return Err(Forbidden); }
      if !Text(customer, 96) { return Err(Invalid); }
      var error := AccountError(Snapshot(), promoter, Promoter);
      if error.Some? { return Err(error.value); }
      if exists i :: 0 <= i < |orders| && orders[i].customer == Some(customer) { return Err(Conflict); }
      if customer in bindings { return Err(Duplicate); }
      bindings := bindings[customer := promoter];
      return Ok(());
    }

    method CreateRule(actor: Actor, rule: Rule) returns (r: Outcome<()>)
      requires Valid()
      modifies this
      ensures Valid() && Did(old(Snapshot()), Model.CreateRule(old(Snapshot()), actor, rule), r)
    {
      hide Inv;
      ghost var before := Snapshot();
      CreateRuleKeeps(before, actor, rule);
      if !actor.Has({Operator}) { return Err(Forbidden); }
      if !Text(rule.name, 120) || !rule.terms.Valid() || !RuleInRange(rule) { return Err(Invalid); }
      if rule.merchant.Some? {
        var error := AccountError(Snapshot(), rule.merchant.value, Merchant);
        if error.Some? { return Err(error.value); }
      }
      if rule.effectiveUntil.Some? && rule.effectiveUntil.value <= rule.effectiveFrom { return Err(Invalid); }
      rules := rules + [rule.(active := true)];
      return Ok(());
    }

    method DisableRule(actor: Actor, id: nat) returns (r: Outcome<()>)
      requires Valid()
      modifies this
      ensures Valid() && Did(old(Snapshot()), Model.DisableRule(old(Snapshot()), actor, id), r)
    {
      hide Inv;
      ghost var before := Snapshot();
      DisableRuleKeeps(before, actor, id);
      if !actor.Has({Operator}) { return Err(Forbidden); }
      if id >= |rules| { return Err(NotFound); }
      rules := rules[id := rules[id].(active := false)];
      return Ok(());
    }

    // ------------------------------------------------------------------ orders

    /** Inserts the allocation rows of a new order, and the posting lines that freeze them. */
    method InsertAllocations(id: nat, paid: int, parts: seq<Allocation>) returns (lines: seq<Line>)
      requires id < |orders| && orders[id].allocations == []
      modifies this`orders
      ensures orders == old(orders)[id := old(orders)[id].(allocations := parts)]
      ensures lines == CaptureLines(paid, parts)
    {
      ghost var before, row := orders, orders[id];
      assert row.(allocations := []) == row && before[id := row] == before;
      lines := [Line(CLEARING, Available, -paid)];
      for k := 0 to |parts|
        invariant orders == before[id := row.(allocations := parts[..k])]
        invariant lines == CaptureLines(paid, parts[..k])
      {
        TakeMore(parts, k);
        CaptureLinesGrow(paid, parts[..k], parts[k]);
        orders := orders[id := orders[id].(allocations := orders[id].allocations + [parts[k]])];
        lines := lines + [Line(parts[k].account, Frozen, parts[k].original)];
      }
      assert parts[..|parts|] == parts;
    }

    method Capture(actor: Actor, now: int, input: CaptureInput) returns (r: Outcome<()>)
      requires Valid()
      modifies this
      ensures Valid() && Did(old(Snapshot()), Model.Capture(old(Snapshot()), actor, now, input), r)
    {
      hide Inv, Quote, Ledger.Post;
      var saved := Snapshot();
      CaptureKeeps(saved, actor, now, input);
      if !actor.Has({Operator, Integrator}) { return Err(Forbidden); }
      if !Text(input.externalId, 96) || !input.cny { return Err(Invalid); }
      if input.customer.Some? && !Text(input.customer.value, 96) { return Err(Invalid); }
      var quote := Quote(saved, input.merchant, input.customer, input.paid, input.base, now);
      QuoteAnswers(saved, input, now);
      if quote.Err? { return Err(quote.error); }
      var q := quote.value;
      if exists i :: 0 <= i < |orders| && orders[i].externalId == input.externalId { return Err(Duplicate); }
      var id := |orders|;
      var row := Order(input.externalId, input.merchant, input.customer, input.paid, input.base, q.split.feePool, 0, q.rule,
                             now + rules[q.rule].terms.freezeSeconds, None, []);
      orders := orders + [row];
      var parts: seq<Allocation> := [];
      if q.direct.Some? { parts := parts + [Allocation(Direct, q.direct.value, q.split.direct, 0)]; }
      if q.indirect.Some? { parts := parts + [Allocation(Indirect, q.indirect.value, q.split.indirect, 0)]; }
      parts := parts + [Allocation(PlatformSlot, PLATFORM, q.split.platform, 0)];
      parts := parts + [Allocation(MerchantSlot, input.merchant, q.split.merchant, 0)];
      assert parts == AllocationsFor(q, input.merchant);
      var lines := InsertAllocations(id, input.paid, parts);
      UpdateLast(saved.orders, row, row.(allocations := parts));
      r := Post(Posting(OrderCaptured(id), CaptureJournal, Some(actor.id), lines));
      if r.Err? { Rollback(saved); }
    }

    /** Raises the cumulative refunds of an order's allocations to `targets`, unless one would
        have to fall, and answers the posting lines. */
    method RaiseRefunds(id: nat, amount: int, targets: seq<int>) returns (lines: Option<seq<Line>>)
      requires id < |orders| && |targets| == |orders[id].allocations|
      modifies this`orders
      ensures lines.None? <==> exists i :: 0 <= i < |targets| && targets[i] < old(orders)[id].allocations[i].refunded
      ensures lines.Some? ==>
                && lines.value == RefundLines(old(orders)[id], amount, targets)
                && orders == old(orders)[id := old(orders)[id].(allocations := Retarget(old(orders)[id].allocations, targets))]
    {
      hide RefundLines, Retarget;
      ghost var before := orders;
      var order := orders[id];
      var parts := order.allocations;
      var posted: seq<Line> := [Line(CLEARING, Available, amount)];
      RefundLinesShape(order, amount, targets);
      assert Retarget(parts, targets)[..0] + parts[0..] == parts && order.(allocations := parts) == order;
      for k := 0 to |parts|
        invariant forall i :: 0 <= i < k ==> targets[i] >= parts[i].refunded
        invariant posted == RefundLines(order, amount, targets)[..k + 1]
        invariant orders == before[id := order.(allocations := Retarget(parts, targets)[..k] + parts[k..])]
      {
        var delta := targets[k] - parts[k].refunded;
        if delta < 0 {
          return None;
        }
        RefundLinesGrow(order, amount, targets, k);
        RetargetGrow(parts, targets, k);
        posted := posted + [Line(parts[k].account, if order.releasedAt.Some? then Available else Frozen, -delta)];
        orders := orders[id := orders[id].(allocations := orders[id].allocations[k := parts[k].(refunded := targets[k])])];
      }
      assert Retarget(parts, targets)[..|parts|] + parts[|parts|..] == Retarget(parts, targets);
      return Some(posted);
    }

    method Refund(actor: Actor, id: nat, input: RefundInput) returns (r: Outcome<()>)
      requires Valid()
      modifies this
      ensures Valid() && Did(old(Snapshot()), Model.Refund(old(Snapshot()), actor, id, input), r)
    {
      hide Inv, Ledger.Post;
      var saved := Snapshot();
      RefundKeeps(saved, actor, id, input);
      ShareBounds(saved, id);
      if !actor.Has({Operator, Integrator}) { return Err(Forbidden); }
      if !Text(input.externalId, 96) || !Text(input.reason, 400) || !Positive(input.amount) { return Err(Invalid); }
      if id >= |orders| { return Err(NotFound); }
      var order := orders[id];
      var cumulative := order.refunded + input.amount;
      if !InI64(cumulative) { return Err(Invalid); }
      if cumulative > order.paid { return Err(Conflict); }
      var parts := order.allocations;
      var answer := CumulativeRefund(Originals(parts), cumulative);
      if answer.Err? { return Err(answer.error); }
      var targets := answer.value;
      var lines := RaiseRefunds(id, input.amount, targets);
      if lines.None? {
        Rollback(saved);
        return Err(Internal);
      }
      if exists i :: 0 <= i < |refunds| && refunds[i].externalId == input.externalId {
        Rollback(saved);
        return Err(Duplicate);
      }
      var refundId := |refunds|;
      refunds := refunds + [RefundRow(id, input.externalId, input.amount, cumulative, input.reason)];
      r := Post(Posting(OrderRefunded(refundId), RefundJournal, Some(actor.id), lines.value));
      if r.Err? {
        Rollback(saved);
      } else {
        orders := orders[id := orders[id].(refunded := cumulative)];
        assert orders == saved.orders[id := order.(refunded := cumulative, allocations := Retarget(parts, targets))];
      }
    }

    lemma ShareBounds(st: State, id: nat)
      requires Inv(st)
      ensures id < |st.orders| ==> forall i :: 0 <= i < |st.orders[id].allocations| ==> InI64(st.orders[id].allocations[i].original)
    {
      if id < |st.orders| {
        OrderSlots(st.orders[id]);
      }
    }

    /** `release_locked`, on an order row already locked. */
    method ReleaseLocked(actor: Option<ActorId>, now: int, id: nat) returns (r: Outcome<()>)
      requires Valid() && id < |orders|
      modifies this
      ensures Valid() && Did(old(Snapshot()), Model.ReleaseLocked(old(Snapshot()), actor, now, id), r)
    {
      hide Inv, Ledger.Post;
      var saved := Snapshot();
      ReleaseLockedKeeps(saved, actor, now, id);
      var order := orders[id];
      if order.releasedAt.Some? { return Ok(()); }
      if now < order.unlockAt { return Err(Conflict); }
      var parts := order.allocations;
      var lines := MoveLines(parts);
      r := Post(Posting(OrderReleased(id), ReleaseJournal, actor, lines));
      if r.Err? {
        Rollback(saved);
      } else {
        orders := orders[id := order.(releasedAt := Some(now))];
      }
    }

    method Release(actor: Actor, now: int, id: nat) returns (r: Outcome<()>)
      requires Valid()
      modifies this
      ensures Valid() && Did(old(Snapshot()), Model.Release(old(Snapshot()), actor, now, id), r)
    {
      hide Inv, Model.ReleaseLocked;
      if !actor.Has({Operator, Finance}) { return Err(Forbidden); }
      if id >= |orders| { return Err(NotFound); }
      r := ReleaseLocked(Some(actor.id), now, id);
    }

    method ReleaseOneDue(now: int, skip: set<nat>) returns (r: Outcome<()>)
      requires Valid()
      modifies this
      ensures Valid() && Did(old(Snapshot()), Model.ReleaseOneDue(old(Snapshot()), now, skip), r)
    {
      hide Inv, Model.ReleaseLocked;
      var first: Option<nat> := None;
      for i := 0 to |orders|
        invariant first.None? ==> forall j: nat :: j < i ==> !Due(orders, now, skip, j)
        invariant first.Some? ==>
                    && first.value < i && Due(orders, now, skip, first.value)
                    && forall j: nat :: j < i && Due(orders, now, skip, j) ==>
                         orders[first.value].unlockAt < orders[j].unlockAt
                         || (orders[first.value].unlockAt == orders[j].unlockAt && first.value <= j)
      {
        if Due(orders, now, skip, i) && (first.None? || orders[i].unlockAt < orders[first.value].unlockAt) {
          first := Some(i);
        }
      }
      if first.None? { return Ok(()); }
      assert FirstDue(orders, now, skip, first.value);
      forall j: nat | FirstDue(orders, now, skip, j)
        ensures j == first.value
      {
        FirstDueUnique(orders, now, skip, first.value, j);
      }
      r := ReleaseLocked(None, now, first.value);
    }

    // ----------------------------------------------------------------- payouts

    method RequestPayout(actor: Actor, input: PayoutInput) returns (r: Outcome<()>)
      requires Valid()
      modifies this
      ensures Valid() && Did(old(Snapshot()), Model.RequestPayout(old(Snapshot()), actor, input), r)
    {
      hide Inv, Ledger.Post;
      var saved := Snapshot();
      RequestPayoutKeeps(saved, actor, input);
      if !actor.Has({Operator, Member}) { return Err(Forbidden); }
      if !actor.MaySee(input.account) { return Err(NotFound); }
      if !Text(input.externalId, 96) || !Text(input.destination, 160) || !Positive(input.amount) { return Err(Invalid); }
      if input.account !in accounts { return Err(NotFound); }
      if !accounts[input.account].active || accounts[input.account].kind == ClearingAccount { return Err(Conflict); }
      if input.account !in wallets { return Err(NotFound); }
      if wallets[input.account].available < input.amount { return Err(Conflict); }
      if exists i :: 0 <= i < |payouts| && payouts[i].externalId == input.externalId { return Err(Duplicate); }
      var id := |payouts|;
      payouts := payouts + [Payout(input.externalId, input.account, input.amount, input.destination, Requested, actor.id,
                                   None, None, None)];
      r := Post(Posting(PayoutReserved(id), PayoutReserve, Some(actor.id),
                        [Line(input.account, Available, -input.amount), Line(input.account, Reserved, input.amount)]));
      if r.Err? { Rollback(saved); }
    }

    method Approve(actor: Actor, id: nat) returns (r: Outcome<()>)
      requires Valid()
      modifies this
      ensures Valid() && Did(old(Snapshot()), Model.Approve(old(Snapshot()), actor, id), r)
    {
      hide Inv;
      ApproveKeeps(Snapshot(), actor, id);
      if !actor.Has({Finance}) { return Err(Forbidden); }
      if id >= |payouts| { return Err(NotFound); }
      var payout := payouts[id];
      if payout.status != Requested { return Err(Conflict); }
      if payout.requestedBy == actor.id { return Err(Conflict); }
      if payout.account !in wallets { return Err(NotFound); }
      if wallets[payout.account].available < 0 { return Err(Conflict); }
      payouts := payouts[id := payout.(status := Approved, approvedBy := Some(actor.id))];
      return Ok(());
    }

    method Process(actor: Actor, id: nat, reason: string) returns (r: Outcome<()>)
      requires Valid()
      modifies this
      ensures Valid() && Did(old(Snapshot()), Model.Process(old(Snapshot()), actor, id, reason), r)
    {
      hide Inv;
      ProcessKeeps(Snapshot(), actor, id, reason);
      if !actor.Has({Finance}) { return Err(Forbidden); }
      if !Text(reason, 400) { return Err(Invalid); }
      if id >= |payouts| { return Err(NotFound); }
      var payout := payouts[id];
      if payout.status != Approved { return Err(Conflict); }
      if payout.requestedBy == actor.id { return Err(Conflict); }
      if payout.account !in wallets { return Err(NotFound); }
      if wallets[payout.account].available < 0 { return Err(Conflict); }
      payouts := payouts[id := payout.(status := Processing, evidence := Some(reason))];
      return Ok(());
    }

    method Reject(actor: Actor, id: nat, reason: string) returns (r: Outcome<()>)
      requires Valid()
      modifies this
      ensures Valid() && Did(old(Snapshot()), Model.Reject(old(Snapshot()), actor, id, reason), r)
    {
      hide Inv, Ledger.Post;
      var saved := Snapshot();
      RejectKeeps(saved, actor, id, reason);
      if !actor.Has({Finance}) { return Err(Forbidden); }
      if !Text(reason, 400) { return Err(Invalid); }
      if id >= |payouts| { return Err(NotFound); }
      var payout := payouts[id];
      if payout.status !in {Requested, Approved} { return Err(Conflict); }
      r := Post(Posting(PayoutRejected(id), PayoutReject, Some(actor.id),
                        [Line(payout.account, Reserved, -payout.amount), Line(payout.account, Available, payout.amount)]));
      if r.Err? {
        Rollback(saved);
      } else {
        payouts := payouts[id := payout.(status := Rejected, evidence := Some(reason))];
      }
    }

    method Conclude(actor: Actor, id: nat, input: OutcomeInput) returns (r: Outcome<()>)
      requires Valid()
      modifies this
      ensures Valid() && Did(old(Snapshot()), Model.Conclude(old(Snapshot()), actor, id, input), r)
    {
      hide Inv, Ledger.Post;
      var saved := Snapshot();
      ConcludeKeeps(saved, actor, id, input);
      if !actor.Has({Finance}) { return Err(Forbidden); }
      if !Text(input.evidence, 1000) || input.status !in {Succeeded, Failed, Unknown} { return Err(Invalid); }
      if input.providerReference.Some? && !Text(input.providerReference.value, 160) { return Err(Invalid); }
      if input.status == Succeeded && input.providerReference == None { return Err(Invalid); }
      if id >= |payouts| { return Err(NotFound); }
      var payout := payouts[id];
      if payout.status !in {Processing, Unknown} { return Err(Conflict); }
      if payout.requestedBy == actor.id { return Err(Conflict); }
      if input.status != Unknown {
        var kind, destination := PayoutFailed, payout.account;
        if input.status == Succeeded {
          kind, destination := PayoutPaid, CLEARING;
        }
        r := Post(Posting(PayoutClosed(id), kind, Some(actor.id),
                          [Line(payout.account, Reserved, -payout.amount), Line(destination, Available, payout.amount)]));
        if r.Err? {
          Rollback(saved);
          return;
        }
      }
      if input.providerReference.Some?
         && exists i :: 0 <= i < |payouts| && i != id && payouts[i].providerReference == input.providerReference
      {
        Rollback(saved);
        return Err(Duplicate);
      }
      var reference := if input.providerReference.Some? then input.providerReference else payout.providerReference;
      payouts := payouts[id := payout.(status := input.status, providerReference := reference, evidence := Some(input.evidence))];
      return Ok(());
    }
  }
}

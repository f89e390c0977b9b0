/** Each posting a service builds moves the closed form of the wallets by exactly its net
    effect; so it is always acceptable, and what it leaves behind is again sound. */
module Postings {
  import opened Wrappers
  import opened Errors
  import opened Sums
  import opened Domain
  import opened Ledger
  import opened Model
  import opened Invariants

  /** The posting changes the closed form from the old rows to the new ones. */
  ghost predicate Moves(lines: seq<Line>, orders: seq<Order>, payouts: seq<Payout>, orders': seq<Order>, payouts': seq<Payout>) {
    forall a, b :: Expected(orders', payouts', a, b) == Expected(orders, payouts, a, b) + Net(lines, a, b)
  }

  ghost predicate ModestLines(lines: seq<Line>) {
    |lines| <= 8 && forall l :: l in lines ==> -MAX_OPERATION_MINOR <= l.delta <= MAX_OPERATION_MINOR
  }

  lemma {:induction false} NetBound(lines: seq<Line>, a: AccountId, b: Bucket)
    requires forall l :: l in lines ==> -MAX_OPERATION_MINOR <= l.delta <= MAX_OPERATION_MINOR
    ensures -MAX_OPERATION_MINOR * |lines| <= Net(lines, a, b) <= MAX_OPERATION_MINOR * |lines|
  {
    if lines != [] {
      NetBound(lines[1..], a, b);
    }
  }

  // --------------------------------------------------- orders and their rows

  /** The allocations of a sound order never owe: each slot keeps between nothing and its share. */
  lemma OrderSlots(o: Order)
    requires OrderOk(o)
    ensures forall i :: 0 <= i < |o.allocations| ==> 0 <= o.allocations[i].refunded <= o.allocations[i].original <= o.paid
    ensures SumBy(o.allocations, OriginalOf()) == o.paid
    ensures SumBy(o.allocations, RefundedOf()) == o.refunded
    ensures forall a :: 0 <= SumBy(o.allocations, NetTo(a))
    ensures SumBy(o.allocations, NetTo(CLEARING)) == 0
  {
    var originals := Originals(o.allocations);
    ApportionConserves(originals, o.refunded);
    TotalNonNegative(originals);
    assert forall i :: 0 <= i < |o.allocations| ==> originals[i] == o.allocations[i].original;
    SumIsTotal(o.allocations, OriginalOf(), originals);
    SumIsTotal(o.allocations, RefundedOf(), Apportion(originals, o.refunded));
    forall a
      ensures 0 <= SumBy(o.allocations, NetTo(a))
    {
      SumNonNegative(o.allocations, NetTo(a));
    }
    SumZero(o.allocations, NetTo(CLEARING));
  }

  lemma PayoutCellsNonNegative(p: Payout, a: AccountId)
    requires PayoutOk(p)
    ensures PayoutCell(a, Frozen)(p) == 0 && PayoutCell(a, Reserved)(p) >= 0
  {
  }

  /** The closed form of the two buckets a CHECK protects is never negative. */
  lemma ExpectedNonNegative(orders: seq<Order>, payouts: seq<Payout>, a: AccountId, b: Bucket)
    requires forall i :: 0 <= i < |orders| ==> OrderOk(orders[i])
    requires forall i :: 0 <= i < |payouts| ==> PayoutOk(payouts[i])
    requires b != Available
    ensures Expected(orders, payouts, a, b) >= 0
  {
    forall i | 0 <= i < |orders|
      ensures OrderCell(a, b)(orders[i]) >= 0
    {
      OrderSlots(orders[i]);
    }
    SumNonNegative(orders, OrderCell(a, b));
    forall i | 0 <= i < |payouts|
      ensures PayoutCell(a, b)(payouts[i]) >= 0
    {
      PayoutCellsNonNegative(payouts[i], a);
    }
    SumNonNegative(payouts, PayoutCell(a, b));
  }

  // -------------------------------------------------------- one posting's effect

  /** What the debt bound asks of a posting. */
  ghost predicate DebtStep(books: Books, p: Posting) {
    forall a :: a in books.wallets && a != CLEARING ==>
      var net := Net(p.lines, a, Available);
      if p.kind == RefundJournal then net <= 0 else net >= 0 || books.wallets[a].available + net >= 0
  }

  /** A balanced posting that moves sound rows to sound rows is acceptable, and so can
      only fail for an overflow. */
  lemma SoundPosting(books: Books, p: Posting, orders: seq<Order>, payouts: seq<Payout>,
                     orders': seq<Order>, payouts': seq<Payout>)
    requires Projects(books, orders, payouts)
    requires Moves(p.lines, orders, payouts, orders', payouts')
    requires forall i :: 0 <= i < |orders'| ==> OrderOk(orders'[i])
    requires forall i :: 0 <= i < |payouts'| ==> PayoutOk(payouts'[i])
    requires ModestLines(p.lines) && KnownAccounts(books.wallets, p.lines)
    requires SumBy(p.lines, Delta()) == 0 && !KeyUsed(books.journals, p.key)
    ensures Acceptable(books, p)
    ensures Post(books, p).Err? ==> Post(books, p).error == OutOfRange
  {
    forall a, b
      ensures InI64(Net(p.lines, a, b))
    {
      NetBound(p.lines, a, b);
    }
    forall a, b | a in books.wallets && b != Available
      ensures books.wallets[a].Cell(b) + Net(p.lines, a, b) >= 0
    {
      ExpectedNonNegative(orders', payouts', a, b);
    }
    PostAccepts(books, p);
  }

  /** Accepting it keeps the closed form, the ledger and the debt bound. */
  lemma PostKeeps(books: Books, p: Posting, orders: seq<Order>, payouts: seq<Payout>,
                  orders': seq<Order>, payouts': seq<Payout>)
    requires Projects(books, orders, payouts) && LedgerOk(books) && DebtBounded(books)
    requires Moves(p.lines, orders, payouts, orders', payouts') && DebtStep(books, p)
    requires forall l :: l in p.lines ==> l.account in books.wallets
    requires Post(books, p).Ok?
    ensures Projects(Post(books, p).value, orders', payouts')
    ensures LedgerOk(Post(books, p).value)
    ensures DebtBounded(Post(books, p).value)
  {
    var books' := Post(books, p).value;
    PostEffect(books, p);
    if books' == books {
      forall a, b | a in books.wallets
        ensures Net(p.lines, a, b) == 0
      {
        assert books'.wallets[a].Cell(b) == books.wallets[a].Cell(b) + Net(p.lines, a, b);
      }
    } else {
      var j :| books'.journals == books.journals + [j] && j.kind == p.kind && Balanced(j)
               && KnownAccounts(books.wallets, j.entries)
               && forall a, b :: Net(j.entries, a, b) == Net(p.lines, a, b);
      LedgerGrows(books, books', j);
      DebtGrows(books, books', j, p);
    }
  }

  lemma LedgerGrows(books: Books, books': Books, j: Journal)
    requires LedgerOk(books) && books'.journals == books.journals + [j]
    requires Balanced(j) && KnownAccounts(books.wallets, j.entries)
    requires books'.wallets.Keys == books.wallets.Keys
    requires forall a, b :: a in books.wallets ==>
               books'.wallets[a].Cell(b) == books.wallets[a].Cell(b) + Net(j.entries, a, b)
    ensures LedgerOk(books')
  {
    forall a, b | a in books'.wallets
      ensures books'.wallets[a].Cell(b) == SumBy(books'.journals, JournalCell(a, b))
    {
      SumAppend(books.journals, j, JournalCell(a, b));
    }
  }

  lemma DebtGrows(books: Books, books': Books, j: Journal, p: Posting)
    requires DebtBounded(books) && DebtStep(books, p)
    requires books'.journals == books.journals + [j] && j.kind == p.kind
    requires books'.wallets.Keys == books.wallets.Keys
    requires forall l :: l in p.lines ==> l.account in books.wallets
    requires forall a, b :: Net(j.entries, a, b) == Net(p.lines, a, b)
    requires forall a, b :: a in books.wallets ==>
               books'.wallets[a].Cell(b) == books.wallets[a].Cell(b) + Net(p.lines, a, b)
    ensures DebtBounded(books')
  {
    forall a | a != CLEARING
      ensures Clawback(a)(j) >= 0
    {
      if a !in books.wallets {
        NetOfOther(p.lines, a, Available);
      }
    }
    forall a | a in books'.wallets && a != CLEARING
      ensures books'.wallets[a].available >= -SumBy(books'.journals, Clawback(a))
    {
      SumAppend(books.journals, j, Clawback(a));
      SumNonNegative(books.journals, Clawback(a));
      assert books'.wallets[a].Cell(Available) == books.wallets[a].Cell(Available) + Net(p.lines, a, Available);
    }
  }

  // ------------------------------------------------ the lines of each service

  lemma NetCons(l: Line, rest: seq<Line>, f: Line -> int)
    ensures SumBy([l] + rest, f) == f(l) + SumBy(rest, f)
  {
    assert ([l] + rest)[1..] == rest;
  }

  lemma CaptureMoves(o: Order)
    requires OrderOk(o) && o.refunded == 0 && o.releasedAt == None
    ensures forall a, b :: Net(CaptureLines(o.paid, o.allocations), a, b) == OrderCell(a, b)(o)
    ensures SumBy(CaptureLines(o.paid, o.allocations), Delta()) == 0
    ensures ModestLines(CaptureLines(o.paid, o.allocations))
  {
    OrderSlots(o);
    var head, tail := Line(CLEARING, Available, -o.paid), LinesOf(o.allocations, FreezeLine());
    forall i | 0 <= i < |o.allocations|
      ensures o.allocations[i].refunded == 0 && tail[i] == Line(o.allocations[i].account, Frozen, o.allocations[i].original)
    {
      ApportionEnds(Originals(o.allocations));
    }
    forall a, b
      ensures Net([head] + tail, a, b) == OrderCell(a, b)(o)
    {
      NetCons(head, tail, At(a, b));
      if b == Frozen {
        SumPlus(tail, At(a, b), o.allocations, NetTo(a), o.allocations, Nothing());
        SumZero(o.allocations, Nothing());
      } else {
        SumZero(tail, At(a, b));
      }
    }
    NetCons(head, tail, Delta());
    SumIsTotal(tail, Delta(), Originals(o.allocations));
  }

  function Nothing<T>(): T -> int {
    _ => 0
  }

  lemma RefundMoves(o: Order, o': Order, amount: int, targets: seq<int>)
    requires OrderOk(o) && Positive(amount) && o.refunded + amount <= o.paid
    requires targets == Apportion(Originals(o.allocations), o.refunded + amount)
    requires o' == o.(refunded := o.refunded + amount, allocations := Retarget(o.allocations, targets))
    ensures OrderOk(o')
    ensures forall i :: 0 <= i < |targets| ==> o.allocations[i].refunded <= targets[i]
    ensures forall a, b :: Net(RefundLines(o, amount, targets), a, b) == OrderCell(a, b)(o') - OrderCell(a, b)(o)
    ensures SumBy(RefundLines(o, amount, targets), Delta()) == 0
    ensures ModestLines(RefundLines(o, amount, targets))
  {
    var parts, parts' := o.allocations, o'.allocations;
    assert Originals(parts') == Originals(parts);
    OrderSlots(o);
    OrderSlots(o');
    ApportionMonotone(Originals(parts), o.refunded, o'.refunded);
    var head := Line(CLEARING, Available, amount);
    var tail := seq(|parts|, i requires 0 <= i < |parts| => Line(parts[i].account, Holding(o), -(targets[i] - parts[i].refunded)));
    forall a, b
      ensures Net([head] + tail, a, b) == OrderCell(a, b)(o') - OrderCell(a, b)(o)
    {
      NetCons(head, tail, At(a, b));
      if b == Holding(o) {
        SumPlus(parts', NetTo(a), parts, NetTo(a), tail, At(a, b));
      } else {
        SumZero(tail, At(a, b));
      }
    }
    NetCons(head, tail, Delta());
    SumPlus(parts, RefundedOf(), parts', RefundedOf(), tail, Delta());
  }

  lemma {:induction false} ReleaseNet(allocations: seq<Allocation>, a: AccountId, b: Bucket)
    ensures Net(ReleaseLines(allocations), a, b)
            == if b == Frozen then -SumBy(allocations, NetTo(a)) else if b == Available then SumBy(allocations, NetTo(a)) else 0
  {
    if allocations != [] {
      var rest := ReleaseLines(allocations[1..]);
      ReleaseNet(allocations[1..], a, b);
      var l := ReleaseLines(allocations);
      NetCons(l[0], [l[1]] + rest, At(a, b));
      NetCons(l[1], rest, At(a, b));
      assert l == [l[0]] + ([l[1]] + rest);
    }
  }

  lemma {:induction false} ReleaseSize(allocations: seq<Allocation>)
    requires forall p :: p in allocations ==> 0 <= p.refunded <= p.original <= MAX_OPERATION_MINOR
    ensures |ReleaseLines(allocations)| == 2 * |allocations|
    ensures SumBy(ReleaseLines(allocations), Delta()) == 0
    ensures forall l :: l in ReleaseLines(allocations) ==>
              -MAX_OPERATION_MINOR <= l.delta <= MAX_OPERATION_MINOR && exists p :: p in allocations && p.account == l.account
  {
    if allocations != [] {
      var rest := ReleaseLines(allocations[1..]);
      ReleaseSize(allocations[1..]);
      var l := ReleaseLines(allocations);
      NetCons(l[0], [l[1]] + rest, Delta());
      NetCons(l[1], rest, Delta());
      assert l == [l[0]] + ([l[1]] + rest);
      assert allocations[0] in allocations;
    }
  }

  lemma ReleasedIsOk(o: Order, now: int)
    requires OrderOk(o) && o.releasedAt == None && o.unlockAt <= now
    ensures OrderOk(o.(releasedAt := Some(now)))
  {
  }

  lemma ReleaseMoves(o: Order, now: int)
    requires OrderOk(o) && o.releasedAt == None && o.unlockAt <= now
    ensures OrderOk(o.(releasedAt := Some(now)))
    ensures forall a, b :: Net(ReleaseLines(o.allocations), a, b)
                           == OrderCell(a, b)(o.(releasedAt := Some(now))) - OrderCell(a, b)(o)
    ensures forall a :: Net(ReleaseLines(o.allocations), a, Available) >= 0
    ensures SumBy(ReleaseLines(o.allocations), Delta()) == 0
    ensures ModestLines(ReleaseLines(o.allocations))
  {
    hide OrderOk, ReleaseLines, Net;
    ReleasedIsOk(o, now);
    OrderSlots(o);
    ReleaseSize(o.allocations);
    forall a, b
      ensures Net(ReleaseLines(o.allocations), a, b) == OrderCell(a, b)(o.(releasedAt := Some(now))) - OrderCell(a, b)(o)
    {
      ReleaseNet(o.allocations, a, b);
    }
    forall a
      ensures Net(ReleaseLines(o.allocations), a, Available) >= 0
    {
      ReleaseNet(o.allocations, a, Available);
    }
  }

  lemma TransferNet(from: AccountId, fromBucket: Bucket, to: AccountId, toBucket: Bucket, amount: int)
    requires Positive(amount)
    ensures var lines := Transfer(from, fromBucket, to, toBucket, amount);
            && SumBy(lines, Delta()) == 0 && ModestLines(lines)
            && forall a, b :: Net(lines, a, b) == (if a == to && b == toBucket then amount else 0)
                                                  - (if a == from && b == fromBucket then amount else 0)
  {
    var lines := Transfer(from, fromBucket, to, toBucket, amount);
    assert lines[1..] == [lines[1]];
    forall a, b
      ensures Net(lines, a, b) == (if a == to && b == toBucket then amount else 0) - (if a == from && b == fromBucket then amount else 0)
    {
      assert SumBy(lines[1..], At(a, b)) == At(a, b)(lines[1]);
    }
    assert SumBy(lines[1..], Delta()) == lines[1].delta;
  }
}

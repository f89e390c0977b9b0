/** Postings, journals and wallet projections: src/ledger.rs and the ledger triggers of
    migrations/0001_initial.sql. */
module Ledger {
  import opened Wrappers
  import opened Errors
  import opened Sums
  import opened Domain

  /** An account id; the order of ids is the order in which wallets are locked. */
  type AccountId = nat
  type ActorId = nat

  const PLATFORM: AccountId := 1
  const CLEARING: AccountId := 2

  datatype Bucket = Frozen | Available | Reserved

  datatype Line = Line(account: AccountId, bucket: Bucket, delta: int)

  datatype Kind = CaptureJournal | RefundJournal | ReleaseJournal | PayoutReserve | PayoutReject | PayoutPaid | PayoutFailed

  /** The event keys `capture:{id}`, `refund:{id}`, ... as values. */
  datatype EventKey =
    | OrderCaptured(order: nat)
    | OrderRefunded(refund: nat)
    | OrderReleased(order: nat)
    | PayoutReserved(payout: nat)
    | PayoutRejected(payout: nat)
    | PayoutClosed(payout: nat)

  datatype Posting = Posting(key: EventKey, kind: Kind, actor: Option<ActorId>, lines: seq<Line>)

  datatype Journal = Journal(key: EventKey, kind: Kind, actor: Option<ActorId>, entries: seq<Line>)

  datatype Wallet = Wallet(frozen: int, available: int, reserved: int) {
    function Cell(b: Bucket): int {
      match b case Frozen => frozen case Available => available case Reserved => reserved
    }

    function Add(b: Bucket, delta: int): Wallet {
      match b
      case Frozen => this.(frozen := frozen + delta)
      case Available => this.(available := available + delta)
      case Reserved => this.(reserved := reserved + delta)
    }
  }

  /** The wallets table and the append-only journals with their entries. */
  datatype Books = Books(wallets: map<AccountId, Wallet>, journals: seq<Journal>)

  // ------------------------------------------------- combining posting lines

  /** The position of an (account, bucket) pair in the order of the combining map. */
  function Key(account: AccountId, bucket: Bucket): int {
    3 * account + match bucket case Frozen => 0 case Available => 1 case Reserved => 2
  }

  function KeyOf(l: Line): int {
    Key(l.account, l.bucket)
  }

  /** What a line adds to one cell, and what it adds overall. */
  function At(a: AccountId, b: Bucket): Line -> int {
    (l: Line) => if l.account == a && l.bucket == b then l.delta else 0
  }

  function Delta(): Line -> int {
    (l: Line) => l.delta
  }

  /** The net change a list of lines makes to one cell. */
  function Net(lines: seq<Line>, a: AccountId, b: Bucket): int {
    SumBy(lines, At(a, b))
  }

  /** `entry(key).or_default() += delta` on a map kept as a list in key order. */
  function Upsert(m: seq<Line>, l: Line): seq<Line> {
    if m == [] then [l]
    else if KeyOf(l) == KeyOf(m[0]) then [m[0].(delta := m[0].delta + l.delta)] + m[1..]
    else if KeyOf(l) < KeyOf(m[0]) then [l] + m
    else [m[0]] + Upsert(m[1..], l)
  }

  function Accumulate(lines: seq<Line>): seq<Line> {
    if lines == [] then [] else Upsert(Accumulate(lines[..|lines| - 1]), lines[|lines| - 1])
  }

  function NonZero(m: seq<Line>): seq<Line> {
    if m == [] then [] else (if m[0].delta != 0 then [m[0]] else []) + NonZero(m[1..])
  }

  /** The entries a posting turns into. */
  function Combine(lines: seq<Line>): seq<Line> {
    NonZero(Accumulate(lines))
  }

  ghost predicate Above(x: Line, m: seq<Line>) {
    forall e :: e in m ==> KeyOf(x) < KeyOf(e)
  }

  ghost predicate Ascending(m: seq<Line>) {
    m == [] || (Above(m[0], m[1..]) && Ascending(m[1..]))
  }

  lemma {:induction false} AscendingAt(m: seq<Line>, i: nat, j: nat)
    requires Ascending(m) && i < j < |m|
    ensures KeyOf(m[i]) < KeyOf(m[j])
  {
    if i == 0 {
      assert m[j] == m[1..][j - 1];
    } else {
      AscendingAt(m[1..], i - 1, j - 1);
    }
  }

  /** Contributions that add up when two lines of the same cell are merged. */
  ghost predicate Linear(f: Line -> int) {
    && (forall a, b :: f(Line(a, b, 0)) == 0)
    && (forall a, b, x, y :: f(Line(a, b, x + y)) == f(Line(a, b, x)) + f(Line(a, b, y)))
  }

  lemma LinearContributions()
    ensures forall a, b :: Linear(At(a, b))
    ensures Linear(Delta())
  {
  }

  lemma {:induction false} UpsertSum(m: seq<Line>, l: Line, f: Line -> int)
    requires Linear(f)
    ensures SumBy(Upsert(m, l), f) == SumBy(m, f) + f(l)
  {
    if m != [] {
      if KeyOf(l) == KeyOf(m[0]) {
        assert f(Line(l.account, l.bucket, m[0].delta + l.delta)) == f(m[0]) + f(l);
        assert Upsert(m, l)[1..] == m[1..];
      } else if KeyOf(l) < KeyOf(m[0]) {
        assert Upsert(m, l)[1..] == m;
      } else {
        UpsertSum(m[1..], l, f);
        assert Upsert(m, l)[1..] == Upsert(m[1..], l);
      }
    }
  }

  /** The cells an accumulated list names. */
  ghost function Cells(m: seq<Line>): set<(AccountId, Bucket)> {
    set e | e in m :: (e.account, e.bucket)
  }

  lemma CellsCons(x: Line, m: seq<Line>)
    ensures Cells([x] + m) == {(x.account, x.bucket)} + Cells(m)
  {
    assert forall e :: e in [x] + m <==> e == x || e in m;
  }

  lemma {:induction false} UpsertCells(m: seq<Line>, l: Line)
    ensures |Upsert(m, l)| <= |m| + 1
    ensures Cells(Upsert(m, l)) == Cells(m) + {(l.account, l.bucket)}
  {
    if m == [] {
      CellsCons(l, []);
    } else {
      var x, tail := m[0], m[1..];
      assert m == [x] + tail;
      CellsCons(x, tail);
      if KeyOf(l) == KeyOf(x) {
        CellsCons(x.(delta := x.delta + l.delta), tail);
      } else if KeyOf(l) < KeyOf(x) {
        CellsCons(l, m);
      } else {
        UpsertCells(tail, l);
        CellsCons(x, Upsert(tail, l));
      }
    }
  }

  lemma {:induction false} UpsertOrder(m: seq<Line>, l: Line)
    requires Ascending(m)
    ensures Ascending(Upsert(m, l))
  {
    if m != [] && KeyOf(l) > KeyOf(m[0]) {
      var rest := Upsert(m[1..], l);
      UpsertOrder(m[1..], l);
      UpsertCells(m[1..], l);
      assert Upsert(m, l)[1..] == rest;
      forall e | e in rest
        ensures KeyOf(m[0]) < KeyOf(e)
      {
        assert (e.account, e.bucket) in Cells(rest);
      }
    } else {
      assert m != [] ==> Upsert(m, l)[1..] == if KeyOf(l) == KeyOf(m[0]) then m[1..] else m;
    }
  }

  lemma {:induction false} AccumulateSum(lines: seq<Line>, f: Line -> int)
    requires Linear(f)
    ensures SumBy(Accumulate(lines), f) == SumBy(lines, f)
  {
    if lines != [] {
      var init, last := lines[..|lines| - 1], lines[|lines| - 1];
      assert lines == init + [last];
      AccumulateSum(init, f);
      UpsertSum(Accumulate(init), last, f);
      SumAppend(init, last, f);
    }
  }

  lemma {:induction false} AccumulateOrder(lines: seq<Line>)
    ensures Ascending(Accumulate(lines))
    ensures |Accumulate(lines)| <= |lines|
    ensures Cells(Accumulate(lines)) == Cells(lines)
  {
    if lines != [] {
      var init, last := lines[..|lines| - 1], lines[|lines| - 1];
      assert lines == init + [last];
      AccumulateOrder(init);
      UpsertOrder(Accumulate(init), last);
      UpsertCells(Accumulate(init), last);
    }
  }

  lemma {:induction false} NonZeroSound(m: seq<Line>, f: Line -> int)
    requires Ascending(m) && Linear(f)
    ensures Ascending(NonZero(m))
    ensures SumBy(NonZero(m), f) == SumBy(m, f)
    ensures |NonZero(m)| <= |m|
    ensures forall e :: e in NonZero(m) ==> e in m && e.delta != 0
  {
    if m != [] {
      NonZeroSound(m[1..], f);
      var rest := NonZero(m[1..]);
      if m[0].delta != 0 {
        assert NonZero(m)[1..] == rest;
      } else {
        assert f(m[0]) == f(Line(m[0].account, m[0].bucket, 0)) == 0;
        assert NonZero(m) == rest;
      }
    }
  }

  /** The entries of a posting: in strictly ascending cell order (so no cell occurs twice),
      none zero, and with the same net effect as the raw lines. */
  lemma CombineSound(lines: seq<Line>)
    ensures Ascending(Combine(lines)) && |Combine(lines)| <= |lines|
    ensures forall e :: e in Combine(lines) ==> e.delta != 0 && exists l :: l in lines && l.account == e.account
    ensures forall a, b :: Net(Combine(lines), a, b) == Net(lines, a, b)
    ensures SumBy(Combine(lines), Delta()) == SumBy(lines, Delta())
  {
    LinearContributions();
    AccumulateOrder(lines);
    AccumulateSum(lines, Delta());
    NonZeroSound(Accumulate(lines), Delta());
    forall e | e in Combine(lines)
      ensures exists l :: l in lines && l.account == e.account
    {
      assert (e.account, e.bucket) in Cells(Accumulate(lines));
    }
    forall a, b
      ensures Net(Combine(lines), a, b) == Net(lines, a, b)
    {
      AccumulateSum(lines, At(a, b));
      NonZeroSound(Accumulate(lines), At(a, b));
    }
  }

  /** In ascending entries each entry is the whole net change of its cell. */
  lemma {:induction false} NetOfEntry(m: seq<Line>, i: nat)
    requires Ascending(m) && i < |m|
    ensures Net(m, m[i].account, m[i].bucket) == m[i].delta
  {
    if i == 0 {
      NetOfOther(m[1..], m[0].account, m[0].bucket);
    } else {
      AscendingAt(m, 0, i);
      NetOfEntry(m[1..], i - 1);
    }
  }

  lemma {:induction false} NetOfOther(m: seq<Line>, a: AccountId, b: Bucket)
    requires forall e :: e in m ==> e.account != a || e.bucket != b
    ensures Net(m, a, b) == 0
  {
    if m != [] {
      NetOfOther(m[1..], a, b);
    }
  }

  /** Entries are determined by their net effect on every cell. */
  lemma {:induction false} EntriesUnique(m: seq<Line>, n: seq<Line>)
    requires Ascending(m) && Ascending(n)
    requires forall e :: e in m + n ==> e.delta != 0
    requires forall a, b :: Net(m, a, b) == Net(n, a, b)
    ensures m == n
  {
    if m == [] && n == [] {
    } else if n == [] || (m != [] && KeyOf(m[0]) < KeyOf(n[0])) {
      OnlyInFirst(m, n);
    } else if m == [] || KeyOf(n[0]) < KeyOf(m[0]) {
      OnlyInFirst(n, m);
    } else {
      NetOfEntry(m, 0);
      NetOfEntry(n, 0);
      assert m[0] == n[0] && m[0] in m + n;
      forall a, b
        ensures Net(m[1..], a, b) == Net(n[1..], a, b)
      {
        assert Net(m, a, b) == Net(n, a, b);
      }
      EntriesUnique(m[1..], n[1..]);
      assert m == [m[0]] + m[1..] && n == [n[0]] + n[1..];
    }
  }

  lemma OnlyInFirst(m: seq<Line>, n: seq<Line>)
    requires Ascending(m) && Ascending(n) && m != [] && m[0].delta != 0
    requires n == [] || KeyOf(m[0]) < KeyOf(n[0])
    ensures Net(m, m[0].account, m[0].bucket) != Net(n, m[0].account, m[0].bucket)
  {
    NetOfEntry(m, 0);
    assert forall e :: e in n ==> e == n[0] || e in n[1..];
    NetOfOther(n, m[0].account, m[0].bucket);
  }

  lemma Extract<T>(t: seq<T>, i: nat)
    requires i < |t|
    ensures multiset(t[..i] + t[i + 1..]) == multiset(t) - multiset{t[i]}
  {
    assert t == t[..i] + ([t[i]] + t[i + 1..]);
  }

  lemma SumExtract<T>(t: seq<T>, i: nat, f: T -> int)
    requires i < |t|
    ensures SumBy(t, f) == f(t[i]) + SumBy(t[..i] + t[i + 1..], f)
  {
    assert t == t[..i] + ([t[i]] + t[i + 1..]);
    SumConcat(t[..i], [t[i]] + t[i + 1..], f);
    SumConcat([t[i]], t[i + 1..], f);
    SumConcat(t[..i], t[i + 1..], f);
  }

  /** Removing the first element from both of two reorderings leaves reorderings. */
  lemma Removal<T>(s: seq<T>, t: seq<T>) returns (i: nat)
    requires multiset(s) == multiset(t) && s != []
    ensures i < |t| && t[i] == s[0] && multiset(s[1..]) == multiset(t[..i] + t[i + 1..])
  {
    assert s[0] in multiset(t);
    i :| 0 <= i < |t| && t[i] == s[0];
    WithoutFirst(s);
    Extract(t, i);
  }

  lemma WithoutFirst<T>(s: seq<T>)
    requires s != []
    ensures multiset(s[1..]) == multiset(s) - multiset{s[0]}
  {
    assert s == [s[0]] + s[1..];
  }

  lemma {:induction false} SumOfMultiset<T>(s: seq<T>, t: seq<T>, f: T -> int)
    requires multiset(s) == multiset(t)
    ensures SumBy(s, f) == SumBy(t, f)
  {
    if s == [] {
      assert t == [] by { assert |multiset(t)| == 0; }
    } else {
      var i := Removal(s, t);
      SumOfMultiset(s[1..], t[..i] + t[i + 1..], f);
      SumExtract(t, i, f);
    }
  }

  /** The order in which a posting lists its lines does not matter, whatever cells coincide. */
  lemma CombineIgnoresOrder(lines: seq<Line>, lines': seq<Line>)
    requires multiset(lines) == multiset(lines')
    ensures Combine(lines) == Combine(lines')
  {
    CombineSound(lines);
    CombineSound(lines');
    forall a, b
      ensures Net(Combine(lines), a, b) == Net(Combine(lines'), a, b)
    {
      SumOfMultiset(lines, lines', At(a, b));
    }
    EntriesUnique(Combine(lines), Combine(lines'));
  }

  // ------------------------------------------------------------- posting

  const MAX_LINE_NO: int := 0x7FFF

  predicate KnownAccounts(wallets: map<AccountId, Wallet>, lines: seq<Line>) {
    forall l :: l in lines ==> l.account in wallets
  }

  /** The entry trigger on one row: the wallet column, its range and its CHECK. */
  function ApplyEntry(wallets: map<AccountId, Wallet>, e: Line): Outcome<map<AccountId, Wallet>>
    requires e.account in wallets
  {
    var w := wallets[e.account].Add(e.bucket, e.delta);
    if !InI64(w.Cell(e.bucket)) then Err(OutOfRange)
    else if e.bucket != Available && w.Cell(e.bucket) < 0 then Err(CheckViolation)
    else Ok(wallets[e.account := w])
  }

  /** Inserting the entries numbered from `index` on. */
  function ApplyEntries(wallets: map<AccountId, Wallet>, entries: seq<Line>, index: nat): Outcome<map<AccountId, Wallet>>
    requires index <= |entries| && KnownAccounts(wallets, entries)
    decreases |entries| - index
  {
    if index == |entries| then Ok(wallets)
    else if !InI64(entries[index].delta) || index > MAX_LINE_NO then Err(Internal)
    else
      match ApplyEntry(wallets, entries[index])
      case Err(e) => Err(e)
      case Ok(wallets') => ApplyEntries(wallets', entries, index + 1)
  }

  predicate KeyUsed(journals: seq<Journal>, key: EventKey) {
    exists i :: 0 <= i < |journals| && journals[i].key == key
  }

  ghost function Post(books: Books, p: Posting): Outcome<Books> {
    var entries := Combine(p.lines);
    if entries == [] then Ok(books)
    else if |entries| < 2 || SumBy(entries, Delta()) != 0 then Err(Internal)
    else if !KnownAccounts(books.wallets, entries) then Err(Internal)
    else if KeyUsed(books.journals, p.key) then Err(EventKeyTaken)
    else
      match ApplyEntries(books.wallets, entries, 0)
      case Err(e) => Err(e)
      case Ok(wallets) => Ok(Books(wallets, books.journals + [Journal(p.key, p.kind, p.actor, entries)]))
  }

  lemma {:induction false} EntryErrors(wallets: map<AccountId, Wallet>, entries: seq<Line>, index: nat)
    requires index <= |entries| && KnownAccounts(wallets, entries)
    ensures ApplyEntries(wallets, entries, index).Err? ==>
              ApplyEntries(wallets, entries, index).error in {Internal, CheckViolation, OutOfRange}
    decreases |entries| - index
  {
    if index < |entries| && ApplyEntry(wallets, entries[index]).Ok? {
      EntryErrors(ApplyEntry(wallets, entries[index]).value, entries, index + 1);
    }
  }

  /** A posting fails for reasons of the ledger only. */
  lemma PostErrors(books: Books, p: Posting)
    ensures Post(books, p).Err? ==> Post(books, p).error in {Internal, EventKeyTaken, CheckViolation, OutOfRange}
  {
    var entries := Combine(p.lines);
    if KnownAccounts(books.wallets, entries) {
      EntryErrors(books.wallets, entries, 0);
    }
  }

  /** The two conditions `reconcile` and the deferred trigger ask of a journal. */
  ghost predicate Balanced(j: Journal) {
    SumBy(j.entries, Delta()) == 0 && |j.entries| >= 2
  }

  lemma {:induction false} ApplyEffect(wallets: map<AccountId, Wallet>, entries: seq<Line>, index: nat)
    requires index <= |entries| && KnownAccounts(wallets, entries)
    requires ApplyEntries(wallets, entries, index).Ok?
    ensures var wallets' := ApplyEntries(wallets, entries, index).value;
            wallets'.Keys == wallets.Keys &&
            forall a, b :: a in wallets ==> wallets'[a].Cell(b) == wallets[a].Cell(b) + Net(entries[index..], a, b)
    decreases |entries| - index
  {
    if index < |entries| {
      var next := ApplyEntry(wallets, entries[index]).value;
      ApplyEffect(next, entries, index + 1);
      assert entries[index..][1..] == entries[index + 1..];
    }
  }

  /** A posting that is accepted moves every wallet cell by the sum of its raw lines, and
      appends at most one journal, which is balanced and has the same sums. */
  lemma PostEffect(books: Books, p: Posting)
    requires Post(books, p).Ok?
    ensures var books' := Post(books, p).value;
            && books'.wallets.Keys == books.wallets.Keys
            && (forall a, b :: a in books.wallets ==>
                  books'.wallets[a].Cell(b) == books.wallets[a].Cell(b) + Net(p.lines, a, b))
            && (books' == books
                || exists j :: && books'.journals == books.journals + [j]
                               && j.key == p.key && j.kind == p.kind && j.actor == p.actor
                               && Balanced(j) && KnownAccounts(books.wallets, j.entries)
                               && Ascending(j.entries) && (forall e :: e in j.entries ==> e.delta != 0)
                               && !KeyUsed(books.journals, p.key)
                               && forall a, b :: Net(j.entries, a, b) == Net(p.lines, a, b))
  {
    var entries := Combine(p.lines);
    CombineSound(p.lines);
    if entries != [] {
      ApplyEffect(books.wallets, entries, 0);
      assert entries[0..] == entries;
      var j := Journal(p.key, p.kind, p.actor, entries);
      assert Balanced(j) && Ascending(j.entries) && Post(books, p).value.journals == books.journals + [j];
    } else {
      forall a, b
        ensures Net(p.lines, a, b) == 0
      {
        assert Net(entries, a, b) == Net(p.lines, a, b);
      }
    }
  }

  ghost predicate Fits(wallets: map<AccountId, Wallet>, e: Line)
    requires e.account in wallets
  {
    InI64(wallets[e.account].Cell(e.bucket) + e.delta)
  }

  lemma {:induction false} ApplyAccepts(wallets: map<AccountId, Wallet>, entries: seq<Line>, index: nat)
    requires index <= |entries| <= MAX_LINE_NO + 1 && KnownAccounts(wallets, entries) && Ascending(entries)
    requires forall i :: index <= i < |entries| ==> InI64(entries[i].delta)
    requires forall i :: index <= i < |entries| && entries[i].bucket != Available ==>
               wallets[entries[i].account].Cell(entries[i].bucket) + entries[i].delta >= 0
    ensures ApplyEntries(wallets, entries, index).Ok?
            <==> forall i :: index <= i < |entries| ==> Fits(wallets, entries[i])
    ensures ApplyEntries(wallets, entries, index).Err? ==> ApplyEntries(wallets, entries, index).error == OutOfRange
    decreases |entries| - index
  {
    if index < |entries| {
      var e := entries[index];
      var r := ApplyEntry(wallets, e);
      if r.Ok? {
        forall i | index < i < |entries|
          ensures r.value[entries[i].account].Cell(entries[i].bucket) == wallets[entries[i].account].Cell(entries[i].bucket)
        {
          AscendingAt(entries, index, i);
        }
        ApplyAccepts(r.value, entries, index + 1);
      }
    }
  }

  /** What a service must bring for its posting to be beyond reproach: known accounts, a
      zero sum, an unused key, and no cell driven below its CHECK. */
  ghost predicate Acceptable(books: Books, p: Posting) {
    && |p.lines| <= MAX_LINE_NO + 1
    && KnownAccounts(books.wallets, p.lines)
    && SumBy(p.lines, Delta()) == 0
    && !KeyUsed(books.journals, p.key)
    && (forall a, b :: InI64(Net(p.lines, a, b)))
    && (forall a, b :: a in books.wallets && b != Available ==>
          books.wallets[a].Cell(b) + Net(p.lines, a, b) >= 0)
  }

  /** Some wallet cell the posting changes would leave the 64-bit range. */
  ghost predicate Overflows(books: Books, p: Posting) {
    exists a, b :: a in books.wallets && Net(p.lines, a, b) != 0
                   && !InI64(books.wallets[a].Cell(b) + Net(p.lines, a, b))
  }

  /** An acceptable posting is refused only for an overflow, and for every overflow. */
  lemma PostAccepts(books: Books, p: Posting)
    requires Acceptable(books, p)
    ensures Post(books, p).Ok? <==> !Overflows(books, p)
    ensures Post(books, p).Err? ==> Post(books, p).error == OutOfRange
  {
    var entries := Combine(p.lines);
    AcceptableEntries(books, p);
    if entries != [] {
      ApplyAccepts(books.wallets, entries, 0);
    }
    OverflowingEntry(books, p);
  }

  lemma OverflowingEntry(books: Books, p: Posting)
    requires Acceptable(books, p) && KnownAccounts(books.wallets, Combine(p.lines))
    ensures Overflows(books, p) <==> exists i :: 0 <= i < |Combine(p.lines)| && !Fits(books.wallets, Combine(p.lines)[i])
  {
    var entries := Combine(p.lines);
    AcceptableEntries(books, p);
    if Overflows(books, p) {
      var a, b :| a in books.wallets && Net(p.lines, a, b) != 0 && !InI64(books.wallets[a].Cell(b) + Net(p.lines, a, b));
      assert Net(entries, a, b) == Net(p.lines, a, b) by { CombineSound(p.lines); }
      var i := EntryOf(entries, a, b);
      assert !Fits(books.wallets, entries[i]);
    }
  }

  lemma EntryOf(entries: seq<Line>, a: AccountId, b: Bucket) returns (i: nat)
    requires Ascending(entries) && Net(entries, a, b) != 0
    ensures i < |entries| && entries[i] == Line(a, b, Net(entries, a, b))
  {
    if forall e :: e in entries ==> e.account != a || e.bucket != b {
      NetOfOther(entries, a, b);
    }
    i :| i < |entries| && entries[i].account == a && entries[i].bucket == b;
    NetOfEntry(entries, i);
  }

  lemma AcceptableEntries(books: Books, p: Posting)
    requires Acceptable(books, p)
    ensures var entries := Combine(p.lines);
            && Ascending(entries) && |entries| <= |p.lines|
            && KnownAccounts(books.wallets, entries) && SumBy(entries, Delta()) == 0 && |entries| != 1
            && forall i :: 0 <= i < |entries| ==> entries[i].delta == Net(p.lines, entries[i].account, entries[i].bucket) != 0
  {
    var entries := Combine(p.lines);
    CombineSound(p.lines);
    forall i | 0 <= i < |entries|
      ensures entries[i].delta == Net(p.lines, entries[i].account, entries[i].bucket) != 0
    {
      assert entries[i] in entries;
      NetOfEntry(entries, i);
    }
    forall e | e in entries
      ensures e.account in books.wallets
    {
      var l :| l in p.lines && l.account == e.account;
    }
    if entries != [] {
      assert SumBy(entries, Delta()) == entries[0].delta + SumBy(entries[1..], Delta());
    }
  }

  /** One entry passes its trigger's range and CHECK, and its own column. */
  ghost predicate Lands(wallets: map<AccountId, Wallet>, e: Line) {
    e.account in wallets && InI64(e.delta) && Fits(wallets, e) && (e.bucket != Available ==> wallets[e.account].Cell(e.bucket) + e.delta >= 0)
  }

  ghost predicate LandFrom(wallets: map<AccountId, Wallet>, entries: seq<Line>, index: nat) {
    && (index < |entries| ==> |entries| <= MAX_LINE_NO + 1)
    && forall i :: index <= i < |entries| ==> Lands(wallets, entries[i])
  }

  lemma LandShift(wallets: map<AccountId, Wallet>, wallets': map<AccountId, Wallet>, entries: seq<Line>, index: nat)
    requires index < |entries| && index <= MAX_LINE_NO && Lands(wallets, entries[index])
    requires forall i :: index < i < |entries| ==> (Lands(wallets', entries[i]) <==> Lands(wallets, entries[i]))
    ensures LandFrom(wallets', entries, index + 1) <==> LandFrom(wallets, entries, index)
  {
    hide Lands;
  }

  lemma {:induction false} ApplySucceedsIff(wallets: map<AccountId, Wallet>, entries: seq<Line>, index: nat)
    requires index <= |entries| && KnownAccounts(wallets, entries) && Ascending(entries)
    ensures ApplyEntries(wallets, entries, index).Ok? <==> LandFrom(wallets, entries, index)
    decreases |entries| - index
  {
    if index < |entries| {
      var r := ApplyEntry(wallets, entries[index]);
      assert entries[index] in entries;
      assert Lands(wallets, entries[index]) <==> InI64(entries[index].delta) && r.Ok?;
      if r.Ok? && InI64(entries[index].delta) && index <= MAX_LINE_NO {
        forall i | index < i < |entries|
          ensures Lands(r.value, entries[i]) <==> Lands(wallets, entries[i])
        {
          AscendingAt(entries, index, i);
        }
        ApplySucceedsIff(r.value, entries, index + 1);
        LandShift(wallets, r.value, entries, index);
      }
    }
  }

  /** One cell can take the net change the lines make to it. */
  ghost predicate CellTakes(books: Books, lines: seq<Line>, a: AccountId, b: Bucket) {
    && a in books.wallets && InI64(Net(lines, a, b))
    && InI64(books.wallets[a].Cell(b) + Net(lines, a, b))
    && (b != Available ==> books.wallets[a].Cell(b) + Net(lines, a, b) >= 0)
  }

  /** The entries are the changed cells. */
  lemma EntriesAreCells(books: Books, lines: seq<Line>)
    ensures KnownAccounts(books.wallets, Combine(lines)) && (forall e :: e in Combine(lines) ==> Lands(books.wallets, e))
            <==> forall a, b :: Net(lines, a, b) != 0 ==> CellTakes(books, lines, a, b)
  {
    var entries := Combine(lines);
    CombineSound(lines);
    forall e | e in entries
      ensures Net(lines, e.account, e.bucket) == e.delta != 0
    {
      var i :| 0 <= i < |entries| && entries[i] == e;
      NetOfEntry(entries, i);
    }
    if KnownAccounts(books.wallets, entries) && (forall e :: e in entries ==> Lands(books.wallets, e)) {
      forall a, b | Net(lines, a, b) != 0
        ensures CellTakes(books, lines, a, b)
      {
        var i := EntryOf(entries, a, b);
        assert entries[i] in entries && Lands(books.wallets, entries[i]);
      }
    } else if forall a, b :: Net(lines, a, b) != 0 ==> CellTakes(books, lines, a, b) {
      forall e | e in entries
        ensures e.account in books.wallets && Lands(books.wallets, e)
      {
        assert CellTakes(books, lines, e.account, e.bucket);
      }
    }
  }

  /** Exactly when a posting of any lines goes through: it changes nothing, or it is balanced,
      short enough, under a new key, and every cell it changes can take the change. */
  lemma PostSucceedsIff(books: Books, p: Posting)
    ensures Post(books, p).Ok?
            <==> || (forall a, b :: Net(p.lines, a, b) == 0)
                 || (&& SumBy(p.lines, Delta()) == 0 && |Combine(p.lines)| <= MAX_LINE_NO + 1
                     && !KeyUsed(books.journals, p.key)
                     && forall a, b :: Net(p.lines, a, b) != 0 ==> CellTakes(books, p.lines, a, b))
  {
    hide CellTakes, Lands, Net;
    var entries := Combine(p.lines);
    CombineSound(p.lines);
    EntriesAreCells(books, p.lines);
    EmptyIff(p.lines);
    if KnownAccounts(books.wallets, entries) {
      ApplySucceedsIff(books.wallets, entries, 0);
      assert (forall e :: e in entries ==> Lands(books.wallets, e))
             <==> forall i :: 0 <= i < |entries| ==> Lands(books.wallets, entries[i]);
    }
    if |entries| == 1 {
      assert entries[1..] == [] && SumBy(entries, Delta()) == entries[0].delta + SumBy(entries[1..], Delta());
      assert entries[0] in entries;
    }
  }

  lemma EmptyIff(lines: seq<Line>)
    ensures Combine(lines) == [] <==> forall a, b :: Net(lines, a, b) == 0
  {
    var entries := Combine(lines);
    CombineSound(lines);
    if entries != [] {
      NetOfEntry(entries, 0);
      assert entries[0] in entries && Net(lines, entries[0].account, entries[0].bucket) != 0;
    } else {
      forall a, b ensures Net(lines, a, b) == 0 {
        assert Net(entries, a, b) == 0;
      }
    }
  }
}

/** The timestamp-guarded projection of platform observations (src/platform/store.rs): the
    order and the commission upsert have the same shape. Each table keeps what was observed
    and one current row per business key. */
module Projection {
  import opened Wrappers

  type Time = int

  /** `current` stands for the columns that are always overwritten, `known` for the
      non-NULL values of the columns under COALESCE. */
  datatype Observation<C, V> = Observation(key: string, at: Time, current: C, known: map<string, V>)

  /** UNIQUE(raw_event_id, observation_hash) identifies an observation row. */
  datatype Arrival<C, V> = Arrival(raw: nat, seen: Observation<C, V>)

  datatype Row<C, V> = Row(latest: Arrival<C, V>, at: Time, current: C, known: map<string, V>)

  /** INSERT … ON CONFLICT DO UPDATE … WHERE the observation is not older. */
  function Upsert<C, V>(row: Option<Row<C, V>>, a: Arrival<C, V>): Row<C, V> {
    if row.None? then Row(a, a.seen.at, a.seen.current, a.seen.known)
    else if a.seen.at >= row.value.at then Row(a, a.seen.at, a.seen.current, row.value.known + a.seen.known)
    else row.value
  }

  /** What a sequence of arrivals for one key makes of its row. */
  function Fold<C, V>(row: Option<Row<C, V>>, arrivals: seq<Arrival<C, V>>): Option<Row<C, V>> {
    if arrivals == [] then row
    else Some(Upsert(Fold(row, arrivals[..|arrivals| - 1]), arrivals[|arrivals| - 1]))
  }

  // ------------------------------------------------------------- latest wins

  /** The last arrival among those with the greatest timestamp. */
  ghost predicate Winner<C, V>(arrivals: seq<Arrival<C, V>>, i: nat) {
    && i < |arrivals|
    && (forall j :: 0 <= j < |arrivals| ==> arrivals[j].seen.at <= arrivals[i].seen.at)
    && (forall j :: i < j < |arrivals| ==> arrivals[j].seen.at < arrivals[i].seen.at)
  }

  /** The row is the last of the newest arrivals, or what it was if all are older. */
  lemma {:induction false} LatestWins<C, V>(row: Option<Row<C, V>>, arrivals: seq<Arrival<C, V>>) returns (i: nat)
    requires |arrivals| > 0
    ensures Winner(arrivals, i) && Fold(row, arrivals).Some?
    ensures var last, newest := Fold(row, arrivals).value, arrivals[i];
            if row.Some? && row.value.at > newest.seen.at then last == row.value
            else last.latest == newest && last.at == newest.seen.at && last.current == newest.seen.current
  {
    var n := |arrivals| - 1;
    if n == 0 {
      i := 0;
    } else {
      var k := LatestWins(row, arrivals[..n]);
      i := if arrivals[n].seen.at >= arrivals[k].seen.at then n else k;
    }
  }

  /** A field once known stays known, and what is known was there before or was reported. */
  lemma {:induction false} KnownStays<C, V>(row: Option<Row<C, V>>, arrivals: seq<Arrival<C, V>>, field: string)
    requires Fold(row, arrivals).Some?
    ensures row.Some? && field in row.value.known ==> field in Fold(row, arrivals).value.known
    ensures field in Fold(row, arrivals).value.known ==>
              || (row.Some? && field in row.value.known && row.value.known[field] == Fold(row, arrivals).value.known[field])
              || exists i :: 0 <= i < |arrivals| && field in arrivals[i].seen.known
                             && arrivals[i].seen.known[field] == Fold(row, arrivals).value.known[field]
  {
    if |arrivals| > 0 {
      var n := |arrivals| - 1;
      var before := arrivals[..n];
      if Fold(row, before).Some? {
        KnownStays(row, before, field);
        assert forall i :: 0 <= i < n ==> before[i] == arrivals[i];
      }
      assert arrivals[n] == arrivals[|arrivals| - 1];
    }
  }

  // ------------------------------------------------ what depends on the order

  lemma {:induction false} FoldAppend<C, V>(row: Option<Row<C, V>>, a: seq<Arrival<C, V>>, b: seq<Arrival<C, V>>)
    ensures Fold(row, a + b) == Fold(Fold(row, a), b)
  {
    if b == [] {
      assert a + b == a;
    } else {
      assert (a + b)[..|a + b| - 1] == a + b[..|b| - 1];
      FoldAppend(row, a, b[..|b| - 1]);
    }
  }

  lemma FoldOne<C, V>(row: Option<Row<C, V>>, a: Arrival<C, V>)
    ensures Fold(row, [a]) == Some(Upsert(row, a))
  {
    assert [a][..0] == [];
  }

  lemma FoldTwoThen<C, V>(row: Option<Row<C, V>>, a: Arrival<C, V>, b: Arrival<C, V>, rest: seq<Arrival<C, V>>)
    ensures Fold(row, [a, b] + rest) == Fold(Some(Upsert(Some(Upsert(row, a)), b)), rest)
  {
    FoldAppend(row, [a, b], rest);
    assert [a, b] == [a] + [b];
    FoldAppend(row, [a], [b]);
    FoldOne(row, a);
    FoldOne(Some(Upsert(row, a)), b);
  }

  /** One of the newest arrivals. */
  ghost predicate Newest<C(!new), V(!new)>(arrivals: seq<Arrival<C, V>>, a: Arrival<C, V>) {
    a in arrivals && forall x :: x in arrivals ==> x.seen.at <= a.seen.at
  }

  /** Not older than the row it meets. */
  predicate Counts<C, V>(row: Option<Row<C, V>>, a: Arrival<C, V>) {
    row.None? || a.seen.at >= row.value.at
  }

  ghost predicate Reordered<C(!new), V(!new)>(a: seq<Arrival<C, V>>, b: seq<Arrival<C, V>>) {
    multiset(a) == multiset(b)
  }

  lemma ReorderedMembers<C(!new), V(!new)>(a: seq<Arrival<C, V>>, b: seq<Arrival<C, V>>)
    requires Reordered(a, b)
    ensures |a| == |b| && forall x :: x in a <==> x in b
  {
    assert |multiset(a)| == |a| && |multiset(b)| == |b|;
    assert forall x :: x in a <==> x in multiset(a);
    assert forall x :: x in b <==> x in multiset(b);
  }

  /** The arrival can be made the last one, or the first one. */
  lemma Move<C(!new), V(!new)>(a: seq<Arrival<C, V>>, x: Arrival<C, V>) returns (rest: seq<Arrival<C, V>>)
    requires x in a
    ensures Reordered(a, rest + [x]) && Reordered(a, [x] + rest)
  {
    var i :| 0 <= i < |a| && a[i] == x;
    rest := a[..i] + a[i + 1..];
    assert a == a[..i] + [x] + a[i + 1..];
  }

  /** Two different arrivals can be made the first two, in either order. */
  lemma MoveTwo<C(!new), V(!new)>(a: seq<Arrival<C, V>>, x: Arrival<C, V>, y: Arrival<C, V>) returns (rest: seq<Arrival<C, V>>)
    requires x in a && y in a && x != y
    ensures Reordered(a, [x, y] + rest) && Reordered(a, [y, x] + rest)
  {
    var others := Move(a, x);
    ReorderedMembers(a, [x] + others);
    rest := Move(others, y);
    assert [x, y] + rest == [x] + ([y] + rest) && [y, x] + rest == [y] + ([x] + rest);
    assert multiset([x, y] + rest) == multiset([x]) + multiset([y] + rest);
    assert multiset([y, x] + rest) == multiset([y]) + multiset([x]) + multiset(rest);
  }

  ghost predicate SameCurrent<C(!new), V(!new)>(a: Option<Row<C, V>>, b: Option<Row<C, V>>) {
    a.Some? == b.Some? && (a.Some? ==> a.value.latest == b.value.latest && a.value.at == b.value.at && a.value.current == b.value.current)
  }

  /** Two different newest arrivals that the row does not shut out. */
  ghost predicate TiedAtTop<C(!new), V(!new)>(row: Option<Row<C, V>>, arrivals: seq<Arrival<C, V>>) {
    exists x, y :: Newest(arrivals, x) && Newest(arrivals, y) && x != y && Counts(row, x)
  }

  /** The always-overwritten columns, and the observation they come from, are the same for
      every order of arrival exactly if no two different arrivals share the greatest
      timestamp, or the row is newer than all of them. */
  lemma CurrentIgnoresOrderIff<C(!new), V(!new)>(row: Option<Row<C, V>>, arrivals: seq<Arrival<C, V>>)
    ensures (forall b, c :: Reordered(arrivals, b) && Reordered(arrivals, c) ==> SameCurrent(Fold(row, b), Fold(row, c)))
            <==> !TiedAtTop(row, arrivals)
  {
    if TiedAtTop(row, arrivals) {
      var x, y :| Newest(arrivals, x) && Newest(arrivals, y) && x != y && Counts(row, x);
      var beforeX := NewestLast(row, arrivals, x);
      var beforeY := NewestLast(row, arrivals, y);
      assert !SameCurrent(Fold(row, beforeX + [x]), Fold(row, beforeY + [y]));
    } else {
      forall b, c | Reordered(arrivals, b) && Reordered(arrivals, c)
        ensures SameCurrent(Fold(row, b), Fold(row, c))
      {
        UntiedAgree(row, arrivals, b, c);
      }
    }
  }

  lemma NewestLast<C(!new), V(!new)>(row: Option<Row<C, V>>, arrivals: seq<Arrival<C, V>>, x: Arrival<C, V>) returns (before: seq<Arrival<C, V>>)
    requires Newest(arrivals, x) && Counts(row, x)
    ensures Reordered(arrivals, before + [x])
    ensures Fold(row, before + [x]).Some? && Fold(row, before + [x]).value.latest == x
    ensures forall f :: f in x.seen.known ==>
              f in Fold(row, before + [x]).value.known && Fold(row, before + [x]).value.known[f] == x.seen.known[f]
  {
    before := Move(arrivals, x);
    ReorderedMembers(arrivals, before + [x]);
    FoldAppend(row, before, [x]);
    FoldOne(Fold(row, before), x);
    if before != [] {
      var i := LatestWins(row, before);
      assert before[i] in before + [x];
    }
  }

  lemma UntiedAgree<C(!new), V(!new)>(row: Option<Row<C, V>>, arrivals: seq<Arrival<C, V>>, b: seq<Arrival<C, V>>, c: seq<Arrival<C, V>>)
    requires !TiedAtTop(row, arrivals) && Reordered(arrivals, b) && Reordered(arrivals, c)
    ensures SameCurrent(Fold(row, b), Fold(row, c))
  {
    ReorderedMembers(arrivals, b);
    ReorderedMembers(arrivals, c);
    if b != [] {
      var i := LatestWins(row, b);
      var k := LatestWins(row, c);
      WinnerIsNewest(arrivals, b, i);
      WinnerIsNewest(arrivals, c, k);
      assert b[i].seen.at == c[k].seen.at;
    }
  }

  lemma WinnerIsNewest<C(!new), V(!new)>(arrivals: seq<Arrival<C, V>>, b: seq<Arrival<C, V>>, i: nat)
    requires Reordered(arrivals, b) && Winner(b, i)
    ensures Newest(arrivals, b[i])
  {
    ReorderedMembers(arrivals, b);
    forall x | x in arrivals ensures x.seen.at <= b[i].seen.at {
      var j :| 0 <= j < |b| && b[j] == x;
    }
  }

  /** Another arrival cannot make a difference to this field of `x`: either the newest
      arrivals report the field, and then all alike, or the row already holds this value. */
  ghost predicate Backed<C(!new), V(!new)>(row: Option<Row<C, V>>, arrivals: seq<Arrival<C, V>>, x: Arrival<C, V>, field: string)
    requires field in x.seen.known
  {
    if Reported(arrivals, field) then
      Newest(arrivals, x) ==>
        forall y :: Newest(arrivals, y) && field in y.seen.known ==> y.seen.known[field] == x.seen.known[field]
    else row.Some? && field in row.value.known && row.value.known[field] == x.seen.known[field]
  }

  /** Some newest arrival reports the field. */
  ghost predicate Reported<C(!new), V(!new)>(arrivals: seq<Arrival<C, V>>, field: string) {
    exists y :: Newest(arrivals, y) && field in y.seen.known
  }

  ghost predicate KnownSettled<C(!new), V(!new)>(row: Option<Row<C, V>>, arrivals: seq<Arrival<C, V>>) {
    forall x, field :: x in arrivals && Counts(row, x) && field in x.seen.known ==> Backed(row, arrivals, x, field)
  }

  function KnownOf<C, V>(row: Option<Row<C, V>>): map<string, V> {
    if row.Some? then row.value.known else map[]
  }

  /** The COALESCE columns are the same for every order of arrival exactly if every field an
      arrival reports that the row does not shut out is backed. */
  lemma KnownIgnoresOrderIff<C(!new), V(!new)>(row: Option<Row<C, V>>, arrivals: seq<Arrival<C, V>>)
    ensures (forall b, c :: Reordered(arrivals, b) && Reordered(arrivals, c) ==> KnownOf(Fold(row, b)) == KnownOf(Fold(row, c)))
            <==> KnownSettled(row, arrivals)
  {
    if KnownSettled(row, arrivals) {
      forall b, c | Reordered(arrivals, b) && Reordered(arrivals, c)
        ensures KnownOf(Fold(row, b)) == KnownOf(Fold(row, c))
      {
        forall field ensures SameField(KnownOf(Fold(row, b)), KnownOf(Fold(row, c)), field) {
          SettledField(row, arrivals, b, c, field);
        }
        SameFields(KnownOf(Fold(row, b)), KnownOf(Fold(row, c)));
      }
    } else {
      var x, field :| x in arrivals && Counts(row, x) && field in x.seen.known && !Backed(row, arrivals, x, field);
      var b, c := OrdersDiffer(row, arrivals, x, field);
      assert Reordered(arrivals, b) && Reordered(arrivals, c);
    }
  }

  ghost predicate SameField<V>(a: map<string, V>, b: map<string, V>, field: string) {
    (field in a <==> field in b) && (field in a ==> a[field] == b[field])
  }

  lemma SameFields<V>(a: map<string, V>, b: map<string, V>)
    requires forall field :: SameField(a, b, field)
    ensures a == b
  {
    assert forall field :: SameField(a, b, field) ==> (field in a <==> field in b);
  }

  /** A field the newest arrivals report ends with the value of one of them. */
  lemma {:induction false} NewestReport<C(!new), V(!new)>(row: Option<Row<C, V>>, arrivals: seq<Arrival<C, V>>, top: Time, field: string)
    requires row.Some? ==> row.value.at <= top
    requires forall x :: x in arrivals ==> x.seen.at <= top
    requires exists y :: y in arrivals && y.seen.at == top && field in y.seen.known
    ensures Fold(row, arrivals).Some? && Fold(row, arrivals).value.at == top && field in Fold(row, arrivals).value.known
    ensures exists y :: y in arrivals && y.seen.at == top && field in y.seen.known
                        && y.seen.known[field] == Fold(row, arrivals).value.known[field]
  {
    var before, last := arrivals[..|arrivals| - 1], arrivals[|arrivals| - 1];
    assert arrivals == before + [last];
    if last.seen.at == top && field in last.seen.known {
      if before != [] {
        var i := LatestWins(row, before);
        assert before[i] in arrivals;
      }
    } else {
      NewestReport(row, before, top, field);
    }
  }

  /** The value stands in the row or in an arrival the row does not shut out. */
  ghost predicate Sourced<C(!new), V(!new)>(row: Option<Row<C, V>>, arrivals: seq<Arrival<C, V>>, field: string, value: V) {
    || (row.Some? && field in row.value.known && row.value.known[field] == value)
    || exists x :: x in arrivals && Counts(row, x) && field in x.seen.known && x.seen.known[field] == value
  }

  lemma SourcedMore<C(!new), V(!new)>(row: Option<Row<C, V>>, arrivals: seq<Arrival<C, V>>, field: string, value: V)
    requires arrivals != [] && Sourced(row, arrivals[..|arrivals| - 1], field, value)
    ensures Sourced(row, arrivals, field, value)
  {
  }

  lemma {:induction false} KnownCounts<C(!new), V(!new)>(row: Option<Row<C, V>>, arrivals: seq<Arrival<C, V>>, field: string)
    requires Fold(row, arrivals).Some? && field in Fold(row, arrivals).value.known
    ensures Sourced(row, arrivals, field, Fold(row, arrivals).value.known[field])
  {
    if arrivals != [] {
      var before, last := arrivals[..|arrivals| - 1], arrivals[|arrivals| - 1];
      var r := Fold(row, before);
      RowAges(row, before);
      if Fold(row, arrivals) == r || (r.Some? && field !in last.seen.known) {
        KnownCounts(row, before, field);
        SourcedMore(row, arrivals, field, r.value.known[field]);
      } else {
        assert last in arrivals && Counts(row, last);
      }
    }
  }

  lemma {:induction false} RowAges<C, V>(row: Option<Row<C, V>>, arrivals: seq<Arrival<C, V>>)
    ensures row.Some? ==> Fold(row, arrivals).Some? && row.value.at <= Fold(row, arrivals).value.at
  {
    if arrivals != [] {
      RowAges(row, arrivals[..|arrivals| - 1]);
    }
  }

  /** Under the condition, the field ends with a value no order can change. */
  lemma SettledField<C(!new), V(!new)>(row: Option<Row<C, V>>, arrivals: seq<Arrival<C, V>>, b: seq<Arrival<C, V>>, c: seq<Arrival<C, V>>,
                           field: string)
    requires KnownSettled(row, arrivals) && Reordered(arrivals, b) && Reordered(arrivals, c)
    ensures SameField(KnownOf(Fold(row, b)), KnownOf(Fold(row, c)), field)
  {
    if y :| Newest(arrivals, y) && Counts(row, y) && field in y.seen.known {
      SettledByNewest(row, arrivals, b, y, field);
      SettledByNewest(row, arrivals, c, y, field);
    } else {
      SettledByRow(row, arrivals, b, field);
      SettledByRow(row, arrivals, c, field);
    }
  }

  lemma SettledByNewest<C(!new), V(!new)>(row: Option<Row<C, V>>, arrivals: seq<Arrival<C, V>>, b: seq<Arrival<C, V>>, y: Arrival<C, V>, field: string)
    requires KnownSettled(row, arrivals) && Reordered(arrivals, b)
    requires Newest(arrivals, y) && Counts(row, y) && field in y.seen.known
    ensures field in KnownOf(Fold(row, b)) && KnownOf(Fold(row, b))[field] == y.seen.known[field]
  {
    ReorderedMembers(arrivals, b);
    NewestReport(row, b, y.seen.at, field);
    var z :| z in b && z.seen.at == y.seen.at && field in z.seen.known && z.seen.known[field] == Fold(row, b).value.known[field];
    assert Newest(arrivals, z) && Backed(row, arrivals, y, field);
  }

  lemma SettledByRow<C(!new), V(!new)>(row: Option<Row<C, V>>, arrivals: seq<Arrival<C, V>>, b: seq<Arrival<C, V>>, field: string)
    requires KnownSettled(row, arrivals) && Reordered(arrivals, b)
    requires forall y :: Newest(arrivals, y) && Counts(row, y) ==> field !in y.seen.known
    ensures SameField(KnownOf(Fold(row, b)), KnownOf(row), field)
  {
    ReorderedMembers(arrivals, b);
    if Fold(row, b).Some? {
      KnownStays(row, b, field);
      if field in Fold(row, b).value.known {
        KnownCounts(row, b, field);
        forall x | x in arrivals && Counts(row, x) && field in x.seen.known
          ensures row.Some? && field in row.value.known && row.value.known[field] == x.seen.known[field]
        {
          assert Backed(row, arrivals, x, field);
          assert forall y :: Newest(arrivals, y) ==> Counts(row, y);
        }
      }
    } else {
      FoldNone(row, b);
    }
  }

  /** Behind a row at the greatest time, only arrivals of that time can touch a field. */
  lemma {:induction false} NothingTouches<C, V>(row: Row<C, V>, rest: seq<Arrival<C, V>>, field: string)
    requires forall x :: x in rest ==> x.seen.at <= row.at
    requires forall x :: x in rest && x.seen.at == row.at ==> field !in x.seen.known
    ensures Fold(Some(row), rest).Some? && Fold(Some(row), rest).value.at == row.at
    ensures SameField(Fold(Some(row), rest).value.known, row.known, field)
  {
    if rest != [] {
      var before, last := rest[..|rest| - 1], rest[|rest| - 1];
      assert rest == before + [last];
      NothingTouches(row, before, field);
    }
  }

  /** Without the condition, two orders disagree about the field. */
  lemma OrdersDiffer<C(!new), V(!new)>(row: Option<Row<C, V>>, arrivals: seq<Arrival<C, V>>, x: Arrival<C, V>, field: string)
    returns (b: seq<Arrival<C, V>>, c: seq<Arrival<C, V>>)
    requires x in arrivals && Counts(row, x) && field in x.seen.known && !Backed(row, arrivals, x, field)
    ensures Reordered(arrivals, b) && Reordered(arrivals, c)
    ensures KnownOf(Fold(row, b)) != KnownOf(Fold(row, c))
  {
    if Reported(arrivals, field) {
      var y :| Newest(arrivals, y) && field in y.seen.known && y.seen.known[field] != x.seen.known[field];
      var beforeX := NewestLast(row, arrivals, x);
      var beforeY := NewestLast(row, arrivals, y);
      b, c := beforeX + [x], beforeY + [y];
    } else {
      var i := LatestWins(row, arrivals);
      var y := arrivals[i];
      WinnerIsNewest(arrivals, arrivals, i);
      var rest := MoveTwo(arrivals, x, y);
      b, c := [x, y] + rest, [y, x] + rest;
      ReorderedMembers(arrivals, b);
      FoldTwoThen(row, x, y, rest);
      FoldTwoThen(row, y, x, rest);
      NothingTouches(Upsert(Some(Upsert(row, x)), y), rest, field);
      NothingTouches(Upsert(Some(Upsert(row, y)), x), rest, field);
    }
  }

  /** The condition where it is plainest: into an empty table and without ties, every field
      reported by some arrival must be reported by the newest one. */
  lemma KnownIgnoresOrderIffNewestReportsAll<C(!new), V(!new)>(arrivals: seq<Arrival<C, V>>, newest: Arrival<C, V>)
    requires Newest(arrivals, newest) && forall y :: Newest(arrivals, y) ==> y == newest
    ensures (forall b, c :: Reordered(arrivals, b) && Reordered(arrivals, c) ==> KnownOf(Fold(None, b)) == KnownOf(Fold(None, c)))
            <==> forall x :: x in arrivals ==> x.seen.known.Keys <= newest.seen.known.Keys
  {
    KnownIgnoresOrderIff(None, arrivals);
    if KnownSettled(None, arrivals) {
      forall x, field | x in arrivals && field in x.seen.known
        ensures field in newest.seen.known
      {
        assert Backed(None, arrivals, x, field);
      }
    } else {
      var x, field :| x in arrivals && field in x.seen.known && !Backed(None, arrivals, x, field);
      assert Reported(arrivals, field) ==> field in newest.seen.known;
    }
  }

  lemma FoldTwo<C, V>(a: Arrival<C, V>, b: Arrival<C, V>)
    ensures Fold(None, [a, b]) == Some(Upsert(Some(Upsert(None, a)), b))
  {
    FoldTwoThen(None, a, b, []);
    assert [a, b] + [] == [a, b];
  }

  /** The dependence is real: on a tie, the later arrival's status stays. */
  lemma StatusDependsOnTies()
    ensures var paid := Arrival(1, Observation("line", 10, "paid", map["paid_at" := 10]));
            var closed := Arrival(2, Observation("line", 10, "closed", map["paid_at" := 10]));
            Fold(None, [paid, closed]).value.current == "closed" && Fold(None, [closed, paid]).value.current == "paid"
  {
    var paid := Arrival(1, Observation("line", 10, "paid", map["paid_at" := 10]));
    var closed := Arrival(2, Observation("line", 10, "closed", map["paid_at" := 10]));
    FoldTwo(paid, closed);
    FoldTwo(closed, paid);
  }

  /** Without a tie, an older report of a COALESCE column is dropped when it arrives late. */
  lemma KnownDependsOnOrder()
    ensures var early := Arrival(1, Observation("line", 10, "paid", map["paid_at" := 10]));
            var late := Arrival(2, Observation("line", 20, "settled", map[]));
            && Fold(None, [early, late]).value.known == map["paid_at" := 10]
            && Fold(None, [late, early]).value.known == map[]
  {
    var early := Arrival(1, Observation("line", 10, "paid", map["paid_at" := 10]));
    var late := Arrival(2, Observation("line", 20, "settled", map[]));
    FoldTwo(early, late);
    FoldTwo(late, early);
  }

  // ------------------------------------------------------------- replaying

  /** Equal in time, and in the known fields once `over` is laid on top. */
  ghost predicate Alike<C, V>(a: Row<C, V>, b: Row<C, V>, over: map<string, V>) {
    a.at == b.at && a.known + over == b.known + over
  }

  lemma OverlayStep<V>(a: map<string, V>, b: map<string, V>, c: map<string, V>, over: map<string, V>)
    requires a + over == b + over
    ensures (a + c) + over == (b + c) + over
  {
    assert forall k :: k in a && k !in over ==> k in (a + over) && (a + over)[k] == a[k];
    assert forall k :: k in b && k !in over ==> k in (b + over) && (b + over)[k] == b[k];
    assert forall k :: k in (a + c) + over <==> k in (b + c) + over;
  }

  lemma {:induction false} FoldAlike<C, V>(a: Row<C, V>, b: Row<C, V>, arrivals: seq<Arrival<C, V>>, over: map<string, V>)
    requires Alike(a, b, over)
    ensures Fold(Some(a), arrivals).Some? && Fold(Some(b), arrivals).Some?
    ensures Alike(Fold(Some(a), arrivals).value, Fold(Some(b), arrivals).value, over)
  {
    if |arrivals| > 0 {
      var before := arrivals[..|arrivals| - 1];
      FoldAlike(a, b, before, over);
      OverlayStep(Fold(Some(a), before).value.known, Fold(Some(b), before).value.known, arrivals[|arrivals| - 1].seen.known, over);
    }
  }

  /** Arrivals older than the row change nothing. */
  lemma {:induction false} OlderIgnored<C, V>(row: Row<C, V>, arrivals: seq<Arrival<C, V>>)
    requires forall i :: 0 <= i < |arrivals| ==> arrivals[i].seen.at < row.at
    ensures Fold(Some(row), arrivals) == Some(row)
  {
    if |arrivals| > 0 {
      OlderIgnored(row, arrivals[..|arrivals| - 1]);
    }
  }

  lemma {:induction false} NoneNewer<C, V>(row: Option<Row<C, V>>, arrivals: seq<Arrival<C, V>>)
    requires Fold(row, arrivals).Some?
    ensures forall i :: 0 <= i < |arrivals| ==> arrivals[i].seen.at <= Fold(row, arrivals).value.at
  {
    if |arrivals| > 0 && Fold(row, arrivals[..|arrivals| - 1]).Some? {
      NoneNewer(row, arrivals[..|arrivals| - 1]);
      assert forall i :: 0 <= i < |arrivals| - 1 ==> arrivals[..|arrivals| - 1][i] == arrivals[i];
    }
  }

  lemma OverlayTwice<V>(a: map<string, V>, b: map<string, V>)
    ensures (a + b) + b == a + b
  {
  }

  /** Delivering the same arrivals twice in a row is delivering them once. */
  lemma {:induction false} FoldTwice<C, V>(row: Option<Row<C, V>>, arrivals: seq<Arrival<C, V>>)
    ensures Fold(Fold(row, arrivals), arrivals) == Fold(row, arrivals)
  {
    if |arrivals| > 0 {
      var before, a := arrivals[..|arrivals| - 1], arrivals[|arrivals| - 1];
      var r := Fold(row, before);
      FoldTwice(row, before);
      var last := Upsert(r, a);
      if r.None? {
        FoldNone(row, before);
        OverlayTwice(map[], a.seen.known);
        assert a.seen.known + a.seen.known == a.seen.known;
      } else if a.seen.at > r.value.at {
        NoneNewer(row, before);
        OlderIgnored(last, before);
        OverlayTwice(r.value.known, a.seen.known);
      } else if a.seen.at == r.value.at {
        OverlayTwice(r.value.known, a.seen.known);
        FoldAlike(last, r.value, before, a.seen.known);
      }
    }
  }

  lemma FoldNone<C, V>(row: Option<Row<C, V>>, arrivals: seq<Arrival<C, V>>)
    requires Fold(row, arrivals).None?
    ensures row.None? && arrivals == []
  {
  }

  // --------------------------------------------------------------- the store

  datatype Store<!C(==), !V(==)> = Store(observations: set<Arrival<C, V>>, rows: map<string, Row<C, V>>)

  function Lookup<C, V>(rows: map<string, Row<C, V>>, key: string): Option<Row<C, V>> {
    if key in rows then Some(rows[key]) else None
  }

  function Apply<C(==), V(==)>(s: Store<C, V>, a: Arrival<C, V>): Store<C, V> {
    Store(s.observations + {a}, s.rows[a.seen.key := Upsert(Lookup(s.rows, a.seen.key), a)])
  }

  function ApplyAll<C(==), V(==)>(s: Store<C, V>, arrivals: seq<Arrival<C, V>>): Store<C, V> {
    if arrivals == [] then s
    else Apply(ApplyAll(s, arrivals[..|arrivals| - 1]), arrivals[|arrivals| - 1])
  }

  /** The arrivals for one key, in order. */
  function For<C, V>(arrivals: seq<Arrival<C, V>>, key: string): seq<Arrival<C, V>> {
    if arrivals == [] then []
    else
      var before := For(arrivals[..|arrivals| - 1], key);
      if arrivals[|arrivals| - 1].seen.key == key then before + [arrivals[|arrivals| - 1]] else before
  }

  /** Keys do not interfere: each row is the fold of its own arrivals. */
  lemma {:induction false} RowsAreFolds<C, V>(s: Store<C, V>, arrivals: seq<Arrival<C, V>>, key: string)
    ensures Lookup(ApplyAll(s, arrivals).rows, key) == Fold(Lookup(s.rows, key), For(arrivals, key))
  {
    if arrivals != [] {
      var before, a := arrivals[..|arrivals| - 1], arrivals[|arrivals| - 1];
      RowsAreFolds(s, before, key);
      if a.seen.key == key {
        assert For(arrivals, key)[..|For(arrivals, key)| - 1] == For(before, key);
      }
    }
  }

  lemma {:induction false} ObservationsAreKept<C, V>(s: Store<C, V>, arrivals: seq<Arrival<C, V>>)
    ensures ApplyAll(s, arrivals).observations == s.observations + (set i | 0 <= i < |arrivals| :: arrivals[i])
  {
    if arrivals != [] {
      var before, a := arrivals[..|arrivals| - 1], arrivals[|arrivals| - 1];
      ObservationsAreKept(s, before);
      assert (set i | 0 <= i < |arrivals| :: arrivals[i]) == (set i | 0 <= i < |before| :: before[i]) + {a};
    }
  }

  lemma SameLookups<C, V>(a: map<string, Row<C, V>>, b: map<string, Row<C, V>>)
    requires forall key :: Lookup(a, key) == Lookup(b, key)
    ensures a == b
  {
    assert forall key :: key in a <==> Lookup(a, key).Some?;
    assert forall key :: key in b <==> Lookup(b, key).Some?;
  }

  /** Replaying a whole batch from any state changes nothing, in either table. */
  lemma ReplayIsIdempotent<C, V>(s: Store<C, V>, arrivals: seq<Arrival<C, V>>)
    ensures ApplyAll(ApplyAll(s, arrivals), arrivals) == ApplyAll(s, arrivals)
  {
    var once := ApplyAll(s, arrivals);
    var twice := ApplyAll(once, arrivals);
    forall key ensures Lookup(twice.rows, key) == Lookup(once.rows, key) {
      RowsAreFolds(s, arrivals, key);
      RowsAreFolds(once, arrivals, key);
      FoldTwice(Lookup(s.rows, key), For(arrivals, key));
    }
    SameLookups(twice.rows, once.rows);
    ObservationsAreKept(s, arrivals);
    ObservationsAreKept(once, arrivals);
  }

  class Tables<C(==), V(==)> {
    var observations: set<Arrival<C, V>>
    var rows: map<string, Row<C, V>>

    function Contents(): Store<C, V>
      reads this
    {
      Store(observations, rows)
    }

    constructor ()
      ensures Contents() == Store({}, map[])
    {
      observations, rows := {}, map[];
    }

    method UpsertObservation(raw: nat, o: Observation<C, V>)
      modifies this
      ensures Contents() == Apply(old(Contents()), Arrival(raw, o))
    {
      var a := Arrival(raw, o);
      if a !in observations {
        observations := observations + {a};
      }
      if o.key !in rows {
        rows := rows[o.key := Row(a, o.at, o.current, o.known)];
      } else if o.at >= rows[o.key].at {
        rows := rows[o.key := Row(a, o.at, o.current, rows[o.key].known + o.known)];
      }
      assert rows == old(rows)[o.key := Upsert(Lookup(old(rows), o.key), a)];
      assert observations == old(observations) + {a};
    }

    /** The upserts of one page. */
    method UpsertPage(raw: nat, page: seq<Observation<C, V>>)
      modifies this
      ensures Contents() == ApplyAll(old(Contents()), seq(|page|, i requires 0 <= i < |page| => Arrival(raw, page[i])))
    {
      ghost var arrivals := seq(|page|, i requires 0 <= i < |page| => Arrival(raw, page[i]));
      var i := 0;
      while i < |page|
        invariant 0 <= i <= |page|
        invariant Contents() == ApplyAll(old(Contents()), arrivals[..i])
      {
        UpsertObservation(raw, page[i]);
        i := i + 1;
        assert arrivals[..i][..i - 1] == arrivals[..i - 1];
      }
      assert arrivals[..i] == arrivals;
    }
  }
}

/** The release worker: which order one call releases, and that calling it again and again
    leaves nothing due (src/service/orders.rs). */
module Worker {
  import opened Wrappers
  import opened Errors
  import opened Sums
  import opened Ledger
  import opened Model
  import opened Runs
  import opened Effects

  lemma {:induction false} SomeFirst(orders: seq<Order>, now: int, skip: set<nat>, n: nat) returns (i: nat)
    requires n <= |orders| && exists j: nat :: j < n && Due(orders, now, skip, j)
    ensures i < n && Due(orders, now, skip, i)
    ensures forall j: nat :: j < n && Due(orders, now, skip, j) ==>
              orders[i].unlockAt < orders[j].unlockAt || (orders[i].unlockAt == orders[j].unlockAt && i <= j)
  {
    var last := n - 1;
    if exists j: nat :: j < last && Due(orders, now, skip, j) {
      i := SomeFirst(orders, now, skip, last);
      if Due(orders, now, skip, last) && orders[last].unlockAt < orders[i].unlockAt {
        i := last;
      }
    } else {
      i := last;
    }
  }

  /** One call releases, but for an overflow, the first to unlock among the due orders nobody
      else holds, the lower position on a tie, and does nothing exactly if there is none. */
  lemma ReleaseOneDueEffect(st: State, now: int, skip: set<nat>)
    requires Reachable(st)
    ensures var r := ReleaseOneDue(st, now, skip);
            && (r.Ok? || r == Err(OutOfRange))
            && ((forall j: nat :: j < |st.orders| && j !in skip ==> st.orders[j].releasedAt.Some? || now < st.orders[j].unlockAt) ==>
                  r == Ok(st))
            && (r.Ok? && (exists j: nat :: j < |st.orders| && j !in skip && st.orders[j].releasedAt.None? && st.orders[j].unlockAt <= now) ==>
                  exists i: nat ::
                    && i < |st.orders| && i !in skip && st.orders[i].releasedAt.None? && st.orders[i].unlockAt <= now
                    && Thawed(st, r.value, None, now, i)
                    && forall j: nat :: j < |st.orders| && j !in skip && st.orders[j].releasedAt.None? && st.orders[j].unlockAt <= now ==>
                         st.orders[i].unlockAt < st.orders[j].unlockAt || (st.orders[i].unlockAt == st.orders[j].unlockAt && i <= j))
  {
    hide ReleaseLocked, Thawed, Reachable;
    if exists j: nat :: Due(st.orders, now, skip, j) {
      var first := SomeFirst(st.orders, now, skip, |st.orders|);
      assert FirstDue(st.orders, now, skip, first);
      var i: nat :| FirstDue(st.orders, now, skip, i) && ReleaseOneDue(st, now, skip) == ReleaseLocked(st, None, now, i);
      FirstDueUnique(st.orders, now, skip, first, i);
      ReleaseLockedEffect(st, None, now, i);
    } else {
      assert forall j: nat :: j < |st.orders| && j !in skip && st.orders[j].releasedAt.None? && st.orders[j].unlockAt <= now ==>
               Due(st.orders, now, skip, j);
    }
  }

  /** How many orders are due at a time. */
  function DueAt(now: int): Order -> int {
    (o: Order) => if o.releasedAt.None? && o.unlockAt <= now then 1 else 0
  }

  function Again(now: int, n: nat): seq<Call> {
    seq(n, _ => Call(Actor(0, Admin, None), now, OpReleaseOneDue({})))
  }

  ghost predicate CallOverflows(st: State, now: int, k: nat) {
    ReleaseOneDue(Run(st, Again(now, k)), now, {}) == Err(OutOfRange)
  }

  lemma OneMoreCall(st: State, now: int, n: nat)
    requires n > 0
    ensures Run(st, Again(now, n)) == After(Run(st, Again(now, n - 1)), Call(Actor(0, Admin, None), now, OpReleaseOneDue({})))
  {
    assert Again(now, n)[..n - 1] == Again(now, n - 1);
  }

  lemma OneFewer(st: State, now: int)
    requires Reachable(st) && ReleaseOneDue(st, now, {}).Ok?
    ensures var left := SumBy(ReleaseOneDue(st, now, {}).value.orders, DueAt(now));
            left == if SumBy(st.orders, DueAt(now)) == 0 then 0 else SumBy(st.orders, DueAt(now)) - 1
  {
    hide ReleaseOneDue, Reachable;
    ReleaseOneDueEffect(st, now, {});
    var st' := ReleaseOneDue(st, now, {}).value;
    SumNonNegative(st.orders, DueAt(now));
    if exists j: nat :: j < |st.orders| && st.orders[j].releasedAt.None? && st.orders[j].unlockAt <= now {
      var i: nat :| i < |st.orders| && st.orders[i].releasedAt.None? && st.orders[i].unlockAt <= now && Thawed(st, st', None, now, i);
      assert DueAt(now)(st.orders[i]) == 1;
      SumUpdate(st.orders, i, st'.orders[i], DueAt(now));
    } else {
      SumZero(st.orders, DueAt(now));
    }
  }

  lemma DueCounts(orders: seq<Order>, now: int)
    ensures SumBy(orders, DueAt(now)) >= 0
  {
    SumNonNegative(orders, DueAt(now));
  }

  /** One call more overflows, or leaves one due order less. */
  lemma WorkerStep(st: State, now: int)
    requires Reachable(st)
    ensures var after := After(st, Call(Actor(0, Admin, None), now, OpReleaseOneDue({})));
            && Reachable(after)
            && (ReleaseOneDue(st, now, {}) == Err(OutOfRange)
                || SumBy(after.orders, DueAt(now)) == if SumBy(st.orders, DueAt(now)) == 0 then 0 else SumBy(st.orders, DueAt(now)) - 1)
  {
    hide ReleaseOneDue, Reachable, DueAt;
    StepReachable(st, Call(Actor(0, Admin, None), now, OpReleaseOneDue({})));
    ReleaseOneDueEffect(st, now, {});
    if ReleaseOneDue(st, now, {}).Ok? {
      OneFewer(st, now);
    }
  }

  /** With as many calls as orders are due, every one of them is released, unless one of the
      calls overflows a wallet column. */
  lemma {:induction false} WorkerDrains(st: State, now: int, n: nat)
    requires Reachable(st)
    ensures var last := Run(st, Again(now, n));
            && Reachable(last) && SumBy(last.orders, DueAt(now)) >= 0
            && ((exists k: nat :: k < n && CallOverflows(st, now, k))
                || SumBy(last.orders, DueAt(now)) == if n <= SumBy(st.orders, DueAt(now)) then SumBy(st.orders, DueAt(now)) - n else 0)
  {
    hide ReleaseOneDue, Reachable, DueAt, After, Again;
    DueCounts(Run(st, Again(now, n)).orders, now);
    DueCounts(st.orders, now);
    if n == 0 {
      NoCall(st, now);
    } else {
      var before := Run(st, Again(now, n - 1));
      WorkerDrains(st, now, n - 1);
      OneMoreCall(st, now, n);
      WorkerStep(before, now);
      if ReleaseOneDue(before, now, {}) == Err(OutOfRange) {
        assert CallOverflows(st, now, n - 1);
      }
    }
  }

  lemma NoCall(st: State, now: int)
    ensures Run(st, Again(now, 0)) == st
  {
  }
}

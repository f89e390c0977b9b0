/** Which concurrent transactions deadlock: exactly when one credential revocation waits for the
    acting credential of another that waits behind it for the administrators' lock
    (src/service/catalog.rs, src/transaction.rs). */
module Deadlocks {
  import opened Wrappers
  import opened Locks

  /** A transaction holding the first `held` of its locks. */
  datatype Running = Running(transaction: Transaction, held: nat) {
    predicate Valid() { held <= |LocksOf(transaction)| }

    predicate Waits() { held < |LocksOf(transaction)| }

    function Wanted(): Lock
      requires Waits()
    {
      LocksOf(transaction)[held]
    }

    predicate Holds(l: Lock)
      requires Valid()
    {
      l in LocksOf(transaction)[..held]
    }

    /** It holds something that keeps others from this lock. */
    ghost predicate Denies(l: Lock)
      requires Valid()
    {
      exists m :: Holds(m) && Conflicts(l, m)
    }

    /** A revocation with the given number of its locks. */
    predicate Revokes(n: nat) {
      transaction.RevokeCredential? && held == n
    }
  }

  type System = map<nat, Running>

  /** Nobody holds what another's locks exclude. */
  ghost predicate Sane(sys: System) {
    && (forall t :: t in sys ==> sys[t].Valid())
    && (forall t, u, l :: t in sys && u in sys && t != u && sys[t].Holds(l) ==> !sys[u].Denies(l))
  }

  ghost predicate Blocks(sys: System, u: nat, t: nat)
    requires Sane(sys)
  {
    t in sys && u in sys && t != u && sys[t].Waits() && sys[u].Denies(sys[t].Wanted())
  }

  /** Everyone in the set waits for a lock someone else in the set keeps from it. */
  ghost predicate Deadlocked(sys: System, ts: set<nat>)
    requires Sane(sys)
  {
    ts != {} && ts <= sys.Keys && forall t :: t in ts ==> StoppedWithin(sys, ts, t)
  }

  ghost predicate StoppedWithin(sys: System, ts: set<nat>, t: nat)
    requires Sane(sys)
  {
    exists u :: u in ts && Blocks(sys, u, t)
  }

  /** Two different revocations: `t` has the administrators' lock and wants the row of the
      credential that acts in `u`, and `u` still waits for the administrators' lock. */
  ghost predicate Crossed(sys: System, t: nat, u: nat) {
    && t in sys && u in sys && t != u && sys[t].Revokes(3) && sys[u].Revokes(2)
    && sys[t].transaction.target == sys[u].transaction.actor
  }

  // ------------------------------------------------------------ who blocks whom

  lemma HeldAt(r: Running, l: Lock) returns (i: nat)
    requires r.Valid() && r.Holds(l)
    ensures i < r.held && i < |LocksOf(r.transaction)| && LocksOf(r.transaction)[i] == l
  {
    i :| 0 <= i < r.held && LocksOf(r.transaction)[..r.held][i] == l;
  }

  lemma HoldsAt(r: Running, i: nat)
    requires r.Valid() && i < r.held
    ensures r.Holds(LocksOf(r.transaction)[i])
  {
    assert LocksOf(r.transaction)[..r.held][i] == LocksOf(r.transaction)[i];
  }

  lemma HeldIsLower(r: Running, l: Lock)
    requires r.Valid() && r.Waits() && r.Holds(l)
    ensures Rank(l) < Rank(r.Wanted())
  {
    hide LocksOf, Rank;
    LocksIncrease(r.transaction);
    var i := HeldAt(r, l);
  }

  /** Whoever waits and stands in another's way stands there with the very lock it wants, or
      with the key of the credential whose row it wants. */
  lemma DenialIs(r: Running, l: Lock)
    requires r.Valid() && r.Waits() && r.Denies(l)
    ensures r.Holds(l) || (l.CredentialRow? && r.Holds(ActorKey(l.credential)))
  {
    hide LocksOf;
    var m :| r.Holds(m) && Conflicts(l, m);
    if m != l && !m.ActorKey? {
      var i := HeldAt(r, m);
      Places(r.transaction, i);
      FourLocks(r.transaction);
    }
  }

  lemma FourLocks(t: Transaction)
    ensures t.RevokeCredential? ==> LocksOf(t) == [Claimed(t.claim), ActorKey(t.actor), Administrators, CredentialRow(t.target)]
  {
  }

  /** Who is blocked wants less than who blocks it, but for a credential's row blocked by its key. */
  lemma BlockerIsAhead(sys: System, u: nat, t: nat)
    requires Sane(sys) && Blocks(sys, u, t) && sys[u].Waits()
    ensures Rank(sys[t].Wanted()) < Rank(sys[u].Wanted())
            || (sys[t].Wanted().CredentialRow? && sys[u].Holds(ActorKey(sys[t].Wanted().credential)))
  {
    hide LocksOf, Rank, Conflicts;
    DenialIs(sys[u], sys[t].Wanted());
    if sys[u].Holds(sys[t].Wanted()) {
      HeldIsLower(sys[u], sys[t].Wanted());
    }
  }

  /** Who wants a credential's row is a revocation with all but that. */
  lemma WantsCredential(r: Running)
    requires r.Waits() && r.Wanted().CredentialRow?
    ensures r.Revokes(3) && r.Wanted() == CredentialRow(r.transaction.target)
  {
    hide LocksOf;
    Places(r.transaction, r.held);
  }

  /** Who holds a key and wants the administrators' lock is a revocation acting with it. */
  lemma KeyedForOffice(r: Running, credential: nat)
    requires r.Valid() && r.Waits() && r.Holds(ActorKey(credential)) && r.Wanted() == Administrators
    ensures r.Revokes(2) && r.transaction.actor == credential
  {
    hide LocksOf;
    Places(r.transaction, r.held);
    var i := HeldAt(r, ActorKey(credential));
    Places(r.transaction, i);
  }

  lemma CustomersGoHigh(r: Running, hash: nat)
    requires r.Valid() && r.Waits() && r.Holds(Customer(hash))
    ensures Rank(r.Wanted()) >= 4
  {
    hide LocksOf, Rank;
    var i := HeldAt(r, Customer(hash));
    AfterCustomer(r.transaction, i, r.held);
  }

  lemma RevokerHolds(r: Running)
    requires r.Valid() && r.transaction.RevokeCredential?
    ensures r.held >= 2 ==> r.Holds(ActorKey(r.transaction.actor))
    ensures r.held >= 3 ==> r.Holds(Administrators)
    ensures r.held == 2 ==> r.Waits() && r.Wanted() == Administrators
    ensures r.held == 3 ==> r.Waits() && r.Wanted() == CredentialRow(r.transaction.target)
    ensures r.Waits() <==> r.held < 4
  {
    FourLocks(r.transaction);
    if r.held >= 2 {
      HoldsAt(r, 1);
    }
    if r.held >= 3 {
      HoldsAt(r, 2);
    }
  }

  /** Only one holds the administrators' lock. */
  lemma OneOffice(sys: System, t: nat, u: nat)
    requires Sane(sys) && t in sys && u in sys && sys[t].Holds(Administrators) && sys[u].Holds(Administrators)
    ensures t == u
  {
    hide LocksOf;
    HoldsDenies(sys[u], Administrators);
  }

  lemma HoldsDenies(r: Running, l: Lock)
    requires r.Valid() && r.Holds(l) && !l.ActorKey?
    ensures r.Denies(l)
  {
    assert Conflicts(l, l);
  }

  lemma BlockedWaits(sys: System, u: nat, t: nat)
    requires Sane(sys) && Blocks(sys, u, t)
    ensures t in sys && u in sys && t != u && sys[t].Waits() && sys[u].Valid() && sys[t].Valid() && sys[u].Denies(sys[t].Wanted())
  {
  }

  lemma {:induction false} Foremost(sys: System, ts: set<nat>) returns (best: nat)
    requires ts != {} && ts <= sys.Keys && forall t :: t in ts ==> sys[t].Waits()
    ensures best in ts && forall t :: t in ts ==> Rank(sys[t].Wanted()) <= Rank(sys[best].Wanted())
    decreases |ts|
  {
    hide LocksOf, Rank;
    var t :| t in ts;
    if ts == {t} {
      best := t;
    } else {
      best := Foremost(sys, ts - {t});
      if Rank(sys[best].Wanted()) < Rank(sys[t].Wanted()) {
        best := t;
      }
    }
  }

  // --------------------------------------------------------- the exact condition

  lemma CrossedBlock(sys: System, t: nat, u: nat)
    requires Sane(sys) && Crossed(sys, t, u)
    ensures Blocks(sys, u, t) && Blocks(sys, t, u)
  {
    hide LocksOf;
    RevokerHolds(sys[t]);
    RevokerHolds(sys[u]);
    assert Conflicts(sys[t].Wanted(), ActorKey(sys[u].transaction.actor));
    assert Conflicts(Administrators, Administrators);
  }

  /** The last blocking step of a deadlock comes from a crossed pair. */
  lemma CrossedBehind(sys: System, best: nat, u: nat, w: nat)
    requires Sane(sys) && Blocks(sys, u, best) && Blocks(sys, w, u) && sys[w].Waits()
    requires Rank(sys[u].Wanted()) <= Rank(sys[best].Wanted()) && Rank(sys[w].Wanted()) <= Rank(sys[best].Wanted())
    ensures Crossed(sys, best, u)
  {
    hide LocksOf, Sane, Blocks;
    BlockedWaits(sys, u, best);
    BlockedWaits(sys, w, u);
    BlockerIsAhead(sys, u, best);
    WantsCredential(sys[best]);
    var key := ActorKey(sys[best].transaction.target);
    HeldIsLower(sys[u], key);
    if sys[u].Wanted().CredentialRow? {
      WantsCredential(sys[u]);
      RevokerHolds(sys[best]);
      RevokerHolds(sys[u]);
      OneOffice(sys, best, u);
    } else {
      BlockerIsAhead(sys, w, u);
      DenialIs(sys[w], sys[u].Wanted());
      if sys[u].Wanted().Customer? {
        CustomersGoHigh(sys[w], sys[u].Wanted().hash);
      } else {
        RankTwo(sys[u]);
        KeyedForOffice(sys[u], sys[best].transaction.target);
      }
    }
  }

  lemma RankTwo(r: Running)
    requires r.Valid() && r.Waits() && Rank(r.Wanted()) == 2 && !r.Wanted().Customer?
    requires exists credential :: r.Holds(ActorKey(credential))
    ensures r.Wanted() == Administrators
  {
    hide LocksOf;
    var credential :| r.Holds(ActorKey(credential));
    var i := HeldAt(r, ActorKey(credential));
    Places(r.transaction, i);
    KeyedWantsNoEvent(r, i);
  }

  lemma KeyedWantsNoEvent(r: Running, i: nat)
    requires r.Valid() && r.Waits() && i < r.held && LocksOf(r.transaction)[i].ActorKey?
    ensures !r.Wanted().EventRow?
  {
    hide PostLocks;
    Places(r.transaction, i);
    if r.transaction.Capture? || r.transaction.RefundOrRelease? || r.transaction.SettlePayout? {
      PostLocksIncrease(r.transaction.lines);
      assert r.Wanted() in LocksOf(r.transaction);
    } else if r.transaction.RequestPayout? {
      RequestLocks(r.transaction.claim, r.transaction.actor, r.transaction.account, r.transaction.amount);
    }
  }

  lemma StoppedWaits(sys: System, ts: set<nat>, t: nat)
    requires Sane(sys) && StoppedWithin(sys, ts, t)
    ensures t in sys && sys[t].Waits()
  {
    hide LocksOf, Sane;
  }

  lemma DeadlockedWait(sys: System, ts: set<nat>)
    requires Sane(sys) && Deadlocked(sys, ts)
    ensures ts != {} && ts <= sys.Keys && forall t :: t in ts ==> sys[t].Waits()
  {
    hide LocksOf, Sane, StoppedWithin;
    forall t | t in ts ensures sys[t].Waits() {
      StoppedWaits(sys, ts, t);
    }
  }

  lemma BlockerIn(sys: System, ts: set<nat>, t: nat) returns (u: nat)
    requires Sane(sys) && Deadlocked(sys, ts) && t in ts
    ensures u in ts && Blocks(sys, u, t)
  {
    hide Sane, Blocks;
    assert StoppedWithin(sys, ts, t);
    u :| u in ts && Blocks(sys, u, t);
  }

  lemma DeadlockIsCrossed(sys: System, ts: set<nat>) returns (t: nat, u: nat)
    requires Sane(sys) && Deadlocked(sys, ts)
    ensures Crossed(sys, t, u)
  {
    hide LocksOf, Rank, Sane, Blocks, Crossed, Deadlocked, Running.Waits, Running.Wanted;
    DeadlockedWait(sys, ts);
    t := Foremost(sys, ts);
    u := BlockerIn(sys, ts, t);
    var w := BlockerIn(sys, ts, u);
    CrossedBehind(sys, t, u, w);
  }

  lemma CrossedIsDeadlock(sys: System, t: nat, u: nat)
    requires Sane(sys) && Crossed(sys, t, u)
    ensures Deadlocked(sys, {t, u})
  {
    hide LocksOf, Sane, Blocks;
    CrossedBlock(sys, t, u);
    assert t in sys.Keys && u in sys.Keys;
    assert StoppedWithin(sys, {t, u}, t) && StoppedWithin(sys, {t, u}, u);
  }

  /** Whatever transactions run and however far each has got: some of them deadlock if and
      only if two revocations are crossed. */
  lemma DeadlockIff(sys: System)
    requires Sane(sys)
    ensures (exists ts :: Deadlocked(sys, ts)) <==> exists t, u :: Crossed(sys, t, u)
  {
    hide Sane, Deadlocked, Crossed;
    forall ts | Deadlocked(sys, ts) ensures exists t, u :: Crossed(sys, t, u) {
      var t, u := DeadlockIsCrossed(sys, ts);
    }
    forall t, u | Crossed(sys, t, u) ensures exists ts :: Deadlocked(sys, ts) {
      CrossedIsDeadlock(sys, t, u);
    }
  }

  /** Without a crossed pair of revocations, in particular without two revocations at once,
      nothing deadlocks. */
  lemma NoDeadlock(sys: System, ts: set<nat>)
    requires Sane(sys) && forall t, u :: t in sys && u in sys && t != u ==> !(sys[t].Revokes(3) && sys[u].Revokes(2))
    ensures !Deadlocked(sys, ts)
  {
    hide LocksOf, Sane, Deadlocked;
    if Deadlocked(sys, ts) {
      var t, u := DeadlockIsCrossed(sys, ts);
    }
  }

  // ------------------------------------------------------------------ progress

  ghost predicate Enabled(sys: System, t: nat)
    requires Sane(sys)
  {
    t in sys && forall u :: u in sys ==> !Blocks(sys, u, t)
  }

  /** Taking the next lock, or committing and releasing all of them. */
  function Advance(sys: System, t: nat): System
    requires t in sys
  {
    if sys[t].Waits() then sys[t := sys[t].(held := sys[t].held + 1)] else sys - {t}
  }

  /** One lock more. */
  lemma HoldsMore(r: Running, l: Lock)
    requires r.Valid() && r.Waits()
    ensures r.(held := r.held + 1).Valid()
    ensures r.(held := r.held + 1).Holds(l) <==> r.Holds(l) || l == r.Wanted()
    ensures r.(held := r.held + 1).Denies(l) <==> r.Denies(l) || Conflicts(l, r.Wanted())
  {
    var locks := LocksOf(r.transaction);
    assert locks[..r.held + 1] == locks[..r.held] + [locks[r.held]];
    assert forall m :: r.(held := r.held + 1).Holds(m) <==> r.Holds(m) || m == r.Wanted();
  }

  lemma ConflictsBack(l: Lock, m: Lock)
    ensures Conflicts(l, m) <==> Conflicts(m, l)
  {
  }

  lemma AdvanceKeeps(sys: System, t: nat)
    requires Sane(sys) && Enabled(sys, t)
    ensures Sane(Advance(sys, t))
  {
    hide LocksOf, Conflicts, Running.Holds, Running.Denies, Running.Wanted;
    if sys[t].Waits() {
      var sys' := Advance(sys, t);
      forall v, u, l | v in sys' && u in sys' && v != u && sys'[v].Holds(l)
        ensures !sys'[u].Denies(l)
      {
        AdvanceApart(sys, t, v, u, l);
      }
    }
  }

  lemma AdvanceApart(sys: System, t: nat, v: nat, u: nat, l: Lock)
    requires Sane(sys) && Enabled(sys, t) && sys[t].Waits() && v in sys && u in sys && v != u
    requires sys[t].(held := sys[t].held + 1).Valid()
    requires Advance(sys, t)[v].Holds(l)
    ensures !Advance(sys, t)[u].Denies(l)
  {
    HoldsMore(sys[t], l);
    if t == v && l == sys[t].Wanted() {
      assert !Blocks(sys, u, t);
    } else if t == u {
      ConflictsBack(l, sys[t].Wanted());
      assert !Blocks(sys, v, t);
    }
  }

  /** Nobody keeps the transaction from any lock it still needs. */
  ghost predicate Runnable(sys: System, t: nat)
    requires Sane(sys)
  {
    t in sys && forall u, k :: u in sys && u != t && sys[t].held <= k < |LocksOf(sys[t].transaction)| ==>
      !sys[u].Denies(LocksOf(sys[t].transaction)[k])
  }

  lemma RunnableGoesOn(sys: System, t: nat)
    requires Sane(sys) && Runnable(sys, t)
    ensures Enabled(sys, t) && Sane(Advance(sys, t))
    ensures sys[t].Waits() ==> Runnable(Advance(sys, t), t)
  {
    hide LocksOf, Conflicts, Running.Holds, Running.Denies;
    assert Enabled(sys, t);
    AdvanceKeeps(sys, t);
  }

  /** A schedule in which every step is one that can be taken, ending in `last`. */
  ghost predicate Leads(sys: System, schedule: seq<nat>, last: System)
    decreases schedule
  {
    if schedule == [] then sys == last
    else Sane(sys) && Enabled(sys, schedule[0]) && Leads(Advance(sys, schedule[0]), schedule[1..], last)
  }

  lemma {:induction false} LeadsOn(sys: System, first: seq<nat>, middle: System, second: seq<nat>, last: System)
    requires Leads(sys, first, middle) && Leads(middle, second, last)
    ensures Leads(sys, first + second, last)
    decreases first
  {
    hide Sane, Blocks;
    if first == [] {
      assert first + second == second;
    } else {
      assert (first + second)[1..] == first[1..] + second;
      LeadsOn(Advance(sys, first[0]), first[1..], middle, second, last);
    }
  }

  lemma {:induction false} RunsToCommit(sys: System, t: nat) returns (schedule: seq<nat>)
    requires Sane(sys) && Runnable(sys, t)
    ensures Leads(sys, schedule, sys - {t})
    decreases |LocksOf(sys[t].transaction)| - sys[t].held
  {
    hide Sane, Enabled, Runnable, LocksOf;
    RunnableIsHere(sys, t);
    RunnableGoesOn(sys, t);
    if sys[t].Waits() {
      var rest := RunsToCommit(Advance(sys, t), t);
      schedule := [t] + rest;
      assert Advance(sys, t) - {t} == sys - {t};
    } else {
      schedule := [t];
      assert Leads(sys - {t}, [], sys - {t});
    }
  }

  lemma RunnableIsHere(sys: System, t: nat)
    requires Sane(sys) && Runnable(sys, t)
    ensures t in sys
  {
  }

  // ------------------------------------------------ when all of them can commit

  /** Revocations still to take the administrators' lock, each aimed at the credential that
      acts in another of them: whichever takes it first stops all of them. */
  ghost predicate Circle(sys: System, ts: set<nat>) {
    && ts != {} && ts <= sys.Keys
    && (forall t :: t in ts ==> sys[t].Revokes(2))
    && (forall t :: t in ts ==> AimsWithin(sys, ts, t))
  }

  ghost predicate AimsWithin(sys: System, ts: set<nat>, t: nat)
    requires t in sys && sys[t].Revokes(2)
  {
    exists u :: u in ts && u in sys && u != t && sys[u].Revokes(2) && sys[t].transaction.target == sys[u].transaction.actor
  }

  ghost predicate Doomed(sys: System) {
    (exists t, u :: Crossed(sys, t, u)) || exists ts :: Circle(sys, ts)
  }

  /** Everyone waits, and nobody wants a higher lock than `t`. */
  ghost predicate AllBehind(sys: System, t: nat) {
    && t in sys && (forall u :: u in sys ==> sys[u].Valid() && sys[u].Waits())
    && (forall u :: u in sys ==> Rank(sys[u].Wanted()) <= Rank(sys[t].Wanted()))
  }

  lemma DeniedLock(sys: System, t: nat, u: nat, l: Lock)
    requires AllBehind(sys, t) && u in sys && sys[u].Denies(l)
    ensures (sys[u].Holds(l) && Rank(l) < Rank(sys[t].Wanted())) || (l.CredentialRow? && sys[u].Holds(ActorKey(l.credential)))
  {
    hide LocksOf, Rank, Conflicts, Running.Holds, Running.Denies, Running.Wanted;
    DenialIs(sys[u], l);
    if sys[u].Holds(l) {
      HeldIsLower(sys[u], l);
    }
  }

  /** What is still needed is at least as high as what is wanted next. */
  lemma NeedIsHigher(r: Running, k: nat)
    requires r.Valid() && r.held <= k < |LocksOf(r.transaction)|
    ensures Rank(r.Wanted()) <= Rank(LocksOf(r.transaction)[k])
  {
    hide LocksOf, Rank;
    LocksIncrease(r.transaction);
  }

  /** The foremost transaction can run, unless a key stops its revocation. */
  lemma ForemostRuns(sys: System, t: nat)
    requires Sane(sys) && AllBehind(sys, t)
    requires sys[t].transaction.RevokeCredential? ==>
               forall u :: u in sys && u != t ==> !sys[u].Holds(ActorKey(sys[t].transaction.target))
    ensures Runnable(sys, t)
  {
    hide LocksOf, Rank, Conflicts, Running.Holds, Running.Denies, Running.Wanted, Sane;
    forall u, k | u in sys && u != t && sys[t].held <= k < |LocksOf(sys[t].transaction)|
      ensures !sys[u].Denies(LocksOf(sys[t].transaction)[k])
    {
      var l := LocksOf(sys[t].transaction)[k];
      if sys[u].Denies(l) {
        DeniedLock(sys, t, u, l);
        NeedIsHigher(sys[t], k);
        Places(sys[t].transaction, k);
      }
    }
  }

  /** A transaction that holds a key and is no revocation can run while nobody wants wallets. */
  lemma KeyedRuns(sys: System, t: nat, best: nat, credential: nat)
    requires Sane(sys) && AllBehind(sys, best) && Rank(sys[best].Wanted()) <= 3
    requires t in sys && !sys[t].transaction.RevokeCredential? && sys[t].Holds(ActorKey(credential))
    ensures Runnable(sys, t)
  {
    hide LocksOf, Rank, Conflicts, Running.Holds, Running.Denies, Running.Wanted, Sane;
    var i := HeldAt(sys[t], ActorKey(credential));
    Places(sys[t].transaction, i);
    forall u, k | u in sys && u != t && sys[t].held <= k < |LocksOf(sys[t].transaction)|
      ensures !sys[u].Denies(LocksOf(sys[t].transaction)[k])
    {
      var l := LocksOf(sys[t].transaction)[k];
      if sys[u].Denies(l) {
        DeniedLock(sys, best, u, l);
        Places(sys[t].transaction, k);
        BehindKey(sys[t].transaction, i, k);
        if l.Customer? {
          CustomersGoHigh(sys[u], l.hash);
        }
      }
    }
  }

  /** Behind its key, a transaction that is no revocation takes a customer, or higher. */
  lemma BehindKey(t: Transaction, i: nat, k: nat)
    requires i < k < |LocksOf(t)| && LocksOf(t)[i].ActorKey? && !t.RevokeCredential?
    ensures LocksOf(t)[k].Customer? || Rank(LocksOf(t)[k]) >= 3
  {
    hide LocksOf;
    Places(t, i);
    Places(t, k);
    LocksIncrease(t);
    KeyedWantsNoEvent(Running(t, k), i);
  }

  lemma DoneRuns(sys: System, t: nat)
    requires Sane(sys) && t in sys && !sys[t].Waits()
    ensures Runnable(sys, t)
  {
  }

  /** A revocation can run whose target nobody acts with, unless another has the
      administrators' lock. */
  lemma RevocationRuns(sys: System, t: nat, best: nat)
    requires Sane(sys) && AllBehind(sys, best) && t in sys && sys[t].transaction.RevokeCredential? && sys[t].held >= 2
    requires forall u :: u in sys && u != t ==> !sys[u].Holds(ActorKey(sys[t].transaction.target))
    requires forall u :: u in sys && u != t ==> !sys[u].Holds(Administrators)
    ensures Runnable(sys, t)
  {
    hide LocksOf, Rank, Conflicts, Running.Holds, Running.Denies, Running.Wanted, Sane;
    FourLocks(sys[t].transaction);
    forall u, k | u in sys && u != t && sys[t].held <= k < |LocksOf(sys[t].transaction)|
      ensures !sys[u].Denies(LocksOf(sys[t].transaction)[k])
    {
      var l := LocksOf(sys[t].transaction)[k];
      if sys[u].Denies(l) {
        DeniedLock(sys, best, u, l);
        if l.CredentialRow? && sys[u].Holds(l) {
          NoCredentialHeld(sys[u], l);
        }
      }
    }
  }

  lemma NoCredentialHeld(r: Running, l: Lock)
    requires r.Valid() && r.Waits() && l.CredentialRow?
    ensures !r.Holds(l)
  {
    hide LocksOf;
    if r.Holds(l) {
      var i := HeldAt(r, l);
      Places(r.transaction, i);
      FourLocks(r.transaction);
    }
  }

  /** Who waits and holds the administrators' lock is a revocation with three locks. */
  lemma OfficeHolder(r: Running)
    requires r.Valid() && r.Waits() && r.Holds(Administrators)
    ensures r.Revokes(3)
  {
    hide LocksOf;
    var i := HeldAt(r, Administrators);
    Places(r.transaction, i);
    if r.transaction.RevokeCredential? {
      FourLocks(r.transaction);
    } else {
      BootstrapLocks(r.transaction);
    }
  }

  lemma BootstrapLocks(t: Transaction)
    requires t.Bootstrap?
    ensures LocksOf(t) == [Administrators]
  {
  }

  /** Who waits, holds a key and is a revocation has two or three locks. */
  lemma KeyHolder(r: Running, credential: nat)
    requires r.Valid() && r.Waits() && r.Holds(ActorKey(credential)) && r.transaction.RevokeCredential?
    ensures (r.Revokes(2) || r.Revokes(3)) && r.transaction.actor == credential
  {
    hide LocksOf;
    var i := HeldAt(r, ActorKey(credential));
    Places(r.transaction, i);
    FourLocks(r.transaction);
  }

  /** The revocations that are next to take the administrators' lock. */
  function Queue(sys: System): set<nat> {
    set t | t in sys && sys[t].Revokes(2)
  }

  /** With everybody waiting and no doom, somebody can run to its commit. */
  lemma SomebodyRuns(sys: System, best: nat) returns (t: nat)
    requires Sane(sys) && AllBehind(sys, best) && !Doomed(sys)
    ensures Runnable(sys, t)
  {
    hide LocksOf, Rank, Sane, Running.Holds, Running.Wanted, Runnable;
    if !sys[best].transaction.RevokeCredential?
       || forall u :: u in sys && u != best ==> !sys[u].Holds(ActorKey(sys[best].transaction.target))
    {
      t := best;
      ForemostRuns(sys, best);
    } else {
      var key := ActorKey(sys[best].transaction.target);
      var holder :| holder in sys && holder != best && sys[holder].Holds(key);
      LowForemost(sys, best);
      if u :| u in sys && !sys[u].transaction.RevokeCredential? && HoldsKey(sys[u]) {
        var credential :| sys[u].Holds(ActorKey(credential));
        t := u;
        KeyedRuns(sys, u, best, credential);
      } else {
        assert HoldsKey(sys[holder]);
        KeyHolder(sys[holder], key.credential);
        t := RevocationChoice(sys, best, holder);
      }
    }
  }

  ghost predicate HoldsKey(r: Running)
    requires r.Valid()
  {
    exists credential :: r.Holds(ActorKey(credential))
  }

  lemma LowForemost(sys: System, best: nat)
    requires AllBehind(sys, best) && sys[best].transaction.RevokeCredential?
    ensures Rank(sys[best].Wanted()) <= 3
  {
    FourLocks(sys[best].transaction);
  }

  /** Among revocations alone: the one with the administrators' lock, or one outside every
      circle. */
  lemma RevocationChoice(sys: System, best: nat, some: nat) returns (t: nat)
    requires Sane(sys) && AllBehind(sys, best) && !Doomed(sys)
    requires some in sys && (sys[some].Revokes(2) || sys[some].Revokes(3))
    requires forall u :: u in sys && HoldsKey(sys[u]) ==> sys[u].transaction.RevokeCredential?
    ensures Runnable(sys, t)
  {
    hide LocksOf, Rank, Sane, Running.Holds, Running.Wanted, Runnable;
    if r :| r in sys && sys[r].Revokes(3) {
      t := r;
      forall u | u in sys && u != r
        ensures !sys[u].Holds(Administrators) && !sys[u].Holds(ActorKey(sys[r].transaction.target))
      {
        NotBesideOffice(sys, r, u);
      }
      RevocationRuns(sys, r, best);
    } else {
      assert some in Queue(sys) && !Circle(sys, Queue(sys));
      t :| t in Queue(sys) && forall u :: u in Queue(sys) && u != t ==> sys[u].transaction.actor != sys[t].transaction.target;
      forall u | u in sys && u != t
        ensures !sys[u].Holds(Administrators) && !sys[u].Holds(ActorKey(sys[t].transaction.target))
      {
        if sys[u].Holds(Administrators) {
          OfficeHolder(sys[u]);
        }
        if sys[u].Holds(ActorKey(sys[t].transaction.target)) {
          assert HoldsKey(sys[u]);
          KeyHolder(sys[u], sys[t].transaction.target);
        }
      }
      RevocationRuns(sys, t, best);
    }
  }

  /** Uncrossed, nobody stands in the way of the revocation with the administrators' lock. */
  lemma NotBesideOffice(sys: System, r: nat, u: nat)
    requires Sane(sys) && r in sys && u in sys && u != r && sys[r].Revokes(3) && sys[u].Waits() && !Crossed(sys, r, u)
    requires HoldsKey(sys[u]) ==> sys[u].transaction.RevokeCredential?
    ensures !sys[u].Holds(Administrators) && !sys[u].Holds(ActorKey(sys[r].transaction.target))
  {
    hide LocksOf, Sane, Running.Holds, Running.Wanted;
    SaneIsValid(sys);
    RevokerHolds(sys[r]);
    if sys[u].Holds(Administrators) {
      OneOffice(sys, r, u);
    }
    if sys[u].Holds(ActorKey(sys[r].transaction.target)) {
      assert HoldsKey(sys[u]);
      KeyHolder(sys[u], sys[r].transaction.target);
      RevokerHolds(sys[u]);
    }
  }

  // --------------------------------------------------------------- the theorem

  /** The doom of a set is a matter of its members alone. */
  lemma CircleSame(sys: System, sys': System, ts: set<nat>)
    requires Circle(sys, ts) && forall t :: t in ts ==> t in sys' && sys'[t] == sys[t]
    ensures Circle(sys', ts)
  {
    hide LocksOf, AimsWithin;
    forall t | t in ts
      ensures AimsWithin(sys', ts, t)
    {
      AimSame(sys, sys', ts, t);
    }
  }

  lemma AimSame(sys: System, sys': System, ts: set<nat>, t: nat)
    requires t in ts && t in sys && sys[t].Revokes(2) && AimsWithin(sys, ts, t)
    requires forall u :: u in ts ==> u in sys' && (u in sys ==> sys'[u] == sys[u])
    ensures AimsWithin(sys', ts, t)
  {
    hide LocksOf;
    var u :| u in ts && u in sys && u != t && sys[u].Revokes(2) && sys[t].transaction.target == sys[u].transaction.actor;
    assert sys'[u] == sys[u];
  }

  lemma CrossedSame(sys: System, sys': System, t: nat, u: nat)
    requires Crossed(sys, t, u) && t in sys' && u in sys' && sys'[t] == sys[t] && sys'[u] == sys[u]
    ensures Crossed(sys', t, u)
  {
    hide LocksOf;
  }

  lemma RemovalKeeps(sys: System, t: nat)
    requires Sane(sys) && t in sys
    ensures Sane(sys - {t}) && |sys - {t}| < |sys|
    ensures Doomed(sys - {t}) ==> Doomed(sys)
  {
    hide LocksOf, Running.Holds, Running.Denies, Circle, Crossed;
    assert (sys - {t}).Keys == sys.Keys - {t} && |sys - {t}| == |(sys - {t}).Keys| && |sys| == |sys.Keys|;
    forall ts | Circle(sys - {t}, ts) ensures Circle(sys, ts) {
      CircleMembers(sys - {t}, ts);
      CircleSame(sys - {t}, sys, ts);
    }
    forall a, b | Crossed(sys - {t}, a, b) ensures Crossed(sys, a, b) {
      CrossedMembers(sys - {t}, a, b);
      CrossedSame(sys - {t}, sys, a, b);
    }
  }

  lemma CircleMembers(sys: System, ts: set<nat>)
    requires Circle(sys, ts)
    ensures ts != {} && forall t :: t in ts ==> t in sys && sys[t].Revokes(2)
  {
    hide AimsWithin;
  }

  lemma CrossedMembers(sys: System, t: nat, u: nat)
    requires Crossed(sys, t, u)
    ensures t in sys && u in sys
  {
  }

  lemma {:induction false} CommitSchedule(sys: System) returns (schedule: seq<nat>)
    requires Sane(sys) && !Doomed(sys)
    ensures Leads(sys, schedule, map[])
    decreases |sys|
  {
    hide LocksOf, Rank, Sane, Runnable, Doomed;
    if sys.Keys == {} {
      schedule := [];
    } else {
      var next;
      if t :| t in sys.Keys && !sys[t].Waits() {
        next := t;
        DoneRuns(sys, t);
      } else {
        var best := Foremost(sys, sys.Keys);
        SaneIsValid(sys);
        assert AllBehind(sys, best);
        next := SomebodyRuns(sys, best);
      }
      RunnableIsHere(sys, next);
      var first := RunsToCommit(sys, next);
      RemovalKeeps(sys, next);
      var second := CommitSchedule(sys - {next});
      LeadsOn(sys, first, sys - {next}, second, map[]);
      schedule := first + second;
    }
  }

  lemma SaneIsValid(sys: System)
    requires Sane(sys)
    ensures forall t :: t in sys ==> sys[t].Valid()
  {
  }

  lemma AdvanceOthers(sys: System, x: nat, t: nat)
    requires x in sys && t in sys && t != x
    ensures t in Advance(sys, x) && Advance(sys, x)[t] == sys[t]
  {
    hide LocksOf;
  }

  lemma CrossedStays(sys: System, x: nat, t: nat, u: nat)
    requires Sane(sys) && Enabled(sys, x) && Crossed(sys, t, u)
    ensures Crossed(Advance(sys, x), t, u)
  {
    hide LocksOf, Sane, Blocks, Crossed, Advance;
    CrossedMembers(sys, t, u);
    CrossedBlock(sys, t, u);
    AdvanceOthers(sys, x, t);
    AdvanceOthers(sys, x, u);
    CrossedSame(sys, Advance(sys, x), t, u);
  }

  /** A member of a circle that takes the administrators' lock is crossed with another. */
  lemma CircleCloses(sys: System, x: nat, ts: set<nat>) returns (u: nat)
    requires Circle(sys, ts) && x in ts
    ensures x in sys && Crossed(Advance(sys, x), x, u)
  {
    hide LocksOf, AimsWithin, Advance, Circle;
    u := AimOf(sys, x, ts);
    CircleMembers(sys, ts);
    FourLocks(sys[x].transaction);
    AdvanceOthers(sys, x, u);
    AdvanceOne(sys, x);
  }

  lemma AimOf(sys: System, x: nat, ts: set<nat>) returns (u: nat)
    requires Circle(sys, ts) && x in ts
    ensures u in ts && u in sys && x in sys && u != x && sys[x].Revokes(2) && sys[u].Revokes(2)
    ensures sys[x].transaction.target == sys[u].transaction.actor
  {
    hide LocksOf;
    AimIs(sys, x, ts);
    u :| u in ts && u in sys && u != x && sys[u].Revokes(2) && sys[x].transaction.target == sys[u].transaction.actor;
  }

  lemma AimIs(sys: System, x: nat, ts: set<nat>)
    requires Circle(sys, ts) && x in ts
    ensures x in sys && sys[x].Revokes(2) && AimsWithin(sys, ts, x)
  {
    hide AimsWithin;
  }

  lemma AdvanceOne(sys: System, x: nat)
    requires x in sys && sys[x].Waits()
    ensures x in Advance(sys, x) && Advance(sys, x)[x] == sys[x].(held := sys[x].held + 1)
  {
  }

  /** Doom stays, whatever step is taken. */
  lemma DoomStays(sys: System, x: nat)
    requires Sane(sys) && Enabled(sys, x) && Doomed(sys)
    ensures Doomed(Advance(sys, x))
  {
    hide LocksOf, Sane, Blocks, Circle, Crossed, Advance;
    if t, u :| Crossed(sys, t, u) {
      CrossedStays(sys, x, t, u);
    } else {
      var ts :| Circle(sys, ts);
      CircleMembers(sys, ts);
      if x in ts {
        var u := CircleCloses(sys, x, ts);
      } else {
        forall t | t in ts ensures t in Advance(sys, x) && Advance(sys, x)[t] == sys[t] {
          AdvanceOthers(sys, x, t);
        }
        CircleSame(sys, Advance(sys, x), ts);
      }
    }
  }

  lemma {:induction false} DoomIsFinal(sys: System, schedule: seq<nat>, last: System)
    requires Doomed(sys) && Leads(sys, schedule, last)
    ensures last != map[]
    decreases schedule
  {
    hide Sane, Blocks, Advance, Doomed;
    if schedule == [] {
      DoomedIsSomebody(sys);
    } else {
      DoomStays(sys, schedule[0]);
      DoomIsFinal(Advance(sys, schedule[0]), schedule[1..], last);
    }
  }

  lemma DoomedIsSomebody(sys: System)
    requires Doomed(sys)
    ensures sys != map[]
  {
    if ts :| Circle(sys, ts) {
      var t :| t in ts;
      assert t in sys;
    }
  }

  /** From any state, some schedule lets every transaction commit if and only if no two
      revocations are crossed and no circle of them waits for the administrators' lock. */
  lemma EveryoneCanCommitIff(sys: System)
    requires Sane(sys)
    ensures (exists schedule :: Leads(sys, schedule, map[])) <==> !Doomed(sys)
  {
    hide Sane, Leads, Doomed;
    if Doomed(sys) {
      forall schedule ensures !Leads(sys, schedule, map[]) {
        if Leads(sys, schedule, map[]) {
          DoomIsFinal(sys, schedule, map[]);
        }
      }
    } else {
      var schedule := CommitSchedule(sys);
    }
  }

  lemma Stopped(sys: System, t: nat)
    requires Sane(sys) && t in sys && !Enabled(sys, t)
    ensures StoppedWithin(sys, sys.Keys, t)
  {
    hide LocksOf, Sane, Blocks;
  }

  /** Somebody can take its next step, unless two revocations are crossed. */
  lemma SomebodyAdvances(sys: System)
    requires Sane(sys) && sys.Keys != {} && forall t, u :: !Crossed(sys, t, u)
    ensures exists t :: Enabled(sys, t)
  {
    hide LocksOf, Sane, Blocks, Crossed, Enabled, StoppedWithin;
    if forall t :: t in sys.Keys ==> !Enabled(sys, t) {
      forall t | t in sys.Keys ensures StoppedWithin(sys, sys.Keys, t) {
        Stopped(sys, t);
      }
      var t, u := DeadlockIsCrossed(sys, sys.Keys);
    }
  }

  // ------------------------------------------------------- the case happens

  /** Two revocations and how far each has got. */
  function Two(t: Transaction, u: Transaction, i: nat, j: nat): System {
    map[0 := Running(t, i), 1 := Running(u, j)]
  }

  lemma NotDenied(r: Running, l: Lock)
    requires r.Valid() && forall i :: 0 <= i < r.held ==> !Conflicts(l, LocksOf(r.transaction)[i])
    ensures !r.Denies(l)
  {
    hide LocksOf, Conflicts;
    forall m | r.Holds(m) ensures !Conflicts(l, m) {
      var i := HeldAt(r, m);
    }
  }

  /** One of the two goes on, if the other holds nothing that its next lock excludes. */
  lemma OneGoesOn(t: Transaction, u: Transaction, i: nat, j: nat, x: nat)
    requires t.RevokeCredential? && u.RevokeCredential? && x < 2 && i <= 4 && j <= 4 && Sane(Two(t, u, i, j))
    requires x == 0 ==> i < 4 && forall k :: 0 <= k < j ==> k < |LocksOf(u)| && !Conflicts(LocksOf(t)[i], LocksOf(u)[k])
    requires x == 1 ==> j < 4 && forall k :: 0 <= k < i ==> k < |LocksOf(t)| && !Conflicts(LocksOf(u)[j], LocksOf(t)[k])
    ensures Enabled(Two(t, u, i, j), x)
    ensures Advance(Two(t, u, i, j), x) == if x == 0 then Two(t, u, i + 1, j) else Two(t, u, i, j + 1)
    ensures Sane(Advance(Two(t, u, i, j), x))
  {
    hide LocksOf, Conflicts, Sane;
    FourLocks(t);
    FourLocks(u);
    var sys := Two(t, u, i, j);
    NotDenied(sys[1 - x], sys[x].Wanted());
    AdvanceKeeps(sys, x);
  }

  /** Any two administrators deadlock that begin to revoke, the one the credential the other
      acts with and the other whatever it likes, if the first takes the administrators' lock
      when the second has begun. */
  lemma RevocationDeadlockHappens(claim: nat, other: nat, a: nat, b: nat, c: nat)
    requires claim != other && a != b
    ensures var t, u := RevokeCredential(claim, a, b), RevokeCredential(other, b, c);
            && Sane(Two(t, u, 0, 0)) && Leads(Two(t, u, 0, 0), [0, 0, 1, 1, 0], Two(t, u, 3, 2))
            && Sane(Two(t, u, 3, 2)) && Deadlocked(Two(t, u, 3, 2), {0, 1})
  {
    hide LocksOf, Sane, Enabled, Advance, Deadlocked, Two;
    var t, u := RevokeCredential(claim, a, b), RevokeCredential(other, b, c);
    FourLocks(t);
    FourLocks(u);
    FreshIsSane(t, u);
    OneGoesOn(t, u, 0, 0, 0);
    OneGoesOn(t, u, 1, 0, 0);
    OneGoesOn(t, u, 2, 0, 1);
    OneGoesOn(t, u, 2, 1, 1);
    OneGoesOn(t, u, 2, 2, 0);
    FiveSteps(t, u);
    CrossedTwo(t, u);
    CrossedIsDeadlock(Two(t, u, 3, 2), 0, 1);
  }

  lemma FreshIsSane(t: Transaction, u: Transaction)
    ensures Sane(Two(t, u, 0, 0))
  {
    hide LocksOf;
  }

  lemma CrossedTwo(t: Transaction, u: Transaction)
    requires t.RevokeCredential? && u.RevokeCredential? && t.target == u.actor
    ensures Crossed(Two(t, u, 3, 2), 0, 1)
  {
    hide LocksOf;
  }

  lemma FiveSteps(t: Transaction, u: Transaction)
    requires Sane(Two(t, u, 0, 0)) && Enabled(Two(t, u, 0, 0), 0) && Advance(Two(t, u, 0, 0), 0) == Two(t, u, 1, 0)
    requires Sane(Two(t, u, 1, 0)) && Enabled(Two(t, u, 1, 0), 0) && Advance(Two(t, u, 1, 0), 0) == Two(t, u, 2, 0)
    requires Sane(Two(t, u, 2, 0)) && Enabled(Two(t, u, 2, 0), 1) && Advance(Two(t, u, 2, 0), 1) == Two(t, u, 2, 1)
    requires Sane(Two(t, u, 2, 1)) && Enabled(Two(t, u, 2, 1), 1) && Advance(Two(t, u, 2, 1), 1) == Two(t, u, 2, 2)
    requires Sane(Two(t, u, 2, 2)) && Enabled(Two(t, u, 2, 2), 0) && Advance(Two(t, u, 2, 2), 0) == Two(t, u, 3, 2)
    ensures Leads(Two(t, u, 0, 0), [0, 0, 1, 1, 0], Two(t, u, 3, 2))
  {
    hide Sane, Enabled, Advance, Two;
    assert [0, 0, 1, 1, 0][1..] == [0, 1, 1, 0] && [0, 1, 1, 0][1..] == [1, 1, 0] && [1, 1, 0][1..] == [1, 0] && [1, 0][1..] == [0];
    assert Leads(Two(t, u, 3, 2), [], Two(t, u, 3, 2));
    assert [0][1..] == [] && Leads(Two(t, u, 2, 2), [0], Two(t, u, 3, 2));
    assert Leads(Two(t, u, 2, 1), [1, 0], Two(t, u, 3, 2));
    assert Leads(Two(t, u, 2, 0), [1, 1, 0], Two(t, u, 3, 2));
    assert Leads(Two(t, u, 1, 0), [0, 1, 1, 0], Two(t, u, 3, 2));
  }

  // ------------------------------------------------------------- one at a time

  /** In every sane system two transactions that have all their locks, and so may commit, work
      on no order, payout, wallet, customer, idempotency row or other row in common. */
  lemma CommittersApart(sys: System, t: nat, u: nat, l: Lock)
    requires Sane(sys) && t in sys && u in sys && t != u
    requires sys[t].held == |LocksOf(sys[t].transaction)| && sys[u].held == |LocksOf(sys[u].transaction)|
    ensures WorksOn(sys[t].transaction, l) && WorksOn(sys[u].transaction, l) ==> l.ActorKey?
  {
    hide WorksOn, LocksOf;
    LocksAreItsWork(sys[t].transaction, l);
    LocksAreItsWork(sys[u].transaction, l);
    var mine, yours := LocksOf(sys[t].transaction), LocksOf(sys[u].transaction);
    assert mine[..|mine|] == mine && yours[..|yours|] == yours;
    assert l in mine ==> sys[t].Holds(l);
    assert l in yours && !l.ActorKey? ==> sys[u].Denies(l) by {
      assert !l.ActorKey? ==> Conflicts(l, l);
    }
  }
}

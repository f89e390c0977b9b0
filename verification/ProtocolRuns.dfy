/** What holds over every run of the client protocol, for any codec whose canonical form is
    stable, any interleaving, any loss, delay or duplication of messages, and crashes at any
    point of the two-file store. */
module ProtocolRuns {
  import opened Wrappers
  import opened Bridge
  import opened Protocol
  import opened ProtocolSteps
  import M = Model
  import I = Idempotency

  ghost predicate Reachable(canon: Canonical, sys: System) {
    exists events :: Run(canon, INIT, events) == sys
  }

  lemma {:induction false} RunKeeps(canon: Canonical, sys: System, events: seq<Event>)
    requires Lawful(canon) && Inv(canon, sys)
    ensures Inv(canon, Run(canon, sys, events))
    decreases events
  {
    hide Inv, Step, Lawful;
    if events != [] {
      StepKeeps(canon, sys, events[0]);
      RunKeeps(canon, Step(canon, sys, events[0]), events[1..]);
    }
  }

  lemma ReachableIsSound(canon: Canonical, sys: System)
    requires Lawful(canon) && Reachable(canon, sys)
    ensures Inv(canon, sys)
  {
    assert I.Logged(INIT.table, []);
    assert Inv(canon, INIT);
    var events :| Run(canon, INIT, events) == sys;
    RunKeeps(canon, INIT, events);
  }

  // ------------------------------------------------------- at most one effect

  /** Exactly one committed effect under this key, and it is this message. */
  ghost predicate OnlyEffect(sys: System, m: Message) {
    exists i :: 0 <= i < |sys.effects| && sys.effects[i] == m
      && forall j :: 0 <= j < |sys.effects| && sys.effects[j].key == m.key ==> j == i
  }

  lemma AtMostOneEffect(canon: Canonical, sys: System)
    requires Lawful(canon) && Reachable(canon, sys)
    ensures forall i, j :: 0 <= i < j < |sys.effects| ==> sys.effects[i].key != sys.effects[j].key
    ensures forall i :: 0 <= i < |sys.effects| ==> sys.effects[i] in sys.wire
  {
    ReachableIsSound(canon, sys);
  }

  lemma SucceededMeansOnce(canon: Canonical, sys: System)
    requires Lawful(canon) && Reachable(canon, sys)
    requires sys.app.Some? && sys.app.value.session.Some? && sys.app.value.session.value.pending.Some?
    requires sys.app.value.session.value.pending.value.phase == Succeeded
    ensures var session := sys.app.value.session.value;
            var m := MessageOf(session.client, session.pending.value.write);
            && OnlyEffect(sys, m)
            && session.pending.value.result.Some? && session.pending.value.result.value.Done?
            && Recorded(sys.table, m, session.pending.value.result.value.value)
  {
    ReachableIsSound(canon, sys);
    var m := MessageIn(sys.app.value.recovery.value);
    RecordedMeansOnce(canon, sys, m);
  }

  lemma RecordedMeansOnce(canon: Canonical, sys: System, m: Message)
    requires Inv(canon, sys) && m in sys.wire && ClaimOf(m) in sys.table.rows
    ensures OnlyEffect(sys, m)
  {
    var i :| 0 <= i < |sys.effects| && ClaimOf(sys.effects[i]) == ClaimOf(m);
    assert sys.effects[i].key == m.key;
  }

  // ------------------------------------------------- one key, one request

  /** Nothing but the given request is stored or sent under its key. */
  ghost predicate Bound(sys: System, m: Message) {
    && m.key < sys.clock
    && (forall s :: s in Records(sys) && s.key == m.key ==> MessageIn(s) == m)
    && (forall n :: n in sys.wire && n.key == m.key ==> n == m)
  }

  ghost predicate Gone(sys: System, key: Uuid) {
    key < sys.clock && !Occurs(sys, key)
  }

  /** A step invents no request: what it stores or sends was stored before, or has a key
      drawn in that step. */
  ghost predicate Carries(sys: System, sys': System) {
    && sys.clock <= sys'.clock
    && (forall s :: s in Records(sys') ==> s.key >= sys.clock || exists t :: t in Records(sys) && MessageIn(t) == MessageIn(s))
    && (forall m :: m in sys'.wire ==> m in sys.wire || exists t :: t in Records(sys) && MessageIn(t) == m)
  }

  lemma SameRecordsCarry(sys: System, sys': System)
    requires sys.clock <= sys'.clock && sys'.wire == sys.wire && Records(sys') <= Records(sys)
    ensures Carries(sys, sys')
  {
  }

  lemma ExecuteCarries(canon: Canonical, sys: System, id: Uuid, request: Uuid, io: WriteIo, dies: bool)
    requires Inv(canon, sys) && sys.app.Some?
    ensures Carries(sys, DoExecuteSent(sys, sys.app.value, id, request, io, dies))
  {
    hide StoreOk, ServerOk, LoginsOk;
    var app := sys.app.value;
    if Sendable(app, id, request) {
      var r := app.recovery.value;
      var s := r.(attempted := true);
      assert r in Records(sys) && MessageIn(r) == MessageIn(s);
      assert Records(DoExecuteSent(sys, app, id, request, io, dies)) <= Records(sys) + {s};
    } else {
      SameRecordsCarry(sys, sys);
    }
  }

  lemma PrepareCarries(canon: Canonical, sys: System, id: Uuid, op: Operation, target: Option<Uuid>, json: string, io: WriteIo, dies: bool)
    requires sys.app.Some?
    ensures Carries(sys, DoPrepare(canon, sys, sys.app.value, id, op, target, json, io, dies))
  {
    var app := sys.app.value;
    var sys' := DoPrepare(canon, sys, app, id, op, target, json, io, dies);
    var prepared := Preparable(canon, app, id, op, target, json, sys.clock);
    if prepared.Some? {
      var s := StoredFor(app.session.value.client.origin, app.session.value.actor.id, prepared.value, false);
      assert s.key == sys.clock;
      assert Records(sys') <= Records(sys) + {s};
    }
  }

  lemma StepCarries(canon: Canonical, sys: System, e: Event)
    requires Inv(canon, sys)
    ensures Carries(sys, Step(canon, sys, e))
  {
    hide Inv, Carries;
    var sys' := Step(canon, sys, e);
    if sys.app.Some? && e.Prepare? {
      PrepareCarries(canon, sys, e.id, e.operation, e.target, e.json, e.write, e.dies);
    } else if sys.app.Some? && e.ExecuteSent? {
      ExecuteCarries(canon, sys, e.id, e.request, e.write, e.dies);
    } else {
      SameRecordsCarry(sys, sys');
    }
  }

  lemma {:induction false} BoundForGood(canon: Canonical, sys: System, m: Message, more: seq<Event>)
    requires Lawful(canon) && Inv(canon, sys) && Bound(sys, m)
    ensures Bound(Run(canon, sys, more), m)
    decreases more
  {
    hide Inv, Step, Lawful;
    if more != [] {
      StepCarries(canon, sys, more[0]);
      StepKeeps(canon, sys, more[0]);
      BoundForGood(canon, Step(canon, sys, more[0]), m, more[1..]);
    }
  }

  lemma {:induction false} GoneForGood(canon: Canonical, sys: System, key: Uuid, more: seq<Event>)
    requires Lawful(canon) && Inv(canon, sys) && Gone(sys, key)
    ensures Gone(Run(canon, sys, more), key) && Inv(canon, Run(canon, sys, more))
    decreases more
  {
    hide Inv, Step, Lawful;
    if more != [] {
      StepCarries(canon, sys, more[0]);
      StepKeeps(canon, sys, more[0]);
      GoneForGood(canon, Step(canon, sys, more[0]), key, more[1..]);
    }
  }

  /** Whatever happens after a prepare, across crashes, restarts and new logins, every send
      under its key carries the request as it was prepared. */
  lemma EverySendIsThePreparedOne(canon: Canonical, sys: System, id: Uuid, op: Operation, target: Option<Uuid>, json: string,
                                  io: WriteIo, dies: bool, more: seq<Event>, m: Message)
    requires Lawful(canon) && Reachable(canon, sys) && sys.app.Some?
    requires Preparable(canon, sys.app.value, id, op, target, json, sys.clock).Some?
    requires m in Run(canon, Step(canon, sys, Prepare(id, op, target, json, io, dies)), more).wire
    requires m.key == Preparable(canon, sys.app.value, id, op, target, json, sys.clock).value.key
    ensures m == MessageOf(sys.app.value.session.value.client, Preparable(canon, sys.app.value, id, op, target, json, sys.clock).value)
  {
    hide Lawful, PrepareWrite, StoreOk, ServerOk, LoginsOk;
    ReachableIsSound(canon, sys);
    var app := sys.app.value;
    var sys' := Step(canon, sys, Prepare(id, op, target, json, io, dies));
    EncodeIsCanonical(canon, app.session.value.client, op, target, json, sys.clock);
    var w := Preparable(canon, app, id, op, target, json, sys.clock).value;
    var n := MessageOf(app.session.value.client, w);
    var s := StoredFor(app.session.value.client.origin, app.session.value.actor.id, w, false);
    KeysBelowClock(canon, sys);
    assert Records(sys') <= Records(sys) + {s};
    StepKeeps(canon, sys, Prepare(id, op, target, json, io, dies));
    BoundForGood(canon, sys', n, more);
  }

  lemma KeysBelowClock(canon: Canonical, sys: System)
    requires Inv(canon, sys)
    ensures forall s :: s in Records(sys) ==> s.key < sys.clock
    ensures forall m :: m in sys.wire ==> m.key < sys.clock
  {
  }

  // -------------------------------------------------------------- durability

  /** A request once sent and not given up: a restart finds it, marked attempted, or an
      error; never nothing, another key, or a request not marked attempted. */
  lemma SentRequestsAreFound(canon: Canonical, sys: System, m: Message)
    requires Lawful(canon) && Reachable(canon, sys) && m in sys.wire && m.key !in sys.abandoned
    ensures Load(sys.disk) == None
            || (Load(sys.disk).value.Some? && Load(sys.disk).value.value.attempted && MessageIn(Load(sys.disk).value.value) == m)
  {
    hide ServerOk, AppOk, LoginsOk, Agree, Unattempted, Restorable;
    ReachableIsSound(canon, sys);
  }

  /** `load_store` fails exactly on a half-written `.next` without a main file. */
  lemma StoreLoadsUnlessHalfWritten(canon: Canonical, sys: System)
    requires Lawful(canon) && Reachable(canon, sys)
    ensures Load(sys.disk) == None <==> sys.disk == Disk(Absent, Torn)
  {
    hide ServerOk, AppOk, LoginsOk, Agree, Unattempted, Durable;
    ReachableIsSound(canon, sys);
    assert sys.disk.main.Full? ==> sys.disk.main.record in Records(sys);
    assert sys.disk.next.Full? ==> sys.disk.next.record in Records(sys);
  }

  lemma ReachableStep(canon: Canonical, sys: System, e: Event)
    requires Reachable(canon, sys)
    ensures Reachable(canon, Step(canon, sys, e))
  {
    hide Step;
    assert [e][1..] == [];
    assert Run(canon, sys, [e]) == Run(canon, Step(canon, sys, e), []);
    ReachableOnwards(canon, sys, [e]);
  }

  function Echo(op: Operation, s: string): Option<string> {
    Some(s)
  }

  /** A first login on an empty disk. */
  lemma FirstLogin(canon: Canonical) returns (sys: System)
    ensures Reachable(canon, sys)
    ensures var client := Client("https://example.com", 7, 1);
            sys == INIT.(clock := 4, app := Some(App(2, Some(Session(2, client, M.Actor(7, M.Admin, None), None)), None)))
  {
    hide Reachable;
    EmptyRun(canon);
    var s1 := Step(canon, INIT, Start);
    ReachableStep(canon, INIT, Start);
    var s2 := Step(canon, s1, LoginSent("https://example.com", 7));
    ReachableStep(canon, s1, LoginSent("https://example.com", 7));
    var login := Login(Client("https://example.com", 7, 1), 2);
    assert s2.logins == {login};
    sys := Step(canon, s2, LoginAnswered(login, M.Actor(7, M.Admin, None)));
    ReachableStep(canon, s2, LoginAnswered(login, M.Actor(7, M.Admin, None)));
  }

  /** That state is real: dying in the very first `prepare` leaves it, with nothing sent. */
  lemma HalfWrittenStoreHappens()
    ensures exists sys :: Reachable(Echo, sys) && sys.app.None? && sys.wire == {} && Load(sys.disk) == None
  {
    hide Reachable;
    var sys := FirstLogin(Echo);
    var e := Event.Prepare(2, Operation.Release, Some(9), "{}", WriteIo(true, false, false, false, false, false), true);
    ReachableStep(Echo, sys, e);
    assert Preparable(Echo, sys.app.value, 2, Operation.Release, Some(9), "{}", sys.clock).Some?;
    assert Load(Step(Echo, sys, e).disk) == None;
  }

  /** Preparing and sending, right after the first login. */
  lemma FirstSend(canon: Canonical, op: Operation, target: Option<Uuid>, json: string) returns (sys: System, w: Write)
    requires PrepareWrite(canon, Client("https://example.com", 7, 1), op, target, json, 4).Some?
    ensures Reachable(canon, sys) && sys.effects == [] && sys.abandoned == {}
    ensures w == PrepareWrite(canon, Client("https://example.com", 7, 1), op, target, json, 4).value
    ensures var client := Client("https://example.com", 7, 1);
            && sys.wire == {MessageOf(client, w)} && sys.sends == {Send(2, 5, client, w)}
            && sys.disk == Disk(Full(StoredFor(client.origin, 7, w, true)), Absent)
            && sys.app.Some? && sys.app.value.Holds(2, 5) && sys.app.value.session.value.client == client
            && sys.app.value.session.value.pending.value.write == w
  {
    hide Reachable, PrepareWrite;
    var io := WriteIo(true, true, true, true, true, true);
    var s1 := FirstLogin(canon);
    w := PrepareWrite(canon, Client("https://example.com", 7, 1), op, target, json, 4).value;
    SessionOfWrite(canon, Client("https://example.com", 7, 1), op, target, json, 4);
    var e1 := Event.Prepare(2, op, target, json, io, false);
    assert Preparable(canon, s1.app.value, 2, op, target, json, s1.clock) == Some(w);
    var s2 := Step(canon, s1, e1);
    ReachableStep(canon, s1, e1);
    sys := Step(canon, s2, ExecuteSent(2, 5, io, false));
    ReachableStep(canon, s2, ExecuteSent(2, 5, io, false));
  }

  lemma SessionOfWrite(canon: Canonical, client: Client, op: Operation, target: Option<Uuid>, json: string, key: Uuid)
    ensures var w := PrepareWrite(canon, client, op, target, json, key);
            w.Some? ==> w.value.session == client.session && w.value.key == key
  {
  }

  lemma EmptyRun(canon: Canonical)
    ensures Reachable(canon, INIT)
  {
    assert Run(canon, INIT, []) == INIT;
  }

  /** The same as a statement about traces: from a send on, without a discard. */
  lemma SendIsDurable(canon: Canonical, sys: System, id: Uuid, request: Uuid, io: WriteIo, more: seq<Event>)
    requires Lawful(canon) && Reachable(canon, sys) && sys.app.Some? && Sendable(sys.app.value, id, request)
    requires AfterWrite(sys.disk, sys.app.value.recovery.value.(attempted := true), io).1
    requires forall e :: e in more ==> !e.Discard?
    ensures var disk := Run(canon, Step(canon, sys, ExecuteSent(id, request, io, false)), more).disk;
            var m := MessageOf(sys.app.value.session.value.client, sys.app.value.session.value.pending.value.write);
            Load(disk) == None
            || (Load(disk).value.Some? && Load(disk).value.value.attempted && MessageIn(Load(disk).value.value) == m)
  {
    hide StoreOk, ServerOk, LoginsOk, Lawful, Load, Reachable;
    var send := ExecuteSent(id, request, io, false);
    ReachableIsSound(canon, sys);
    var m := MessageOf(sys.app.value.session.value.client, sys.app.value.session.value.pending.value.write);
    var first := Step(canon, sys, send);
    WireStays(canon, first, m, more);
    ReachableOnwards(canon, sys, [send] + more);
    assert ([send] + more)[1..] == more;
    SentRequestsAreFound(canon, Run(canon, first, more), m);
  }

  lemma ReachableOnwards(canon: Canonical, sys: System, more: seq<Event>)
    requires Reachable(canon, sys)
    ensures Reachable(canon, Run(canon, sys, more))
  {
    hide Step;
    var events :| Run(canon, INIT, events) == sys;
    RunAppend(canon, INIT, events, more);
  }

  lemma {:induction false} RunAppend(canon: Canonical, sys: System, events: seq<Event>, more: seq<Event>)
    ensures Run(canon, sys, events + more) == Run(canon, Run(canon, sys, events), more)
    decreases events
  {
    hide Step;
    if events == [] {
      assert events + more == more;
    } else {
      assert (events + more)[1..] == events[1..] + more;
      RunAppend(canon, Step(canon, sys, events[0]), events[1..], more);
    }
  }

  lemma StepWire(canon: Canonical, sys: System, e: Event)
    ensures sys.wire <= Step(canon, sys, e).wire
    ensures !e.Discard? ==> Step(canon, sys, e).abandoned <= sys.abandoned
  {
  }

  lemma {:induction false} WireStays(canon: Canonical, sys: System, m: Message, more: seq<Event>)
    requires m in sys.wire && m.key !in sys.abandoned && forall e :: e in more ==> !e.Discard?
    ensures m in Run(canon, sys, more).wire && m.key !in Run(canon, sys, more).abandoned
    decreases more
  {
    hide Step;
    if more != [] {
      StepWire(canon, sys, more[0]);
      WireStays(canon, Step(canon, sys, more[0]), m, more[1..]);
    }
  }

  // ------------------------------------------------------- sessions and sends

  lemma SessionsAreSound(canon: Canonical, sys: System)
    requires Lawful(canon) && Reachable(canon, sys) && sys.app.Some? && sys.app.value.session.Some?
    ensures var app := sys.app.value;
            var session := app.session.value;
            && session.id == app.generation
            && (session.pending.Some? <==> app.recovery.Some?)
            && (session.pending.Some? ==>
                  && session.pending.value.write.key == app.recovery.value.key == session.pending.value.receipt.key
                  && MessageOf(session.client, session.pending.value.write) == MessageIn(app.recovery.value))
  {
    ReachableIsSound(canon, sys);
  }

  /** At most one send is in flight, exactly while its write is Sending, and neither lookup
      that follows the network call can fail. */
  lemma OneSendAtATime(canon: Canonical, sys: System)
    requires Lawful(canon) && Reachable(canon, sys)
    ensures sys.sends == InFlight(sys.app) && |sys.sends| <= 1
    ensures forall send, reply :: send in sys.sends ==> sys.app.Some? && EndSend(sys.app.value, send.session, send.request, reply).Some?
  {
    ReachableIsSound(canon, sys);
  }

  /** The two checks of the recovery record before a send cannot fail either. */
  lemma RecoveryRecordMatches(canon: Canonical, sys: System, id: Uuid, request: Uuid)
    requires Lawful(canon) && Reachable(canon, sys) && sys.app.Some? && sys.app.value.Holds(id, request)
    ensures var p := sys.app.value.session.value.pending.value;
            Sendable(sys.app.value, id, request) <==> p.phase.MaySend()
    ensures var p := sys.app.value.session.value.pending.value;
            p.result.Some? <==> p.phase in {Succeeded, Rejected}
  {
    ReachableIsSound(canon, sys);
  }

  /** While a sent request is not given up nothing else can be prepared, no other server and
      no other identity can log in. */
  lemma NothingOvertakes(canon: Canonical, sys: System, m: Message, id: Uuid, op: Operation, target: Option<Uuid>, json: string,
                         key: Uuid, client: Client, me: M.Actor, generation: Uuid, receipt: Uuid)
    requires Lawful(canon) && Reachable(canon, sys) && m in sys.wire && m.key !in sys.abandoned && sys.app.Some?
    ensures Preparable(canon, sys.app.value, id, op, target, json, key) == None
    ensures client.origin != m.origin ==> LoginBegin(sys.app.value, client, generation) == None
    ensures me.id != m.actor ==> LoginEnd(canon, sys.app.value, client, generation, me, receipt) == None
  {
    ReachableIsSound(canon, sys);
  }

  /** A write that is still Prepared was never sent and has no effect. */
  lemma PreparedHasNoEffect(canon: Canonical, sys: System)
    requires Lawful(canon) && Reachable(canon, sys)
    requires sys.app.Some? && sys.app.value.session.Some? && sys.app.value.session.value.pending.Some?
    requires sys.app.value.session.value.pending.value.phase == WritePhase.Prepared
    ensures forall m :: m in sys.wire ==> m.key != sys.app.value.session.value.pending.value.write.key
    ensures forall i :: 0 <= i < |sys.effects| ==> sys.effects[i].key != sys.app.value.session.value.pending.value.write.key
  {
    ReachableIsSound(canon, sys);
    PreparedIsNew(canon, sys);
  }

  // ------------------------------------------------ what a discard settles

  ghost predicate Affected(sys: System, key: Uuid) {
    exists i :: 0 <= i < |sys.effects| && sys.effects[i].key == key
  }

  lemma DiscardedNowhere(canon: Canonical, sys: System, id: Uuid, request: Uuid)
    requires sys.app.Some? && Discardable(sys.app.value, id, request)
    ensures var after := Step(canon, sys, Discard(id, request, ClearIo(true, true), false));
            Records(after) == {} && after.wire == sys.wire && after.clock == sys.clock
  {
  }

  lemma PreparedIsNew(canon: Canonical, sys: System)
    requires Inv(canon, sys)
    requires sys.app.Some? && sys.app.value.session.Some? && sys.app.value.session.value.pending.Some?
    requires sys.app.value.session.value.pending.value.phase == WritePhase.Prepared
    ensures var key := sys.app.value.session.value.pending.value.write.key;
            key < sys.clock && forall m :: m in sys.wire ==> m.key != key
  {
    assert sys.app.value.recovery.value in Records(sys);
  }

  /** A completed discard erases a write that was never sent. */
  lemma DiscardErases(canon: Canonical, sys: System, id: Uuid, request: Uuid)
    requires Inv(canon, sys) && sys.app.Some? && Discardable(sys.app.value, id, request)
    requires sys.app.value.session.value.pending.value.phase == WritePhase.Prepared
    ensures Gone(Step(canon, sys, Discard(id, request, ClearIo(true, true), false)), sys.app.value.session.value.pending.value.write.key)
  {
    hide Inv, Step;
    DiscardedNowhere(canon, sys, id, request);
    PreparedIsNew(canon, sys);
  }

  lemma AnsweredWasSent(canon: Canonical, sys: System, id: Uuid, request: Uuid)
    requires Inv(canon, sys) && sys.app.Some? && Discardable(sys.app.value, id, request)
    requires sys.app.value.session.value.pending.value.phase != WritePhase.Prepared
    ensures MessageOf(sys.app.value.session.value.client, sys.app.value.session.value.pending.value.write) in sys.wire
  {
  }

  /** A discarded write never takes effect if and only if it was still Prepared: one that
      was answered, with success or with a rejection, was sent, and what was sent may have
      been committed or still be delivered and commit. */
  lemma DiscardIsFinal(canon: Canonical, sys: System, id: Uuid, request: Uuid)
    requires Lawful(canon) && Reachable(canon, sys) && sys.app.Some? && Discardable(sys.app.value, id, request)
    ensures var p := sys.app.value.session.value.pending.value;
            var after := Step(canon, sys, Discard(id, request, ClearIo(true, true), false));
            (forall more :: !Affected(Run(canon, after, more), p.write.key)) <==> p.phase == WritePhase.Prepared
  {
    hide Lawful, Reachable, Inv, Run, Gone, Affected, OnlyEffect, Step;
    ReachableIsSound(canon, sys);
    var p := sys.app.value.session.value.pending.value;
    var after := Step(canon, sys, Discard(id, request, ClearIo(true, true), false));
    StepKeeps(canon, sys, Discard(id, request, ClearIo(true, true), false));
    if p.phase == WritePhase.Prepared {
      DiscardErases(canon, sys, id, request);
      forall more ensures !Affected(Run(canon, after, more), p.write.key) {
        GoneHasNoEffect(canon, after, p.write.key, more);
      }
    } else {
      var m := MessageOf(sys.app.value.session.value.client, p.write);
      AnsweredWasSent(canon, sys, id, request);
      StepWire(canon, sys, Discard(id, request, ClearIo(true, true), false));
      SentMayCommit(canon, after, m, 0);
      assert Affected(Run(canon, after, [Deliver(m, Some(0))]), p.write.key);
    }
  }

  lemma GoneHasNoEffect(canon: Canonical, sys: System, key: Uuid, more: seq<Event>)
    requires Lawful(canon) && Inv(canon, sys) && Gone(sys, key)
    ensures !Affected(Run(canon, sys, more), key)
  {
    GoneForGood(canon, sys, key, more);
  }

  /** A message once sent can be delivered at any later time; afterwards it has exactly one
      effect, whether that one was committed then or before. */
  lemma SentMayCommit(canon: Canonical, sys: System, m: Message, response: nat)
    requires Lawful(canon) && Inv(canon, sys) && m in sys.wire
    ensures OnlyEffect(Run(canon, sys, [Deliver(m, Some(response))]), m)
    ensures Affected(Run(canon, sys, [Deliver(m, Some(response))]), m.key)
  {
    var sys' := Step(canon, sys, Deliver(m, Some(response)));
    assert Run(canon, sys, [Deliver(m, Some(response))]) == sys' by {
      hide Step;
    }
    StepKeeps(canon, sys, Deliver(m, Some(response)));
    RowsRespond(sys);
    assert ClaimOf(m) in sys'.table.rows;
    RecordedMeansOnce(canon, sys', m);
  }

  lemma RowsRespond(sys: System)
    requires ServerOk(sys)
    ensures forall c :: c in sys.table.rows ==> sys.table.rows[c].response.Some?
  {
  }

  /** In every state in which a write is Rejected its effect can still be committed. */
  lemma RejectedMayCommit(canon: Canonical, sys: System, response: nat)
    requires Lawful(canon) && Reachable(canon, sys)
    requires sys.app.Some? && sys.app.value.session.Some? && sys.app.value.session.value.pending.Some?
    requires sys.app.value.session.value.pending.value.phase == Rejected
    ensures var m := MessageOf(sys.app.value.session.value.client, sys.app.value.session.value.pending.value.write);
            OnlyEffect(Run(canon, sys, [Deliver(m, Some(response))]), m)
  {
    ReachableIsSound(canon, sys);
    SentMayCommit(canon, sys, MessageIn(sys.app.value.recovery.value), response);
  }

  /** A write can be Rejected before its request has had any effect. */
  lemma RejectedHappens()
    ensures exists sys :: Reachable(Echo, sys) && sys.effects == []
                          && sys.app.Some? && sys.app.value.session.Some? && sys.app.value.session.value.pending.Some?
                          && sys.app.value.session.value.pending.value.phase == Rejected
  {
    hide Reachable;
    var sys, w := FirstSend(Echo, Operation.Release, Some(9), "{}");
    var send := Send(2, 5, Client("https://example.com", 7, 1), w);
    ReachableStep(Echo, sys, ExecuteAnswered(send, Api(409)));
    assert Step(Echo, sys, ExecuteAnswered(send, Api(409))).app.value.session.value.pending.value.phase == Rejected;
  }

  // ------------------------------------------------ finishing after a crash

  ghost predicate Finished(sys: System, m: Message) {
    && sys.app.Some? && sys.app.value.session.Some? && sys.app.value.session.value.pending.Some?
    && sys.app.value.session.value.pending.value.phase == Succeeded
    && MessageOf(sys.app.value.session.value.client, sys.app.value.session.value.pending.value.write) == m
  }

  /** Restart, log in as the owner, send again, have it delivered and answered. */
  function Resumption(sys: System, me: M.Actor, s: Stored, response: nat): seq<Event> {
    var client := Client(s.origin, s.actor, sys.clock);
    var m := MessageIn(s);
    var write := Write(client.session, s.operation, s.target, m.path, s.key, s.body);
    [Start, LoginSent(s.origin, s.actor), LoginAnswered(Login(client, sys.clock + 1), me),
     ExecuteSent(sys.clock + 1, sys.clock + 2, WriteIo(true, true, true, true, true, true), false),
     Deliver(m, Some(response)),
     ExecuteAnswered(Send(sys.clock + 1, sys.clock + 2, client, write), Done(response))]
  }

  lemma ResumeLogin(canon: Canonical, sys: System, me: M.Actor, s: Stored, response: nat) returns (later: System)
    requires sys.app.None? && sys.logins == {} && sys.sends == {} && Load(sys.disk) == Some(Some(s))
    requires Restorable(canon, s) && s.attempted && |s.body| <= MAX_BODY && me.id == s.actor
    ensures var events := Resumption(sys, me, s, response);
            && later == Step(canon, Step(canon, Step(canon, sys, events[0]), events[1]), events[2])
            && later.app.Some? && later.app.value.recovery == Some(s) && later.app.value.session.Some?
            && later.table == sys.table && later.wire == sys.wire && later.sends == {}
            && var session := later.app.value.session.value;
               && session.id == sys.clock + 1 && session.client == events[2].login.client
               && session.pending == Some(Pending(Receipt(sys.clock + 2, s.key, MessageIn(s).path), events[5].send.write, Unknown, None))
  {
    var events := Resumption(sys, me, s, response);
    var started := Step(canon, sys, events[0]);
    var asked := Step(canon, started, events[1]);
    assert asked.logins == {events[2].login};
    later := Step(canon, asked, events[2]);
  }

  lemma ResumeSend(canon: Canonical, sys: System, id: Uuid, request: Uuid, m: Message, response: nat) returns (later: System)
    requires sys.app.Some? && Sendable(sys.app.value, id, request) && sys.sends == {}
    requires sys.app.value.session.value.pending.value.write.session == sys.app.value.session.value.client.session
    requires m == MessageOf(sys.app.value.session.value.client, sys.app.value.session.value.pending.value.write)
    requires Recorded(sys.table, m, response) || ClaimOf(m) !in sys.table.rows
    ensures var client, write := sys.app.value.session.value.client, sys.app.value.session.value.pending.value.write;
            later == Step(canon, Step(canon, Step(canon, sys, ExecuteSent(id, request, WriteIo(true, true, true, true, true, true), false)),
                                      Deliver(m, Some(response))),
                          ExecuteAnswered(Send(id, request, client, write), Done(response)))
    ensures Finished(later, m)
  {
    var sent := Step(canon, sys, ExecuteSent(id, request, WriteIo(true, true, true, true, true, true), false));
    var served := Step(canon, sent, Deliver(m, Some(response)));
    assert Recorded(served.table, m, response);
    var client, write := sys.app.value.session.value.client, sys.app.value.session.value.pending.value.write;
    later := Step(canon, served, ExecuteAnswered(Send(id, request, client, write), Done(response)));
  }

  /** A record too long to restore keeps every session out for good. */
  ghost predicate Stuck(sys: System, s: Stored) {
    && Load(sys.disk) == Some(Some(s)) && |s.body| > MAX_BODY
    && (sys.app.Some? ==> sys.app.value.session.None? && sys.app.value.recovery == Some(s))
  }

  lemma {:induction false} StuckForGood(canon: Canonical, sys: System, s: Stored, more: seq<Event>)
    requires Stuck(sys, s)
    ensures Stuck(Run(canon, sys, more), s)
    decreases more
  {
    if more != [] {
      StuckForGood(canon, Step(canon, sys, more[0]), s, more[1..]);
    }
  }

  lemma RunThree(canon: Canonical, sys: System, e: seq<Event>)
    requires |e| == 3
    ensures Run(canon, sys, e) == Step(canon, Step(canon, Step(canon, sys, e[0]), e[1]), e[2])
  {
    hide Step;
    var first := Step(canon, sys, e[0]);
    var second := Step(canon, first, e[1]);
    assert e[1..][1..] == [e[2]] && [e[2]][1..] == [];
    assert Run(canon, first, e[1..]) == Run(canon, second, [e[2]]);
    assert Run(canon, second, [e[2]]) == Run(canon, Step(canon, second, e[2]), []);
  }

  lemma RunSix(canon: Canonical, sys: System, e: seq<Event>)
    requires |e| == 6
    ensures Run(canon, sys, e)
            == Step(canon, Step(canon, Step(canon, Step(canon, Step(canon, Step(canon, sys, e[0]), e[1]), e[2]), e[3]), e[4]), e[5])
  {
    hide Step;
    RunAppend(canon, sys, e[..3], e[3..]);
    assert e == e[..3] + e[3..];
    RunThree(canon, sys, e[..3]);
    RunThree(canon, Run(canon, sys, e[..3]), e[3..]);
  }

  lemma SentIsRestorable(canon: Canonical, sys: System, m: Message)
    requires Inv(canon, sys) && m in sys.wire && m.key !in sys.abandoned && Load(sys.disk).Some?
    ensures Load(sys.disk).value.Some?
    ensures var s := Load(sys.disk).value.value; s.attempted && MessageIn(s) == m && Restorable(canon, s)
  {
    hide ServerOk, AppOk, LoginsOk;
    var s := Load(sys.disk).value.value;
    assert s in Records(sys);
  }

  lemma CommittedIsRecorded(canon: Canonical, sys: System, m: Message)
    requires Inv(canon, sys) && m in sys.wire && ClaimOf(m) in sys.table.rows
    ensures exists v: nat :: Recorded(sys.table, m, v)
  {
    hide AppOk, LoginsOk;
    RowsRespond(sys);
    var i :| 0 <= i < |sys.effects| && ClaimOf(sys.effects[i]) == ClaimOf(m)
             && InputOf(sys.effects[i]) == sys.table.rows[ClaimOf(m)].input;
    assert sys.effects[i] in sys.wire && sys.effects[i].key == m.key;
    assert Recorded(sys.table, m, sys.table.rows[ClaimOf(m)].response.value);
  }

  /** A write interrupted after its send, on a disk that still loads, can be brought to
      success if and only if its stored body is within the size limit. */
  lemma InterruptedWriteCanFinish(canon: Canonical, sys: System, m: Message, me: M.Actor)
    requires Lawful(canon) && Reachable(canon, sys) && sys.app.None? && m in sys.wire && m.key !in sys.abandoned
    requires Load(sys.disk).Some? && me.id == m.actor
    ensures (exists more :: Finished(Run(canon, sys, more), m)) <==> |m.body| <= MAX_BODY
  {
    hide Lawful, Reachable, Inv, Step, Load;
    ReachableIsSound(canon, sys);
    NothingRuns(canon, sys);
    SentIsRestorable(canon, sys, m);
    var s := Load(sys.disk).value.value;
    if |m.body| <= MAX_BODY {
      var response: nat := 0;
      if ClaimOf(m) in sys.table.rows {
        CommittedIsRecorded(canon, sys, m);
        response :| Recorded(sys.table, m, response);
      }
      var events := Resumption(sys, me, s, response);
      var back := ResumeLogin(canon, sys, me, s, response);
      var last := ResumeSend(canon, back, sys.clock + 1, sys.clock + 2, m, response);
      RunSix(canon, sys, events);
      assert Finished(Run(canon, sys, events), m);
    } else {
      assert Stuck(sys, s);
      forall more ensures !Finished(Run(canon, sys, more), m) {
        StuckForGood(canon, sys, s, more);
      }
    }
  }

  lemma NothingRuns(canon: Canonical, sys: System)
    requires Inv(canon, sys) && sys.app.None?
    ensures sys.logins == {} && sys.sends == {}
  {
  }

  ghost predicate LoggedIn(sys: System) {
    sys.app.Some? && sys.app.value.session.Some?
  }

  lemma StuckIsLoggedOut(canon: Canonical, sys: System, s: Stored)
    requires Stuck(sys, s)
    ensures forall more :: !LoggedIn(Run(canon, sys, more))
  {
    hide Run, Load;
    forall more ensures !LoggedIn(Run(canon, sys, more)) {
      StuckForGood(canon, sys, s, more);
    }
  }

  /** The same bound decides over the whole client: after such an interruption any session at
      all can be opened again if and only if the stored body is within the size limit. */
  lemma InterruptedClientCanLogIn(canon: Canonical, sys: System, m: Message, me: M.Actor)
    requires Lawful(canon) && Reachable(canon, sys) && sys.app.None? && m in sys.wire && m.key !in sys.abandoned
    requires Load(sys.disk).Some? && me.id == m.actor
    ensures (exists more :: LoggedIn(Run(canon, sys, more))) <==> |m.body| <= MAX_BODY
  {
    hide Lawful, Reachable, Inv, Step, Load, Run;
    if |m.body| <= MAX_BODY {
      InterruptedWriteCanFinish(canon, sys, m, me);
      var more :| Finished(Run(canon, sys, more), m);
      assert LoggedIn(Run(canon, sys, more));
    } else {
      ReachableIsSound(canon, sys);
      SentIsRestorable(canon, sys, m);
      StuckIsLoggedOut(canon, sys, Load(sys.disk).value.value);
    }
  }

  /** A sent write, not given up, on a disk that loads, after which no continuation ever opens
      a session again. */
  ghost predicate LockedOut(canon: Canonical, sys: System, m: Message) {
    && sys.app.None? && m in sys.wire && m.key !in sys.abandoned && Load(sys.disk).Some? && |m.body| > MAX_BODY
    && forall more :: !LoggedIn(Run(canon, sys, more))
  }

  /** The case is real: a long `CreateAccount` body is sent, and the client dies. */
  lemma LockoutHappens()
    ensures exists sys, m :: Reachable(Explicit, sys) && LockedOut(Explicit, sys, m)
  {
    hide Reachable, Run, LoggedIn, Explicit, Lawful, LongBody;
    ExplicitIsLawful();
    LongBodyGrows();
    var client := Client("https://example.com", 7, 1);
    var sent, w := FirstSend(Explicit, CreateAccount, None, LongBody());
    var sys := Step(Explicit, sent, Crash);
    ReachableStep(Explicit, sent, Crash);
    var m := MessageOf(client, w);
    InterruptedClientCanLogIn(Explicit, sys, m, M.Actor(7, M.Admin, None));
    assert |m.body| > MAX_BODY;
    assert sys.app.None? && m in sys.wire && m.key !in sys.abandoned && Load(sys.disk).Some?;
    assert forall more :: !LoggedIn(Run(Explicit, sys, more));
    assert LockedOut(Explicit, sys, m);
  }
}

/** Every step of the client protocol keeps its invariant. */
module ProtocolSteps {
  import opened Wrappers
  import opened Bridge
  import opened Protocol
  import M = Model
  import I = Idempotency

  /** Steps that leave the disk, the recovery record, the wire and the servers alone. */
  ghost predicate SessionsOnly(sys: System, sys': System) {
    && sys.clock <= sys'.clock
    && sys' == sys.(clock := sys'.clock, app := sys'.app, logins := sys'.logins, sends := sys'.sends)
    && sys.app.Some? && sys'.app.Some? && sys'.app.value.recovery == sys.app.value.recovery
  }

  lemma StoreUnmoved(canon: Canonical, sys: System, sys': System)
    requires StoreOk(canon, sys) && SessionsOnly(sys, sys')
    ensures StoreOk(canon, sys')
  {
    assert Records(sys') == Records(sys);
  }

  /** The servers stand on the wire, which only grows. */
  lemma ServerUnmoved(sys: System, sys': System)
    requires ServerOk(sys) && sys'.table == sys.table && sys'.effects == sys.effects && sys.wire <= sys'.wire
    ensures ServerOk(sys')
  {
  }

  lemma DieKeepsStore(canon: Canonical, sys: System)
    requires StoreOk(canon, sys)
    ensures StoreOk(canon, Die(sys))
  {
    assert Records(Die(sys)) <= Records(sys);
  }

  lemma DieKeeps(canon: Canonical, sys: System)
    requires StoreOk(canon, sys) && ServerOk(sys) && 0 < sys.clock
    ensures Inv(canon, Die(sys))
  {
    hide StoreOk, ServerOk;
    DieKeepsStore(canon, sys);
    ServerUnmoved(sys, Die(sys));
  }

  lemma StartKeepsStore(canon: Canonical, sys: System)
    requires StoreOk(canon, sys) && sys.app.None?
    ensures StoreOk(canon, DoStart(sys))
  {
    assert Records(DoStart(sys)) == Records(sys);
  }

  lemma StartKeeps(canon: Canonical, sys: System)
    requires Inv(canon, sys)
    ensures Inv(canon, DoStart(sys))
  {
    hide StoreOk, ServerOk;
    if sys.app.None? {
      StartKeepsStore(canon, sys);
      ServerUnmoved(sys, DoStart(sys));
    }
  }

  lemma LoginSentKeeps(canon: Canonical, sys: System, origin: string, actor: ActorId)
    requires Inv(canon, sys) && sys.app.Some?
    ensures Inv(canon, DoLoginSent(sys, sys.app.value, origin, actor))
  {
    hide StoreOk, ServerOk;
    var sys' := DoLoginSent(sys, sys.app.value, origin, actor);
    StoreUnmoved(canon, sys, sys');
    ServerUnmoved(sys, sys');
  }

  lemma RecoveryRestorable(canon: Canonical, sys: System)
    requires StoreOk(canon, sys) && sys.app.Some? && sys.app.value.recovery.Some?
    ensures Restorable(canon, sys.app.value.recovery.value)
  {
    assert sys.app.value.recovery.value in Records(sys);
  }

  lemma LoginAnsweredKeeps(canon: Canonical, sys: System, login: Login, me: M.Actor)
    requires Inv(canon, sys) && sys.app.Some?
    ensures Inv(canon, DoLoginAnswered(canon, sys, sys.app.value, login, me))
  {
    hide StoreOk, ServerOk;
    var sys' := DoLoginAnswered(canon, sys, sys.app.value, login, me);
    StoreUnmoved(canon, sys, sys');
    ServerUnmoved(sys, sys');
    if sys.app.value.recovery.Some? {
      RecoveryRestorable(canon, sys);
    }
  }

  lemma LoggedOutKeeps(canon: Canonical, sys: System, id: Uuid)
    requires Inv(canon, sys) && sys.app.Some?
    ensures Inv(canon, DoLoggedOut(sys, sys.app.value, id))
  {
    hide StoreOk, ServerOk;
    var sys' := DoLoggedOut(sys, sys.app.value, id);
    StoreUnmoved(canon, sys, sys');
    ServerUnmoved(sys, sys');
  }

  lemma ExecuteAnsweredKeeps(canon: Canonical, sys: System, send: Send, reply: Reply)
    requires Inv(canon, sys) && sys.app.Some?
    ensures Inv(canon, DoExecuteAnswered(sys, sys.app.value, send, reply))
  {
    hide StoreOk, ServerOk;
    var sys' := DoExecuteAnswered(sys, sys.app.value, send, reply);
    StoreUnmoved(canon, sys, sys');
    ServerUnmoved(sys, sys');
  }

  // ------------------------------------------------------------- the servers

  lemma RowsHaveEffects(sys: System, m: Message, response: nat)
    requires ServerOk(sys) && m in sys.wire && ClaimOf(m) !in sys.table.rows
    ensures var rows, effects := sys.table.rows[ClaimOf(m) := I.Row(InputOf(m), Some(response))], sys.effects + [m];
            forall c :: c in rows ==>
              exists i :: 0 <= i < |effects| && ClaimOf(effects[i]) == c && InputOf(effects[i]) == rows[c].input
  {
    hide ClaimOf, InputOf;
    var rows, effects := sys.table.rows[ClaimOf(m) := I.Row(InputOf(m), Some(response))], sys.effects + [m];
    forall c | c in rows
      ensures exists i :: 0 <= i < |effects| && ClaimOf(effects[i]) == c && InputOf(effects[i]) == rows[c].input
    {
      if c == ClaimOf(m) {
        assert effects[|sys.effects|] == m;
      } else {
        var i :| 0 <= i < |sys.effects| && ClaimOf(sys.effects[i]) == c && InputOf(sys.effects[i]) == sys.table.rows[c].input;
        assert effects[i] == sys.effects[i];
      }
    }
  }

  lemma DeliverKeepsServer(sys: System, m: Message, outcome: Option<nat>)
    requires ServerOk(sys)
    ensures ServerOk(DoDeliver(sys, m, outcome))
  {
    hide ClaimOf, InputOf, I.Sound;
    I.HandleIsSound(sys.table, ClaimOf(m), InputOf(m), outcome);
    if m in sys.wire && ClaimOf(m) !in sys.table.rows && outcome.Some? {
      RowsHaveEffects(sys, m, outcome.value);
    } else {
      RespondedRows(sys, m);
    }
  }

  /** Without an open row there is nothing to commit. */
  lemma RespondedRows(sys: System, m: Message)
    requires ServerOk(sys)
    ensures ClaimOf(m) in sys.table.rows ==> sys.table.rows[ClaimOf(m)].response.Some?
  {
  }

  lemma DeliverKeepsStore(canon: Canonical, sys: System, m: Message, outcome: Option<nat>)
    requires StoreOk(canon, sys)
    ensures StoreOk(canon, DoDeliver(sys, m, outcome))
  {
    assert Records(DoDeliver(sys, m, outcome)) == Records(sys);
  }

  lemma DeliverKeeps(canon: Canonical, sys: System, m: Message, outcome: Option<nat>)
    requires Inv(canon, sys)
    ensures Inv(canon, DoDeliver(sys, m, outcome))
  {
    hide ServerOk, StoreOk;
    DeliverKeepsServer(sys, m, outcome);
    DeliverKeepsStore(canon, sys, m, outcome);
  }

  // ------------------------------------------------- prepare, execute, discard

  lemma EncodeIsCanonical(canon: Canonical, client: Client, op: Operation, target: Option<Uuid>, json: string, key: Uuid)
    requires Lawful(canon)
    ensures var w := PrepareWrite(canon, client, op, target, json, key);
            w.Some? ==>
              && w.value == Write(client.session, op, target, w.value.path, key, w.value.body)
              && Restorable(canon, StoredFor(client.origin, client.actor, w.value, false))
              && MessageIn(StoredFor(client.origin, client.actor, w.value, false)) == MessageOf(client, w.value)
  {
  }

  /** Storing a record under a key drawn just now. */
  lemma StoreNewRecord(canon: Canonical, sys: System, s: Stored, io: WriteIo)
    requires StoreOk(canon, sys) && sys.app.Some? && sys.app.value.recovery.None?
    requires Restorable(canon, s) && s.key == sys.clock
    ensures StoreOk(canon, sys.(clock := sys.clock + 2, disk := AfterWrite(sys.disk, s, io).0))
  {
    assert Records(sys.(clock := sys.clock + 2, disk := AfterWrite(sys.disk, s, io).0)) <= Records(sys) + {s};
  }

  lemma InstallKeepsStore(canon: Canonical, sys: System, sys': System, s: Stored)
    requires StoreOk(canon, sys) && sys.app.Some? && sys'.app.Some?
    requires sys.disk.main == Full(s)
    requires sys' == sys.(app := sys'.app) && sys'.app.value.recovery == Some(s)
    requires sys.app.value.recovery.None?
    ensures StoreOk(canon, sys')
  {
    assert Records(sys') == Records(sys);
  }

  lemma PrepareKeeps(canon: Canonical, sys: System, id: Uuid, op: Operation, target: Option<Uuid>, json: string, io: WriteIo, dies: bool)
    requires Lawful(canon) && Inv(canon, sys) && sys.app.Some?
    ensures Inv(canon, DoPrepare(canon, sys, sys.app.value, id, op, target, json, io, dies))
  {
    hide StoreOk, ServerOk, Lawful, PrepareWrite;
    var app := sys.app.value;
    var sys' := DoPrepare(canon, sys, app, id, op, target, json, io, dies);
    var prepared := Preparable(canon, app, id, op, target, json, sys.clock);
    if prepared.Some? {
      var client := app.session.value.client;
      EncodeIsCanonical(canon, client, op, target, json, sys.clock);
      var stored := StoredFor(client.origin, client.actor, prepared.value, false);
      var (disk, written) := AfterWrite(sys.disk, stored, io);
      var saved := sys.(clock := sys.clock + 2, disk := disk);
      StoreNewRecord(canon, sys, stored, io);
      ServerUnmoved(sys, saved);
      if dies {
        DieKeeps(canon, saved);
      } else if written {
        InstallKeepsStore(canon, saved, sys', stored);
        ServerUnmoved(saved, sys');
      }
    }
  }

  lemma AttemptIsHeld(canon: Canonical, sys: System, io: WriteIo)
    requires Durable(sys) && sys.app.Some? && sys.app.value.recovery.Some?
    ensures Durable(sys.(disk := AfterWrite(sys.disk, sys.app.value.recovery.value.(attempted := true), io).0))
  {
    hide MessageIn;
    SameMessage(sys.app.value.recovery.value);
  }

  lemma SameMessage(s: Stored)
    ensures MessageIn(s.(attempted := true)) == MessageIn(s)
  {
  }

  /** Rewriting the recovery record as attempted, however far it gets. */
  lemma StoreAttempt(canon: Canonical, sys: System, io: WriteIo)
    requires StoreOk(canon, sys) && sys.app.Some? && sys.app.value.recovery.Some?
    ensures StoreOk(canon, sys.(disk := AfterWrite(sys.disk, sys.app.value.recovery.value.(attempted := true), io).0))
  {
    hide Durable, MessageIn;
    var s := sys.app.value.recovery.value.(attempted := true);
    AttemptIsHeld(canon, sys, io);
    SameMessage(sys.app.value.recovery.value);
    assert Records(sys.(disk := AfterWrite(sys.disk, s, io).0)) <= Records(sys) + {s};
  }

  lemma SendKeepsStore(canon: Canonical, sys: System, sys': System, s: Stored, m: Message)
    requires StoreOk(canon, sys) && s in Records(sys) && s.attempted && m == MessageIn(s)
    requires sys.disk == Disk(Full(s), Absent) && sys'.disk == sys.disk && sys'.clock == sys.clock
    requires sys'.wire == sys.wire + {m} && sys'.abandoned == sys.abandoned - {s.key}
    requires sys'.app.Some? && sys'.app.value.recovery == Some(s)
    requires forall n :: n in sys.wire && n.key !in sys.abandoned ==> n == m
    ensures StoreOk(canon, sys')
  {
    assert Records(sys') == {s};
  }

  lemma ExecuteSentKeeps(canon: Canonical, sys: System, id: Uuid, request: Uuid, io: WriteIo, dies: bool)
    requires Inv(canon, sys) && sys.app.Some?
    ensures Inv(canon, DoExecuteSent(sys, sys.app.value, id, request, io, dies))
  {
    hide StoreOk, ServerOk;
    var app := sys.app.value;
    var sys' := DoExecuteSent(sys, app, id, request, io, dies);
    if Sendable(app, id, request) {
      var s := app.recovery.value.(attempted := true);
      var (disk, written) := AfterWrite(sys.disk, s, io);
      var saved := sys.(disk := disk);
      StoreAttempt(canon, sys, io);
      ServerUnmoved(sys, saved);
      if dies {
        DieKeeps(canon, saved);
      } else if written {
        HeldAlike(canon, sys);
        assert s in Records(saved);
        SendKeepsStore(canon, saved, sys', s, MessageIn(s));
        ServerUnmoved(saved, sys');
      }
    }
  }

  lemma HeldAlike(canon: Canonical, sys: System)
    requires StoreOk(canon, sys) && sys.app.Some? && sys.app.value.recovery.Some?
    ensures forall n :: n in sys.wire && n.key !in sys.abandoned ==> n == MessageIn(sys.app.value.recovery.value)
  {
  }

  /** Clearing the store under a key given up first. */
  lemma ClearKeepsStore(canon: Canonical, sys: System, io: ClearIo)
    requires StoreOk(canon, sys) && sys.app.Some? && sys.app.value.recovery.Some?
    ensures StoreOk(canon, sys.(disk := AfterClear(sys.disk, io).0, abandoned := sys.abandoned + {sys.app.value.recovery.value.key}))
  {
    assert Records(sys.(disk := AfterClear(sys.disk, io).0)) <= Records(sys);
  }

  lemma ForgetKeepsStore(canon: Canonical, sys: System, sys': System)
    requires StoreOk(canon, sys) && sys.app.Some? && sys.app.value.recovery.Some? && sys'.app.Some?
    requires sys' == sys.(app := sys'.app) && sys'.app.value.recovery.None? && sys.app.value.recovery.value.key in sys.abandoned
    ensures StoreOk(canon, sys')
  {
    assert Records(sys') <= Records(sys);
  }

  lemma DiscardKeeps(canon: Canonical, sys: System, id: Uuid, request: Uuid, io: ClearIo, dies: bool)
    requires Inv(canon, sys) && sys.app.Some?
    ensures Inv(canon, DoDiscard(sys, sys.app.value, id, request, io, dies))
  {
    hide StoreOk, ServerOk;
    var app := sys.app.value;
    var sys' := DoDiscard(sys, app, id, request, io, dies);
    if Discardable(app, id, request) {
      var (disk, cleared) := AfterClear(sys.disk, io);
      var saved := sys.(disk := disk, abandoned := sys.abandoned + {app.recovery.value.key});
      ClearKeepsStore(canon, sys, io);
      ServerUnmoved(sys, saved);
      if dies {
        DieKeeps(canon, saved);
      } else if cleared {
        ForgetKeepsStore(canon, saved, sys');
        ServerUnmoved(saved, sys');
      }
    }
  }

  lemma StepKeeps(canon: Canonical, sys: System, e: Event)
    requires Lawful(canon) && Inv(canon, sys)
    ensures Inv(canon, Step(canon, sys, e))
  {
    hide Inv, DoStart, DoDeliver, DoLoginSent, DoLoginAnswered, DoLoggedOut, DoPrepare, DoExecuteSent, DoExecuteAnswered, DoDiscard;
    match e
    case Start => StartKeeps(canon, sys);
    case Deliver(m, outcome) => DeliverKeeps(canon, sys, m, outcome);
    case Crash => CrashKeeps(canon, sys);
    case LoginSent(origin, actor) => if sys.app.Some? { LoginSentKeeps(canon, sys, origin, actor); }
    case LoginAnswered(login, me) => if sys.app.Some? { LoginAnsweredKeeps(canon, sys, login, me); }
    case LoggedOut(id) => if sys.app.Some? { LoggedOutKeeps(canon, sys, id); }
    case Prepare(id, op, target, json, io, dies) => if sys.app.Some? { PrepareKeeps(canon, sys, id, op, target, json, io, dies); }
    case ExecuteSent(id, request, io, dies) => if sys.app.Some? { ExecuteSentKeeps(canon, sys, id, request, io, dies); }
    case ExecuteAnswered(send, reply) => if sys.app.Some? { ExecuteAnsweredKeeps(canon, sys, send, reply); }
    case Discard(id, request, io, dies) => if sys.app.Some? { DiscardKeeps(canon, sys, id, request, io, dies); }
  }

  lemma CrashKeeps(canon: Canonical, sys: System)
    requires Inv(canon, sys)
    ensures Inv(canon, Die(sys))
  {
    DieKeeps(canon, sys);
  }
}

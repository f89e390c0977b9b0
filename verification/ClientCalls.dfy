/** When each call of the client is accepted, and what the answer of the network makes of a
    write (crates/commission-client/src/native.rs, crates/commission-client/src/lib.rs). */
module ClientCalls {
  import opened Wrappers
  import opened Bridge
  import opened Protocol
  import opened ProtocolSteps
  import opened ProtocolRuns
  import M = Model

  // --------------------------------------------------------------- the answer

  /** Whatever write is held: a success makes it Succeeded, a lost answer or a server error
      Unknown, anything else Rejected; Succeeded and Rejected cache the answer, and nothing
      else changes. */
  lemma AnswerSettles(app: App, id: Uuid, request: Uuid, reply: Reply)
    requires app.Holds(id, request)
    ensures EndSend(app, id, request, reply).Some?
    ensures var app' := EndSend(app, id, request, reply).value;
            && app'.Holds(id, request)
            && var p, p' := app.session.value.pending.value, app'.session.value.pending.value;
               && app' == app.WithPending(Some(p')) && p' == p.(phase := p'.phase, result := p'.result)
               && (p'.phase == Succeeded <==> reply.Done?)
               && (p'.phase == Unknown <==> reply.NoAnswer? || (reply.Api? && 500 <= reply.status <= 599))
               && (p'.phase == Rejected <==> reply.Invalid? || (reply.Api? && (reply.status < 500 || reply.status > 599)))
               && (p'.phase != Unknown ==> p'.result == Some(reply))
               && (p'.phase == Unknown ==> p'.result == p.result)
  {
  }

  const GOOD_IO := WriteIo(true, true, true, true, true, true)

  /** After a lost answer or a server error, in any reachable system, the write has no result,
      cannot be discarded, nothing else can be prepared or logged in over it, and sending it
      again puts the very same message on the wire. */
  lemma UnknownIsRetried(canon: Canonical, sys: System, send: Send, reply: Reply)
    requires Lawful(canon) && Reachable(canon, sys) && send in sys.sends && Answerable(sys, send, reply)
    requires reply.NoAnswer? || (reply.Api? && 500 <= reply.status <= 599)
    ensures var after := Step(canon, sys, ExecuteAnswered(send, reply));
            && after.app.Some? && after.app.value.Holds(send.session, send.request)
            && var session := after.app.value.session.value;
               && session.client == send.client && session.pending.value.write == send.write
               && session.pending.value.result == None
               && !Discardable(after.app.value, send.session, send.request)
               && (forall id, op, target, json, key :: Preparable(canon, after.app.value, id, op, target, json, key) == None)
               && (forall id, generation :: Logout(after.app.value, id, generation) == None)
               && (forall client, generation :: LoginBegin(after.app.value, client, generation) == None)
               && Sendable(after.app.value, send.session, send.request)
               && var again := Step(canon, after, ExecuteSent(send.session, send.request, GOOD_IO, false));
                  again.sends == {send} && MessageOf(send.client, send.write) in again.wire && again.wire == sys.wire
  {
    hide StoreOk, ServerOk, LoginsOk, Lawful, Reachable;
    ReachableIsSound(canon, sys);
    var app := sys.app.value;
    AnswerSettles(app, send.session, send.request, reply);
    var after := Step(canon, sys, ExecuteAnswered(send, reply));
    assert after.sends == {};
    WriteSucceeds(sys.disk, app.recovery.value.(attempted := true));
  }

  lemma WriteSucceeds(disk: Disk, s: Stored)
    ensures AfterWrite(disk, s, GOOD_IO) == (Disk(Full(s), Absent), true)
  {
  }

  /** After any other answer the write is settled: sending it again is not possible, and only
      now it can be discarded. */
  lemma SettledIsDiscardable(canon: Canonical, sys: System, send: Send, reply: Reply)
    requires Lawful(canon) && Reachable(canon, sys) && send in sys.sends && Answerable(sys, send, reply)
    requires !(reply.NoAnswer? || (reply.Api? && 500 <= reply.status <= 599))
    ensures sys.app.Some? && !Discardable(sys.app.value, send.session, send.request)
    ensures var after := Step(canon, sys, ExecuteAnswered(send, reply));
            && after.app.Some? && after.app.value.Holds(send.session, send.request)
            && after.app.value.session.value.pending.value.result == Some(reply)
            && !Sendable(after.app.value, send.session, send.request)
            && Discardable(after.app.value, send.session, send.request)
  {
    hide StoreOk, ServerOk, LoginsOk, Lawful, Reachable;
    ReachableIsSound(canon, sys);
    AnswerSettles(sys.app.value, send.session, send.request, reply);
  }

  // ------------------------------------------------------- which calls are taken

  /** In a reachable system a write is prepared exactly for the session in place, while it has
      no other write, for an operation its actor's role allows, with a target where the
      operation needs one, and a body that decodes and is not too long. */
  lemma PrepareAccepts(canon: Canonical, sys: System, id: Uuid, op: Operation, target: Option<Uuid>, json: string, key: Uuid)
    requires Lawful(canon) && Reachable(canon, sys) && sys.app.Some? && sys.app.value.session.Some?
    ensures var session := sys.app.value.session.value;
            var w := Preparable(canon, sys.app.value, id, op, target, json, key);
            && (w.Some? <==>
                  && session.id == id && session.pending == None && op.Allowed(session.actor)
                  && |json| <= 60 * 1024 && canon(op, json).Some? && (op.NeedsId() ==> target.Some?))
            && (w.Some? ==>
                  && w.value.session == session.client.session && w.value.operation == op && w.value.target == target && w.value.key == key
                  && w.value.path == Path(op.Resource(), if op.NeedsId() then target else None, op.Action())
                  && Some(w.value.body) == canon(op, json))
  {
    hide StoreOk, ServerOk, LoginsOk, Operation.Allowed, Operation.Resource, Operation.Action, Operation.NeedsId, Reachable;
    ReachableIsSound(canon, sys);
  }

  /** Once its record is written, a prepared write is pending under its receipt, is on disk
      marked not attempted, and is what a restart finds; if the record is not written nothing
      is pending. */
  lemma PrepareStores(canon: Canonical, sys: System, id: Uuid, op: Operation, target: Option<Uuid>, json: string, io: WriteIo)
    requires sys.app.Some? && Preparable(canon, sys.app.value, id, op, target, json, sys.clock).Some?
    ensures var w := Preparable(canon, sys.app.value, id, op, target, json, sys.clock).value;
            var session := sys.app.value.session.value;
            var stored := Stored(1, session.client.origin, session.actor.id, false, op, target, w.key, w.body);
            var after := Step(canon, sys, Event.Prepare(id, op, target, json, io, false));
            && after.app.Some? && after.wire == sys.wire && after.sends == sys.sends
            && (if AfterWrite(sys.disk, stored, io).1 then
                  && Load(after.disk) == Some(Some(stored)) && after.app.value.recovery == Some(stored)
                  && after.app.value.session == Some(session.(pending := Some(Pending(Receipt(sys.clock + 1, w.key, w.path), w, WritePhase.Prepared, None))))
                else after.app == sys.app)
  {
    hide Operation.Allowed, Operation.Resource, Operation.Action, Operation.NeedsId;
  }

  /** A login may begin exactly without a pending write, and at the server of the stored
      write, if there is one. */
  lemma LoginBegins(app: App, client: Client, generation: Uuid)
    ensures var r := LoginBegin(app, client, generation);
            && (r.Some? <==>
                  && (app.session.Some? ==> app.session.value.pending == None)
                  && (app.recovery.Some? ==> app.recovery.value.origin == client.origin))
            && (r.Some? ==> r.value == App(generation, None, app.recovery))
  {
  }

  /** In a reachable system the answer to a login is taken exactly if no other login or logout
      came after it and the stored write, if there is one, is of this actor and not too long to
      be restored; that write is then pending again, Unknown if it was ever sent and Prepared
      if not, without a result. */
  lemma LoginEnds(canon: Canonical, sys: System, login: Login, me: M.Actor, receipt: Uuid)
    requires Lawful(canon) && Reachable(canon, sys) && sys.app.Some?
    ensures var app := sys.app.value;
            var r := LoginEnd(canon, app, login.client, login.generation, me, receipt);
            && (r.Some? <==>
                  && app.generation == login.generation
                  && (app.recovery.Some? ==> app.recovery.value.actor == me.id && |app.recovery.value.body| <= 60 * 1024))
            && (r.Some? ==>
                  && r.value.generation == app.generation && r.value.recovery == app.recovery && r.value.session.Some?
                  && var session := r.value.session.value;
                     && session.id == login.generation && session.client == login.client && session.actor == me
                     && (app.recovery.None? ==> session.pending == None)
                     && (app.recovery.Some? ==>
                           && session.pending.Some?
                           && var s, p := app.recovery.value, session.pending.value;
                              && p.write.operation == s.operation && p.write.target == s.target
                              && p.write.key == s.key && p.write.body == s.body && p.write.session == login.client.session
                              && p.write.path == MessageIn(s).path && p.receipt == Receipt(receipt, s.key, p.write.path)
                              && p.phase == (if s.attempted then Unknown else WritePhase.Prepared) && p.result == None))
  {
    hide ServerOk, LoginsOk, AppOk, Agree, Unattempted, Durable, Reachable, Operation.Resource, Operation.Action, Operation.NeedsId;
    ReachableIsSound(canon, sys);
    if sys.app.value.recovery.Some? {
      assert sys.app.value.recovery.value in Records(sys);
    }
  }

  /** A session can be left exactly without a pending write. */
  lemma LogsOut(app: App, id: Uuid, generation: Uuid)
    ensures var r := Logout(app, id, generation);
            && (r.Some? <==> app.session.Some? && app.session.value.id == id && app.session.value.pending == None)
            && (r.Some? ==> r.value == App(generation, None, app.recovery))
  {
  }

  /** In a reachable system a pending write can be discarded exactly if it was never sent or
      is settled, and it can be sent exactly otherwise, unless it is being sent. */
  lemma DiscardOrSend(canon: Canonical, sys: System, id: Uuid, request: Uuid)
    requires Lawful(canon) && Reachable(canon, sys) && sys.app.Some? && sys.app.value.Holds(id, request)
    ensures var phase := sys.app.value.session.value.pending.value.phase;
            && phase in {WritePhase.Prepared, Sending, Unknown, Succeeded, Rejected}
            && (Discardable(sys.app.value, id, request) <==> phase in {WritePhase.Prepared, Succeeded, Rejected})
            && (Sendable(sys.app.value, id, request) <==> phase in {WritePhase.Prepared, Unknown})
  {
    hide StoreOk, ServerOk, LoginsOk, Reachable;
    ReachableIsSound(canon, sys);
  }

  // ------------------------------------------------------------- the file store

  /** `write_store` succeeds exactly if the record was written and synced and could be put in
      place, by one rename or by removing the old file first. */
  lemma WriteStoreSucceedsIff(disk: Disk, s: Stored, io: WriteIo)
    ensures var (disk', ok) := AfterWrite(disk, s, io);
            && (ok <==> io.open && io.write && io.sync && (io.rename || (io.remove && io.replace)))
            && (ok && s.version == STORE_VERSION ==> Load(disk') == Some(Some(s)) && disk'.next == Absent)
  {
  }

  /** However a write ends: where a main file stands, a restart finds the old record until the
      synced new one has replaced it or the old file was removed for it, and the new record from
      then on; where none stands, it finds the new record once all bytes are written, and an
      error while only some are. A write that could not begin leaves the disk alone. */
  lemma WriteStoreLosesNothing(disk: Disk, s: Stored, io: WriteIo)
    requires s.version == STORE_VERSION && (disk.main.Absent? || Decode(disk.main).Some?)
    ensures var (disk', ok) := AfterWrite(disk, s, io);
            && (!io.open ==> disk' == disk)
            && (io.open && disk.main.Full? ==>
                  Load(disk') == if io.write && io.sync && (io.rename || io.remove) then Some(Some(s)) else Load(disk))
            && (io.open && disk.main.Absent? ==> Load(disk') == if io.write then Some(Some(s)) else None)
            && (disk'.main.Absent? || Decode(disk'.main).Some?)
  {
  }

  /** Clearing succeeds exactly if both files went; otherwise the main file goes first, so that
      what is left is a record that a restart finds. */
  lemma ClearStoreSucceedsIff(disk: Disk, io: ClearIo)
    ensures var (disk', ok) := AfterClear(disk, io);
            && (ok <==> io.main && io.next)
            && (ok ==> Load(disk') == Some(None))
            && (!ok ==> disk'.next == disk.next && disk'.main == (if io.main then Absent else disk.main))
  {
  }
}

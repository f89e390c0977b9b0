/** The client, its disk, the network and the servers as one transition system: every way
    logins, prepares, sends, answers, discards and crashes can interleave. */
module Protocol {
  import opened Wrappers
  import opened Bridge
  import M = Model
  import I = Idempotency

  /** What a send puts on the wire. */
  datatype Message = Message(origin: string, actor: ActorId, path: Path, key: Uuid, body: string)

  /** A `login` whose `me()` call is in flight. */
  datatype Login = Login(client: Client, generation: Uuid)

  /** An `execute` whose network call is in flight. */
  datatype Send = Send(session: Uuid, request: Uuid, client: Client, write: Write)

  /** A key as one server sees it: every origin has a database of its own. */
  datatype Mark = Mark(origin: string, key: Uuid)

  type Table = I.Table<Mark, (Option<Uuid>, string), nat>

  /** `clock` counts the UUIDs drawn so far. `wire` keeps every message sent, so a message
      can be delivered late and any number of times. `effects` lists the committed messages
      in order. `abandoned` holds the keys whose discard began after their last send. */
  datatype System = System(clock: Uuid, app: Option<App>, disk: Disk, logins: set<Login>, sends: set<Send>,
                           wire: set<Message>, table: Table, effects: seq<Message>, abandoned: set<Uuid>)

  const INIT := System(1, None, Disk(Absent, Absent), {}, {}, {}, I.Table(map[], [], []), [], {})

  datatype Event =
    | Start
    | Crash
    | LoginSent(origin: string, actor: ActorId)
    | LoginAnswered(login: Login, me: M.Actor)
    | LoggedOut(id: Uuid)
    | Prepare(id: Uuid, operation: Operation, target: Option<Uuid>, json: string, write: WriteIo, dies: bool)
    | ExecuteSent(id: Uuid, request: Uuid, write: WriteIo, dies: bool)
    | Deliver(message: Message, outcome: Option<nat>)
    | ExecuteAnswered(send: Send, reply: Reply)
    | Discard(id: Uuid, request: Uuid, clear: ClearIo, dies: bool)

  function MessageOf(client: Client, w: Write): Message {
    Message(client.origin, client.actor, w.path, w.key, w.body)
  }

  function ClaimOf(m: Message): I.Claim<Mark> {
    I.Claim(m.actor, m.path.resource + "/" + m.path.action, Mark(m.origin, m.key))
  }

  /** What the server fingerprints: the target and the decoded request. */
  function InputOf(m: Message): (Option<Uuid>, string) {
    (m.path.target, m.body)
  }

  /** The server holds this response for exactly this request. */
  predicate Recorded(t: Table, m: Message, response: nat) {
    ClaimOf(m) in t.rows && t.rows[ClaimOf(m)] == I.Row(InputOf(m), Some(response))
  }

  /** The replies `ApiClient::execute` may give: a success is always a recorded response. */
  predicate Answerable(sys: System, send: Send, reply: Reply) {
    if send.write.session != send.client.session then reply == Invalid
    else !reply.Invalid? && (reply.Done? ==> Recorded(sys.table, MessageOf(send.client, send.write), reply.value))
  }

  /** The process ends: its memory is gone; the disk, the wire and the servers stay. */
  function Die(sys: System): System {
    sys.(app := None, logins := {}, sends := {})
  }

  function DoStart(sys: System): System {
    if sys.app.Some? || Load(sys.disk).None? then sys
    else sys.(app := Some(App(NIL, None, Load(sys.disk).value)))
  }

  function DoLoginSent(sys: System, app: App, origin: string, actor: ActorId): System {
    var client := Client(origin, actor, sys.clock);
    match LoginBegin(app, client, sys.clock + 1)
    case None => sys.(clock := sys.clock + 2)
    case Some(app') =>
      sys.(clock := sys.clock + 2, app := Some(app'), logins := sys.logins + {Login(client, sys.clock + 1)})
  }

  /** `me()` answers with the actor the token stands for. */
  function DoLoginAnswered(canon: Canonical, sys: System, app: App, login: Login, me: M.Actor): System {
    if login !in sys.logins || me.id != login.client.actor then sys
    else
      var sys' := sys.(clock := sys.clock + 1, logins := sys.logins - {login});
      match LoginEnd(canon, app, login.client, login.generation, me, sys.clock)
      case None => sys'
      case Some(app') => sys'.(app := Some(app'))
  }

  function DoLoggedOut(sys: System, app: App, id: Uuid): System {
    match Logout(app, id, sys.clock)
    case None => sys
    case Some(app') => sys.(clock := sys.clock + 1, app := Some(app'))
  }

  function DoPrepare(canon: Canonical, sys: System, app: App, id: Uuid, op: Operation, target: Option<Uuid>, json: string,
                     io: WriteIo, dies: bool): System {
    match Preparable(canon, app, id, op, target, json, sys.clock)
    case None => sys
    case Some(w) =>
      var stored := StoredFor(app.session.value.client.origin, app.session.value.actor.id, w, false);
      var (disk, written) := AfterWrite(sys.disk, stored, io);
      var sys' := sys.(clock := sys.clock + 2, disk := disk);
      if dies then Die(sys')
      else if written then sys'.(app := Some(Install(app, w, sys.clock + 1)))
      else sys'
  }

  function DoExecuteSent(sys: System, app: App, id: Uuid, request: Uuid, io: WriteIo, dies: bool): System {
    if !Sendable(app, id, request) then sys
    else
      var (disk, written) := AfterWrite(sys.disk, app.recovery.value.(attempted := true), io);
      if dies then Die(sys.(disk := disk))
      else if !written then sys.(disk := disk)
      else
        var client, w := app.session.value.client, app.session.value.pending.value.write;
        sys.(app := Some(BeginSend(app)), disk := disk, sends := sys.sends + {Send(id, request, client, w)},
             wire := if w.session == client.session then sys.wire + {MessageOf(client, w)} else sys.wire,
             abandoned := sys.abandoned - {w.key})
  }

  function DoDeliver(sys: System, m: Message, outcome: Option<nat>): System {
    if m !in sys.wire then sys
    else
      var (table, answer) := I.Handle(sys.table, ClaimOf(m), InputOf(m), outcome);
      sys.(table := table, effects := if answer.Completed? then sys.effects + [m] else sys.effects)
  }

  function DoExecuteAnswered(sys: System, app: App, send: Send, reply: Reply): System {
    if send !in sys.sends || !Answerable(sys, send, reply) then sys
    else
      var sys' := sys.(sends := sys.sends - {send});
      match EndSend(app, send.session, send.request, reply)
      case None => sys'
      case Some(app') => sys'.(app := Some(app'))
  }

  function DoDiscard(sys: System, app: App, id: Uuid, request: Uuid, io: ClearIo, dies: bool): System {
    if !Discardable(app, id, request) then sys
    else
      var (disk, cleared) := AfterClear(sys.disk, io);
      var sys' := sys.(disk := disk, abandoned := sys.abandoned + {app.session.value.pending.value.write.key});
      if dies then Die(sys')
      else if cleared then sys'.(app := Some(Discarded(app)))
      else sys'
  }

  function Step(canon: Canonical, sys: System, e: Event): System {
    if e.Start? then DoStart(sys)
    else if e.Deliver? then DoDeliver(sys, e.message, e.outcome)
    else if sys.app.None? then sys
    else
      var app := sys.app.value;
      match e
      case Crash => Die(sys)
      case LoginSent(origin, actor) => DoLoginSent(sys, app, origin, actor)
      case LoginAnswered(login, me) => DoLoginAnswered(canon, sys, app, login, me)
      case LoggedOut(id) => DoLoggedOut(sys, app, id)
      case Prepare(id, op, target, json, io, dies) => DoPrepare(canon, sys, app, id, op, target, json, io, dies)
      case ExecuteSent(id, request, io, dies) => DoExecuteSent(sys, app, id, request, io, dies)
      case ExecuteAnswered(send, reply) => DoExecuteAnswered(sys, app, send, reply)
      case Discard(id, request, io, dies) => DoDiscard(sys, app, id, request, io, dies)
      case _ => sys
  }

  function Run(canon: Canonical, sys: System, events: seq<Event>): System
    decreases events
  {
    if events == [] then sys else Run(canon, Step(canon, sys, events[0]), events[1..])
  }

  // -------------------------------------------------------------- invariants

  /** The request a stored record stands for. */
  function MessageIn(s: Stored): Message {
    var target := if s.operation.NeedsId() then s.target else None;
    Message(s.origin, s.actor, Path(s.operation.Resource(), target, s.operation.Action()), s.key, s.body)
  }

  function InFile(f: File): set<Stored> {
    if f.Full? then {f.record} else {}
  }

  /** The records on disk and in memory. */
  function Records(sys: System): set<Stored> {
    InFile(sys.disk.main) + InFile(sys.disk.next)
    + (if sys.app.Some? && sys.app.value.recovery.Some? then {sys.app.value.recovery.value} else {})
  }

  /** Whether the key occurs anywhere: on the wire, on disk or in memory. */
  ghost predicate Occurs(sys: System, key: Uuid) {
    (exists m :: m in sys.wire && m.key == key) || (exists s :: s in Records(sys) && s.key == key)
  }

  predicate Restorable(canon: Canonical, s: Stored) {
    && s.version == STORE_VERSION
    && (s.operation.NeedsId() ==> s.target.Some?)
    && canon(s.operation, s.body) == Some(s.body)
  }

  ghost predicate RecordsOk(canon: Canonical, sys: System) {
    && sys.disk.main != Torn
    && (forall s :: s in Records(sys) ==> Restorable(canon, s) && s.key < sys.clock)
    && (forall m :: m in sys.wire ==> m.key < sys.clock)
  }

  /** One key, one request: in every record and on the wire. */
  ghost predicate Agree(sys: System) {
    && (forall s, t :: s in Records(sys) && t in Records(sys) && s.key == t.key ==> MessageIn(s) == MessageIn(t))
    && (forall s, m :: s in Records(sys) && m in sys.wire && s.key == m.key ==> MessageIn(s) == m)
    && (forall m, n :: m in sys.wire && n in sys.wire && m.key == n.key ==> m == n)
  }

  /** A record not marked attempted was never sent. */
  ghost predicate Unattempted(sys: System) {
    forall s, m :: s in Records(sys) && m in sys.wire && !s.attempted ==> m.key != s.key
  }

  predicate Keeps(s: Stored, m: Message) {
    s.attempted && MessageIn(s) == m
  }

  /** Whatever `load_store` finds is this request, marked attempted, or an error. */
  predicate HeldBy(disk: Disk, m: Message) {
    && (disk.main.Full? ==> Keeps(disk.main.record, m))
    && (disk.next.Full? ==> Keeps(disk.next.record, m))
    && (disk.main.Absent? ==> !disk.next.Absent?)
  }

  ghost predicate Durable(sys: System) {
    forall m :: m in sys.wire && m.key !in sys.abandoned ==>
      && HeldBy(sys.disk, m)
      && (sys.app.Some? ==> sys.app.value.recovery.Some? && Keeps(sys.app.value.recovery.value, m))
  }

  /** The pending write is the recovery record, and its phase says what happened to it. */
  predicate PendingOk(sys: System, session: Session, p: Pending, r: Stored) {
    && p.receipt.key == p.write.key && p.receipt.path == p.write.path
    && p.write.session == session.client.session
    && p.write.operation == r.operation && p.write.target == r.target
    && MessageOf(session.client, p.write) == MessageIn(r)
    && p.phase in {WritePhase.Prepared, Sending, Unknown, Succeeded, Rejected}
    && (p.phase == WritePhase.Prepared <==> !r.attempted)
    && (p.result.Some? <==> p.phase in {Succeeded, Rejected})
    && (p.phase in {Sending, Succeeded, Rejected} ==> MessageIn(r) in sys.wire)
    && (p.phase == Succeeded ==> p.result.value.Done? && Recorded(sys.table, MessageIn(r), p.result.value.value))
    && (p.phase == Rejected ==> !p.result.value.Done? && !p.result.value.OutcomeUnknown())
  }

  predicate SessionOk(sys: System, app: App, session: Session) {
    && session.id == app.generation
    && session.client.actor == session.actor.id
    && (session.pending.Some? <==> app.recovery.Some?)
    && (session.pending.Some? ==> PendingOk(sys, session, session.pending.value, app.recovery.value))
  }

  /** The one send that can be in flight. */
  function InFlight(app: Option<App>): set<Send> {
    if app.Some? && app.value.session.Some? && app.value.session.value.pending.Some?
       && app.value.session.value.pending.value.phase == Sending
    then {Send(app.value.session.value.id, app.value.session.value.pending.value.receipt.id,
               app.value.session.value.client, app.value.session.value.pending.value.write)}
    else {}
  }

  ghost predicate LoginsOk(sys: System) {
    && (forall l :: l in sys.logins ==> l.generation < sys.clock)
    && (forall l, k :: l in sys.logins && k in sys.logins && l.generation == k.generation ==> l == k)
    && (sys.app.None? ==> sys.logins == {})
    && (sys.app.Some? ==>
          forall l :: l in sys.logins && l.generation == sys.app.value.generation ==>
            && sys.app.value.session.None?
            && (sys.app.value.recovery.Some? ==> sys.app.value.recovery.value.origin == l.client.origin))
  }

  ghost predicate AppOk(sys: System) {
    && 0 < sys.clock
    && sys.sends == InFlight(sys.app)
    && (sys.app.Some? ==> sys.app.value.generation < sys.clock)
    && (sys.app.Some? && sys.app.value.session.Some? ==> SessionOk(sys, sys.app.value, sys.app.value.session.value))
  }

  ghost predicate ServerOk(sys: System) {
    && I.Sound(sys.table)
    && (forall i :: 0 <= i < |sys.effects| ==> sys.effects[i] in sys.wire && ClaimOf(sys.effects[i]) in sys.table.rows)
    && (forall i, j :: 0 <= i < j < |sys.effects| ==> ClaimOf(sys.effects[i]) != ClaimOf(sys.effects[j]))
    && (forall c :: c in sys.table.rows ==>
          exists i :: 0 <= i < |sys.effects| && ClaimOf(sys.effects[i]) == c && InputOf(sys.effects[i]) == sys.table.rows[c].input)
  }

  ghost predicate StoreOk(canon: Canonical, sys: System) {
    RecordsOk(canon, sys) && Agree(sys) && Unattempted(sys) && Durable(sys)
  }

  ghost predicate Inv(canon: Canonical, sys: System) {
    StoreOk(canon, sys) && LoginsOk(sys) && AppOk(sys) && ServerOk(sys)
  }
}

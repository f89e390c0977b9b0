/** The native bridge of crates/commission-client: the single pending write, its two-file
    store, and the transitions of its locked state (native.rs, bridge.rs, lib.rs). */
module Bridge {
  import opened Wrappers
  import M = Model

  type Uuid = nat
  type ActorId = nat

  const NIL: Uuid := 0
  const STORE_VERSION: nat := 1
  const MAX_BODY: nat := 60 * 1024

  datatype WritePhase = Editing | Preparing | Prepared | Sending | Unknown | Succeeded | Rejected {
    predicate MaySend() { this in {Prepared, Unknown} }
    predicate Unresolved() { this in {Preparing, Sending, Unknown} }
    predicate MayEdit() { !Unresolved() }
  }

  // -------------------------------------------------------------- operations

  datatype Operation =
    | CreateAccount | BindReferral | CreateRule | DisableRule | CaptureOrder | Refund | Release | RequestPayout
    | ApprovePayout | ProcessPayout | RejectPayout | PayoutOutcome | CreateCredential | RevokeCredential
  {
    predicate NeedsId() {
      this in {DisableRule, Refund, Release, ApprovePayout, ProcessPayout, RejectPayout, PayoutOutcome, RevokeCredential}
    }

    predicate Allowed(actor: M.Actor) {
      match this
      case CreateAccount | CreateRule | DisableRule => actor.Has({M.Operator})
      case BindReferral | CaptureOrder | Refund => actor.Has({M.Operator, M.Integrator})
      case RequestPayout => actor.Has({M.Operator, M.Member})
      case Release => actor.Has({M.Operator, M.Finance})
      case ApprovePayout | ProcessPayout | RejectPayout | PayoutOutcome => actor.Has({M.Finance})
      case CreateCredential | RevokeCredential => actor.Has({})
    }

    function Resource(): string {
      match this
      case CreateAccount => "accounts"
      case BindReferral => "referrals"
      case CreateRule | DisableRule => "rules"
      case CaptureOrder | Refund | Release => "orders"
      case RequestPayout | ApprovePayout | ProcessPayout | RejectPayout | PayoutOutcome => "payouts"
      case CreateCredential | RevokeCredential => "credentials"
    }

    function Action(): string {
      match this
      case DisableRule => "disable"
      case Refund => "refunds"
      case Release => "release"
      case ApprovePayout => "approve"
      case ProcessPayout => "processing"
      case RejectPayout => "reject"
      case PayoutOutcome => "outcome"
      case RevokeCredential => "revoke"
      case _ => ""
    }
  }

  /** Every operation has a route of its own, with a target exactly where it has an action. */
  lemma RoutesAreDistinct(op: Operation, other: Operation)
    ensures op.Resource() == other.Resource() && op.Action() == other.Action() ==> op == other
    ensures op.NeedsId() <==> op.Action() != ""
  {
  }

  /** `resource` or `resource/{id}/action`. */
  datatype Path = Path(resource: string, target: Option<Uuid>, action: string)

  /** Decoding a body as the operation's typed request and printing it again; None when the
      JSON does not decode. */
  type Canonical = (Operation, string) -> Option<string>

  /** Printing a decoded request gives a body that decodes to the same request. */
  ghost predicate Lawful(canon: Canonical) {
    forall op, s :: canon(op, s).Some? ==> canon(op, canon(op, s).value) == canon(op, s)
  }

  /** `Operation::encode`. */
  function Encode(canon: Canonical, op: Operation, target: Option<Uuid>, json: string): Option<(Path, string)> {
    if op.NeedsId() && target.None? then None
    else if canon(op, json).None? then None
    else Some((Path(op.Resource(), if op.NeedsId() then target else None, op.Action()), canon(op, json).value))
  }

  datatype Client = Client(origin: string, actor: ActorId, session: Uuid)

  datatype Write = Write(session: Uuid, operation: Operation, target: Option<Uuid>, path: Path, key: Uuid, body: string)

  /** `PersistedWrite` with the owner it was stored for. */
  datatype Stored = Stored(version: nat, origin: string, actor: ActorId, attempted: bool,
                           operation: Operation, target: Option<Uuid>, key: Uuid, body: string)

  /** `ApiClient::prepare`. */
  function PrepareWrite(canon: Canonical, client: Client, op: Operation, target: Option<Uuid>, json: string, key: Uuid): Option<Write> {
    if |json| > MAX_BODY then None
    else
      match Encode(canon, op, target, json)
      case None => None
      case Some((path, body)) => Some(Write(client.session, op, target, path, key, body))
  }

  /** `ApiClient::restore`. */
  function RestoreWrite(canon: Canonical, client: Client, s: Stored): Option<Write> {
    if |s.body| > MAX_BODY then None
    else
      match Encode(canon, s.operation, s.target, s.body)
      case None => None
      case Some((path, body)) => Some(Write(client.session, s.operation, s.target, path, s.key, body))
  }

  function StoredFor(origin: string, actor: ActorId, w: Write, attempted: bool): Stored {
    Stored(STORE_VERSION, origin, actor, attempted, w.operation, w.target, w.key, w.body)
  }

  /** Exporting a prepared write and restoring it under a new session gives the same path,
      key and body, except that a body the canonical form blew up past the size limit can no
      longer be restored. */
  lemma RestoreIsFaithful(canon: Canonical, client: Client, client': Client, op: Operation, target: Option<Uuid>,
                          json: string, key: Uuid, attempted: bool)
    requires Lawful(canon) && PrepareWrite(canon, client, op, target, json, key).Some?
    ensures var w := PrepareWrite(canon, client, op, target, json, key).value;
            RestoreWrite(canon, client', StoredFor(client.origin, client.actor, w, attempted))
            == if |w.body| <= MAX_BODY then Some(w.(session := client'.session)) else None
  {
  }

  const PARENT_FIELD := "\"parent_id\""
  const NULL_PARENT := ",\"parent_id\":null}"

  predicate Mentions(s: string) {
    |s| >= |PARENT_FIELD| && (s[..|PARENT_FIELD|] == PARENT_FIELD || Mentions(s[1..]))
  }

  /** What the typed request does to the text of a `CreateAccount` body: a `parent_id` left
      out is printed as null. Other bodies are taken to be canonical already. */
  function Explicit(op: Operation, s: string): Option<string> {
    if op != CreateAccount || Mentions(s) then Some(s)
    else if s == "" || s[|s| - 1] != '}' then None
    else Some(s[..|s| - 1] + NULL_PARENT)
  }

  lemma {:induction false} MentionedAtEnd(a: string, b: string)
    requires Mentions(b)
    ensures Mentions(a + b)
  {
    if a == "" {
      assert a + b == b;
    } else {
      assert (a + b)[1..] == a[1..] + b;
      MentionedAtEnd(a[1..], b);
    }
  }

  lemma {:induction false} NotMentioned(s: string)
    requires 'p' !in s
    ensures !Mentions(s)
  {
    if |s| >= |PARENT_FIELD| {
      assert s[..|PARENT_FIELD|][1] == s[1] && s[1] in s;
      NotMentioned(s[1..]);
    }
  }

  lemma ExplicitIsLawful()
    ensures Lawful(Explicit)
  {
    assert NULL_PARENT[1..][..|PARENT_FIELD|] == PARENT_FIELD;
    assert Mentions(NULL_PARENT);
    forall op, s | Explicit(op, s).Some?
      ensures Explicit(op, Explicit(op, s).value) == Explicit(op, s)
    {
      if op == CreateAccount && !Mentions(s) {
        MentionedAtEnd(s[..|s| - 1], NULL_PARENT);
      }
    }
  }

  const BODY_HEAD := "{\"external_id\":\""
  const BODY_TAIL := "\",\"name\":\"n\",\"kind\":\"merchant\"}"

  function Filled(head: string, n: nat, tail: string): string {
    head + seq(n, _ => 'x') + tail
  }

  /** A `CreateAccount` body without `parent_id`, exactly as long as the limit allows. */
  function LongBody(): string {
    Filled(BODY_HEAD, MAX_BODY - |BODY_HEAD| - |BODY_TAIL|, BODY_TAIL)
  }

  lemma FilledGrows(head: string, n: nat, tail: string)
    requires 'p' !in head && 'p' !in tail && tail != "" && tail[|tail| - 1] == '}'
    ensures |Filled(head, n, tail)| == |head| + n + |tail|
    ensures var r := Explicit(CreateAccount, Filled(head, n, tail));
            r.Some? && |r.value| > |Filled(head, n, tail)|
  {
    hide Mentions;
    NotMentioned(Filled(head, n, tail));
  }

  lemma LongBodyGrows()
    ensures |LongBody()| == MAX_BODY
    ensures Explicit(CreateAccount, LongBody()).Some? && |Explicit(CreateAccount, LongBody()).value| > MAX_BODY
  {
    hide Explicit, Filled;
    FilledGrows(BODY_HEAD, MAX_BODY - |BODY_HEAD| - |BODY_TAIL|, BODY_TAIL);
  }

  /** The exception is real: `prepare` accepts a body whose canonical form `restore` refuses. */
  lemma RestoreMayRefuse()
    ensures var client, client' := Client("https://example.com", 1, 2), Client("https://example.com", 1, 3);
            var w := PrepareWrite(Explicit, client, CreateAccount, None, LongBody(), 4);
            && Lawful(Explicit) && w.Some?
            && RestoreWrite(Explicit, client', StoredFor(client.origin, client.actor, w.value, false)) == None
  {
    hide Explicit, LongBody, Lawful;
    ExplicitIsLawful();
    LongBodyGrows();
  }

  // ---------------------------------------------------------- the file store

  /** A file is missing, holds bytes that do not decode, or holds a record. */
  datatype File = Absent | Torn | Full(record: Stored)

  datatype Disk = Disk(main: File, next: File)

  /** `decode_store`: None is its error. */
  function Decode(f: File): Option<Stored> {
    if f.Full? && f.record.version == STORE_VERSION then Some(f.record) else None
  }

  /** `load_store`: None is its error. */
  function Load(disk: Disk): Option<Option<Stored>> {
    if disk.main != Absent then (if Decode(disk.main).Some? then Some(Decode(disk.main)) else None)
    else if disk.next != Absent then (if Decode(disk.next).Some? then Some(Decode(disk.next)) else None)
    else Some(None)
  }

  /** How each file operation of one `write_store` ends. */
  datatype WriteIo = WriteIo(open: bool, write: bool, sync: bool, rename: bool, remove: bool, replace: bool)

  /** `write_store`: the disk it leaves and whether it succeeded. Dying at any point leaves a
      disk that failing at that point, or succeeding, also leaves. */
  function AfterWrite(disk: Disk, s: Stored, io: WriteIo): (Disk, bool) {
    if !io.open then (disk, false)
    else if !io.write then (disk.(next := Torn), false)
    else if !io.sync then (disk.(next := Full(s)), false)
    else if io.rename then (Disk(Full(s), Absent), true)
    else if !io.remove then (disk.(next := Full(s)), false)
    else if !io.replace then (Disk(Absent, Full(s)), false)
    else (Disk(Full(s), Absent), true)
  }

  datatype ClearIo = ClearIo(main: bool, next: bool)

  /** `clear_store`. */
  function AfterClear(disk: Disk, io: ClearIo): (Disk, bool) {
    if !io.main then (disk, false)
    else if !io.next then (disk.(main := Absent), false)
    else (Disk(Absent, Absent), true)
  }

  // --------------------------------------------------------- the locked state

  /** What the network call answered. */
  datatype Reply = Done(value: nat) | Invalid | NoAnswer | Api(status: nat) {
    predicate OutcomeUnknown() {
      NoAnswer? || (Api? && 500 <= status <= 599)
    }
  }

  datatype Receipt = Receipt(id: Uuid, key: Uuid, path: Path)

  datatype Pending = Pending(receipt: Receipt, write: Write, phase: WritePhase, result: Option<Reply>)

  datatype Session = Session(id: Uuid, client: Client, actor: M.Actor, pending: Option<Pending>)

  datatype App = App(generation: Uuid, session: Option<Session>, recovery: Option<Stored>) {
    predicate InSession(id: Uuid) {
      session.Some? && session.value.id == id
    }

    /** The pending write a request handle names in the given session. */
    predicate Holds(id: Uuid, request: Uuid) {
      InSession(id) && session.value.pending.Some? && session.value.pending.value.receipt.id == request
    }

    function WithPending(p: Option<Pending>): App
      requires session.Some?
    {
      this.(session := Some(session.value.(pending := p)))
    }
  }

  /** `login` up to its network call: the generation changes and the session is dropped. */
  function LoginBegin(app: App, client: Client, generation: Uuid): Option<App> {
    if app.session.Some? && app.session.value.pending.Some? then None
    else if app.recovery.Some? && app.recovery.value.origin != client.origin then None
    else Some(app.(generation := generation, session := None))
  }

  /** `login` after `me()` answered with `actor`. */
  function LoginEnd(canon: Canonical, app: App, client: Client, generation: Uuid, actor: M.Actor, receipt: Uuid): Option<App> {
    if app.generation != generation then None
    else if app.recovery.Some? && app.recovery.value.actor != actor.id then None
    else if app.recovery.None? then Some(app.(session := Some(Session(generation, client, actor, None))))
    else
      match RestoreWrite(canon, client, app.recovery.value)
      case None => None
      case Some(w) =>
        var phase := if app.recovery.value.attempted then Unknown else Prepared;
        Some(app.(session := Some(Session(generation, client, actor, Some(Pending(Receipt(receipt, w.key, w.path), w, phase, None))))))
  }

  function Logout(app: App, id: Uuid, generation: Uuid): Option<App> {
    if !app.InSession(id) || app.session.value.pending.Some? then None
    else Some(app.(generation := generation, session := None))
  }

  /** The write a `prepare` call would store, if it gets that far. */
  function Preparable(canon: Canonical, app: App, id: Uuid, op: Operation, target: Option<Uuid>, json: string, key: Uuid): Option<Write> {
    if app.recovery.Some? || !app.InSession(id) || app.session.value.pending.Some? then None
    else if !op.Allowed(app.session.value.actor) then None
    else PrepareWrite(canon, app.session.value.client, op, target, json, key)
  }

  /** `prepare` once its record is on disk. */
  function Install(app: App, w: Write, receipt: Uuid): App
    requires app.session.Some?
  {
    var session := app.session.value;
    App(app.generation,
        Some(session.(pending := Some(Pending(Receipt(receipt, w.key, w.path), w, Prepared, None)))),
        Some(StoredFor(session.client.origin, session.actor.id, w, false)))
  }

  /** Whether `execute` may send, rather than replay a result or refuse. */
  predicate Sendable(app: App, id: Uuid, request: Uuid) {
    && app.Holds(id, request)
    && app.session.value.pending.value.result.None?
    && app.session.value.pending.value.phase.MaySend()
    && app.recovery.Some? && app.recovery.value.key == app.session.value.pending.value.write.key
  }

  /** `execute` once attempted=true is on disk. */
  function BeginSend(app: App): App
    requires app.session.Some? && app.session.value.pending.Some? && app.recovery.Some?
  {
    App(app.generation,
        Some(app.session.value.(pending := Some(app.session.value.pending.value.(phase := Sending)))),
        Some(app.recovery.value.(attempted := true)))
  }

  /** `execute` after its network call; None when the post-network lookups fail. */
  function EndSend(app: App, id: Uuid, request: Uuid, reply: Reply): Option<App> {
    if !app.Holds(id, request) then None
    else
      var phase := if reply.Done? then Succeeded else if reply.OutcomeUnknown() then Unknown else Rejected;
      var p := app.session.value.pending.value.(phase := phase);
      Some(app.WithPending(Some(if phase.Unresolved() then p else p.(result := Some(reply)))))
  }

  predicate Discardable(app: App, id: Uuid, request: Uuid) {
    app.Holds(id, request) && app.session.value.pending.value.phase.MayEdit()
  }

  /** `discard` once the store is cleared. */
  function Discarded(app: App): App
    requires app.session.Some?
  {
    app.(session := Some(app.session.value.(pending := None)), recovery := None)
  }

  // ------------------------------------------------------- the bridge itself

  datatype ExecuteStart = Replayed(reply: Reply) | Refused | Started(client: Client, write: Write)

  class NativeBridge {
    var generation: Uuid
    var session: Option<Session>
    var recovery: Option<Stored>
    var main: File
    var next: File

    function State(): App
      reads this
    {
      App(generation, session, recovery)
    }

    function Files(): Disk
      reads this
    {
      Disk(main, next)
    }

    /** `persistent`: starting on what `load_store` finds. */
    constructor (disk: Disk, recovered: Option<Stored>)
      requires Load(disk) == Some(recovered)
      ensures State() == App(NIL, None, recovered) && Files() == disk
    {
      generation, session, recovery := NIL, None, recovered;
      main, next := disk.main, disk.next;
    }

    method WriteStore(s: Stored, io: WriteIo) returns (ok: bool)
      modifies this`main, this`next
      ensures AfterWrite(old(Files()), s, io) == (Files(), ok)
    {
      if !io.open { return false; }
      next := Torn;
      if !io.write { return false; }
      next := Full(s);
      if !io.sync { return false; }
      if io.rename {
        main, next := next, Absent;
        return true;
      }
      if !io.remove { return false; }
      main := Absent;
      if !io.replace { return false; }
      main, next := next, Absent;
      return true;
    }

    method ClearStore(io: ClearIo) returns (ok: bool)
      modifies this`main, this`next
      ensures AfterClear(old(Files()), io) == (Files(), ok)
    {
      if !io.main { return false; }
      main := Absent;
      if !io.next { return false; }
      next := Absent;
      return true;
    }

    method LoginFirst(client: Client, attempt: Uuid) returns (ok: bool)
      modifies this`generation, this`session
      ensures match LoginBegin(old(State()), client, attempt)
              case Some(app) => ok && State() == app
              case None => !ok && State() == old(State())
    {
      if session.Some? && session.value.pending.Some? { return false; }
      if recovery.Some? && recovery.value.origin != client.origin { return false; }
      generation := attempt;
      session := None;
      return true;
    }

    method LoginSecond(canon: Canonical, client: Client, attempt: Uuid, actor: M.Actor, receipt: Uuid) returns (ok: bool)
      modifies this`session
      ensures match LoginEnd(canon, old(State()), client, attempt, actor, receipt)
              case Some(app) => ok && State() == app
              case None => !ok && State() == old(State())
    {
      if generation != attempt { return false; }
      if recovery.Some? && recovery.value.actor != actor.id { return false; }
      var pending: Option<Pending> := None;
      if recovery.Some? {
        var w := RestoreWrite(canon, client, recovery.value);
        if w.None? { return false; }
        pending := Some(Pending(Receipt(receipt, w.value.key, w.value.path), w.value,
                                if recovery.value.attempted then Unknown else Prepared, None));
      }
      session := Some(Session(attempt, client, actor, pending));
      return true;
    }

    method LogOut(id: Uuid, upcoming: Uuid) returns (ok: bool)
      modifies this`generation, this`session
      ensures match Logout(old(State()), id, upcoming)
              case Some(app) => ok && State() == app
              case None => !ok && State() == old(State())
    {
      if session.None? || session.value.id != id { return false; }
      if session.value.pending.Some? { return false; }
      generation := upcoming;
      session := None;
      return true;
    }

    method Prepare(canon: Canonical, id: Uuid, op: Operation, target: Option<Uuid>, json: string, key: Uuid, receipt: Uuid,
                   io: WriteIo) returns (r: Option<Receipt>)
      modifies this
      ensures match Preparable(canon, old(State()), id, op, target, json, key)
              case None => r == None && State() == old(State()) && Files() == old(Files())
              case Some(w) =>
                var stored := StoredFor(old(session).value.client.origin, old(session).value.actor.id, w, false);
                var (disk, written) := AfterWrite(old(Files()), stored, io);
                && Files() == disk
                && State() == (if written then Install(old(State()), w, receipt) else old(State()))
                && r == if written then Some(Receipt(receipt, w.key, w.path)) else None
    {
      hide PrepareWrite, AfterWrite, Operation.Allowed;
      if recovery.Some? { return None; }
      if session.None? || session.value.id != id { return None; }
      if session.value.pending.Some? { return None; }
      if !op.Allowed(session.value.actor) { return None; }
      var prepared := PrepareWrite(canon, session.value.client, op, target, json, key);
      if prepared.None? { return None; }
      var w := prepared.value;
      var stored := StoredFor(session.value.client.origin, session.value.actor.id, w, false);
      var written := WriteStore(stored, io);
      if !written { return None; }
      recovery := Some(stored);
      session := Some(session.value.(pending := Some(Pending(Receipt(receipt, w.key, w.path), w, WritePhase.Prepared, None))));
      return Some(Receipt(receipt, w.key, w.path));
    }

    method ExecuteFirst(id: Uuid, request: Uuid, io: WriteIo) returns (r: ExecuteStart)
      modifies this
      ensures if !Sendable(old(State()), id, request) then
                && State() == old(State()) && Files() == old(Files())
                && r == (if old(State()).Holds(id, request) && old(session).value.pending.value.result.Some?
                         then Replayed(old(session).value.pending.value.result.value) else Refused)
              else
                var (disk, written) := AfterWrite(old(Files()), old(recovery).value.(attempted := true), io);
                && Files() == disk
                && State() == (if written then BeginSend(old(State())) else old(State()))
                && r == if written then Started(old(session).value.client, old(session).value.pending.value.write) else Refused
    {
      if session.None? || session.value.id != id { return Refused; }
      if session.value.pending.None? || session.value.pending.value.receipt.id != request { return Refused; }
      var pending := session.value.pending.value;
      if pending.result.Some? { return Replayed(pending.result.value); }
      if !pending.phase.MaySend() { return Refused; }
      if recovery.None? || recovery.value.key != pending.write.key { return Refused; }
      var stored := recovery.value.(attempted := true);
      var written := WriteStore(stored, io);
      if !written { return Refused; }
      recovery := Some(stored);
      session := Some(session.value.(pending := Some(pending.(phase := Sending))));
      return Started(session.value.client, pending.write);
    }

    method ExecuteSecond(id: Uuid, request: Uuid, reply: Reply) returns (ok: bool)
      modifies this`session
      ensures match EndSend(old(State()), id, request, reply)
              case Some(app) => ok && State() == app
              case None => !ok && State() == old(State())
    {
      if session.None? || session.value.id != id { return false; }
      if session.value.pending.None? || session.value.pending.value.receipt.id != request { return false; }
      var pending := session.value.pending.value;
      var phase := Rejected;
      match reply {
        case Done(_) => phase := Succeeded;
        case _ => if reply.OutcomeUnknown() { phase := Unknown; }
      }
      pending := pending.(phase := phase);
      if !phase.Unresolved() {
        pending := pending.(result := Some(reply));
      }
      session := Some(session.value.(pending := Some(pending)));
      return true;
    }

    method Discard(id: Uuid, request: Uuid, io: ClearIo) returns (ok: bool)
      modifies this
      ensures if !Discardable(old(State()), id, request) then !ok && State() == old(State()) && Files() == old(Files())
              else
                var (disk, cleared) := AfterClear(old(Files()), io);
                && Files() == disk && ok == cleared
                && State() == if cleared then Discarded(old(State())) else old(State())
    {
      if session.None? || session.value.id != id { return false; }
      if session.value.pending.None? || session.value.pending.value.receipt.id != request { return false; }
      if !session.value.pending.value.phase.MayEdit() { return false; }
      var cleared := ClearStore(io);
      if !cleared { return false; }
      recovery := None;
      session := Some(session.value.(pending := None));
      return true;
    }
  }
}

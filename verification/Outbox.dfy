/** Pull delivery of outbox events under leases (src/service/outbox.rs). */
module Outbox {
  import opened Wrappers
  import opened Errors
  import M = Model

  type Uuid = nat
  type Time = int

  datatype Row = Row(attempts: nat, token: Option<Uuid>, until: Option<Time>, delivered: Option<Time>) {
    predicate Ready(now: Time) {
      delivered.None? && (until.None? || until.value <= now)
    }

    predicate Ackable(t: Uuid, now: Time) {
      token == Some(t) && (delivered.Some? || (until.Some? && until.value > now))
    }

    function Leased(t: Uuid, end: Time): Row {
      Row(attempts + 1, Some(t), Some(end), delivered)
    }
  }

  const NEW_ROW := Row(0, None, None, None)

  /** `order` lists the ids by (created_at, id); `drawn` counts the lease tokens drawn. */
  datatype Box = Box(rows: map<Uuid, Row>, order: seq<Uuid>, drawn: Uuid) {
    predicate Valid() {
      && (forall i :: 0 <= i < |order| ==> order[i] in rows)
      && (forall id :: id in rows ==> id in order)
      && (forall i, j :: 0 <= i < j < |order| ==> order[i] != order[j])
      && (forall id :: id in rows && rows[id].token.Some? ==> rows[id].token.value < drawn)
    }
  }

  // ------------------------------------------------------------- operations

  /** The first `limit` ready rows that no concurrent claim has locked. */
  function Picked(rows: map<Uuid, Row>, order: seq<Uuid>, now: Time, limit: nat, locked: set<Uuid>): seq<Uuid>
    requires forall i :: 0 <= i < |order| ==> order[i] in rows
  {
    if order == [] || limit == 0 then []
    else if rows[order[0]].Ready(now) && order[0] !in locked
    then [order[0]] + Picked(rows, order[1..], now, limit - 1, locked)
    else Picked(rows, order[1..], now, limit, locked)
  }

  function LeaseAll(rows: map<Uuid, Row>, ids: seq<Uuid>, token: Uuid, until: Time): map<Uuid, Row>
    requires forall i :: 0 <= i < |ids| ==> ids[i] in rows
  {
    map id | id in rows :: if id in ids then rows[id].Leased(token, until) else rows[id]
  }

  /** `claim`: the ids handed out and the token that goes with them. */
  function Claim(box: Box, actor: M.Actor, limit: int, seconds: int, now: Time, locked: set<Uuid>): (Box, Outcome<(seq<Uuid>, Uuid)>)
    requires box.Valid()
  {
    if !actor.Has({M.Integrator}) then (box, Err(Forbidden))
    else if !(1 <= limit <= 100 && 10 <= seconds <= 3600) then (box, Err(Error.Invalid))
    else
      var ids := Picked(box.rows, box.order, now, limit, locked);
      PickedFromOrder(box.rows, box.order, now, limit, locked);
      (box.(rows := LeaseAll(box.rows, ids, box.drawn, now + seconds), drawn := box.drawn + 1), Ok((ids, box.drawn)))
  }

  /** `ack`. */
  function Ack(box: Box, actor: M.Actor, id: Uuid, token: Uuid, now: Time): (Box, Outcome<Uuid>) {
    if !actor.Has({M.Integrator}) then (box, Err(Forbidden))
    else if id !in box.rows || !box.rows[id].Ackable(token, now) then (box, Err(Conflict))
    else
      var row := box.rows[id];
      (box.(rows := box.rows[id := row.(delivered := if row.delivered.Some? then row.delivered else Some(now))]), Ok(id))
  }

  /** A committed business transaction adds its event somewhere in the order. */
  function Publish(box: Box, id: Uuid, at: nat): Box {
    if id in box.rows || at > |box.order| then box
    else box.(rows := box.rows[id := NEW_ROW], order := box.order[..at] + [id] + box.order[at..])
  }

  /** A claim takes only ready unlocked rows, and no more than the limit. */
  lemma {:induction false} PickedFromOrder(rows: map<Uuid, Row>, order: seq<Uuid>, now: Time, limit: nat, locked: set<Uuid>)
    requires forall i :: 0 <= i < |order| ==> order[i] in rows
    ensures var ids := Picked(rows, order, now, limit, locked);
            && |ids| <= limit
            && (forall id :: id in ids ==> id in order && id in rows && rows[id].Ready(now) && id !in locked)
  {
    if order != [] && limit != 0 {
      if rows[order[0]].Ready(now) && order[0] !in locked {
        PickedFromOrder(rows, order[1..], now, limit - 1, locked);
      } else {
        PickedFromOrder(rows, order[1..], now, limit, locked);
      }
    }
  }

  /** Oldest first: a ready unlocked row is left out only by a full batch of older rows. */
  lemma {:induction false} OldestFirst(rows: map<Uuid, Row>, order: seq<Uuid>, now: Time, limit: nat, locked: set<Uuid>, k: nat)
    requires forall i :: 0 <= i < |order| ==> order[i] in rows
    requires k < |order| && rows[order[k]].Ready(now) && order[k] !in locked
    ensures var ids := Picked(rows, order, now, limit, locked);
            order[k] in ids || (|ids| == limit && forall id :: id in ids ==> id in order[..k])
  {
    if limit != 0 {
      if rows[order[0]].Ready(now) && order[0] !in locked {
        if k > 0 {
          OldestFirst(rows, order[1..], now, limit - 1, locked, k - 1);
          TakeTail(order, k);
        }
      } else {
        OldestFirst(rows, order[1..], now, limit, locked, k - 1);
        TakeTail(order, k);
      }
    }
  }

  lemma TakeTail(s: seq<Uuid>, k: nat)
    requires 0 < k <= |s|
    ensures s[..k] == [s[0]] + s[1..][..k - 1]
  {
  }

  // ------------------------------------------------------------------- runs

  datatype Op =
    | Publishing(id: Uuid, at: nat)
    | Claiming(actor: M.Actor, limit: int, seconds: int, now: Time, locked: set<Uuid>)
    | Acking(actor: M.Actor, id: Uuid, token: Uuid, now: Time)

  function Step(box: Box, op: Op): Box
    requires box.Valid()
  {
    match op
    case Publishing(id, at) => Publish(box, id, at)
    case Claiming(actor, limit, seconds, now, locked) => Claim(box, actor, limit, seconds, now, locked).0
    case Acking(actor, id, token, now) => Ack(box, actor, id, token, now).0
  }

  /** The claim hands this event out. */
  predicate Takes(box: Box, op: Op, id: Uuid)
    requires box.Valid()
  {
    op.Claiming?
    && var r := Claim(box, op.actor, op.limit, op.seconds, op.now, op.locked).1;
       r.Ok? && id in r.value.0
  }

  lemma StepValid(box: Box, op: Op)
    requires box.Valid()
    ensures Step(box, op).Valid()
  {
    if op.Publishing? && !(op.id in box.rows || op.at > |box.order|) {
      PublishValid(box, op.id, op.at);
    }
  }

  lemma PublishValid(box: Box, id: Uuid, at: nat)
    requires box.Valid() && id !in box.rows && at <= |box.order|
    ensures Publish(box, id, at).Valid()
  {
    InsertDistinct(box.order, id, at);
  }

  lemma InsertDistinct(s: seq<Uuid>, x: Uuid, at: nat)
    requires at <= |s| && x !in s && forall i, j :: 0 <= i < j < |s| ==> s[i] != s[j]
    ensures var s' := s[..at] + [x] + s[at..];
            && (forall y :: y in s' <==> y == x || y in s)
            && (forall i, j :: 0 <= i < j < |s'| ==> s'[i] != s'[j])
  {
    assert s == s[..at] + s[at..];
    forall y | y in s[..at] + [x] + s[at..] ensures y == x || y in s {
    }
  }

  function Run(box: Box, ops: seq<Op>): (last: Box)
    requires box.Valid()
    ensures last.Valid()
    decreases ops
  {
    if ops == [] then box else
      StepValid(box, ops[0]);
      Run(Step(box, ops[0]), ops[1..])
  }

  /** How often a run hands the event out. */
  function Handed(box: Box, ops: seq<Op>, id: Uuid): nat
    requires box.Valid()
    decreases ops
  {
    if ops == [] then 0 else
      StepValid(box, ops[0]);
      (if Takes(box, ops[0], id) then 1 else 0) + Handed(Step(box, ops[0]), ops[1..], id)
  }

  /** What one operation does to one event. A claim only ever takes it undelivered and without
      a live lease, counts it, and puts the claim's own token and end on it; an
      acknowledgement sets the delivery time of the live lease's token; nothing else touches
      it. */
  lemma StepRow(box: Box, op: Op, id: Uuid)
    requires box.Valid() && id in box.rows
    ensures id in Step(box, op).rows && box.drawn <= Step(box, op).drawn
    ensures var row, row' := box.rows[id], Step(box, op).rows[id];
            if Takes(box, op, id) then
              && row.delivered.None? && (row.until.Some? ==> row.until.value <= op.now)
              && row' == Row(row.attempts + 1, Some(box.drawn), Some(op.now + op.seconds), None)
            else if op.Acking? && op.id == id && op.actor.role in {M.Admin, M.Integrator}
                    && row.delivered.None? && row.token == Some(op.token) && row.until.Some? && op.now < row.until.value
            then row' == row.(delivered := Some(op.now))
            else row' == row
    ensures Takes(box, op, id) ==> box.drawn < Step(box, op).drawn
  {
    if op.Claiming? && 1 <= op.limit {
      PickedFromOrder(box.rows, box.order, op.now, op.limit, op.locked);
    }
  }

  /** A claim is answered exactly within its limits, and then hands out every undelivered event
      without a live lease that nobody holds locked, unless it is full of older ones. */
  lemma FreeEventsAreHandedOut(box: Box, actor: M.Actor, limit: int, seconds: int, now: Time, locked: set<Uuid>, k: nat)
    requires box.Valid() && k < |box.order|
    ensures var r := Claim(box, actor, limit, seconds, now, locked).1;
            && (r.Ok? <==> actor.role in {M.Admin, M.Integrator} && 1 <= limit <= 100 && 10 <= seconds <= 3600)
            && (r.Ok? ==> r.value.1 == box.drawn && |r.value.0| <= limit)
            && (r.Ok? && box.rows[box.order[k]].delivered.None? && box.order[k] !in locked
                && (box.rows[box.order[k]].until.Some? ==> box.rows[box.order[k]].until.value <= now) ==>
                  box.order[k] in r.value.0 || (|r.value.0| == limit && forall id :: id in r.value.0 ==> id in box.order[..k]))
  {
    if 1 <= limit {
      PickedFromOrder(box.rows, box.order, now, limit, locked);
      if box.rows[box.order[k]].Ready(now) && box.order[k] !in locked {
        OldestFirst(box.rows, box.order, now, limit, locked, k);
      }
    }
  }

  /** Whose acknowledgement is taken: the holder of the event's last token, while the lease
      lives or once the event is delivered. */
  lemma AckIff(box: Box, actor: M.Actor, id: Uuid, token: Uuid, now: Time)
    ensures Ack(box, actor, id, token, now).1.Ok?
            <==> && actor.role in {M.Admin, M.Integrator} && id in box.rows && box.rows[id].token == Some(token)
                 && (box.rows[id].delivered.Some? || (box.rows[id].until.Some? && now < box.rows[id].until.value))
  {
  }

  /** Every event stays, is counted once for each time it is handed out, and once delivered
      keeps its delivery time and its token. */
  lemma {:induction false} EventsAreKept(box: Box, ops: seq<Op>, id: Uuid)
    requires box.Valid() && id in box.rows
    ensures var last := Run(box, ops);
            && id in last.rows
            && last.rows[id].attempts == box.rows[id].attempts + Handed(box, ops, id)
            && (box.rows[id].delivered.Some? ==> last.rows[id] == box.rows[id] && Handed(box, ops, id) == 0)
    decreases ops
  {
    hide Step, Takes;
    if ops != [] {
      StepValid(box, ops[0]);
      StepRow(box, ops[0], id);
      EventsAreKept(Step(box, ops[0]), ops[1..], id);
    }
  }

  /** A token no longer on the row never gets back on it. */
  lemma {:induction false} LostForGood(box: Box, ops: seq<Op>, id: Uuid, token: Uuid)
    requires box.Valid() && id in box.rows && token < box.drawn && box.rows[id].token != Some(token)
    ensures id in Run(box, ops).rows && Run(box, ops).rows[id].token != Some(token)
    decreases ops
  {
    hide Step, Takes;
    if ops != [] {
      StepValid(box, ops[0]);
      StepRow(box, ops[0], id);
      LostForGood(Step(box, ops[0]), ops[1..], id, token);
    }
  }

  /** Once another claim hands the event out, the earlier token can never acknowledge it,
      whatever happens in between and whatever the clock says. */
  lemma SupersededNeverAcks(box: Box, op: Op, ops: seq<Op>, id: Uuid, token: Uuid, actor: M.Actor, now: Time)
    requires box.Valid() && id in box.rows && token < box.drawn && Takes(box, op, id)
    ensures Step(box, op).Valid()
    ensures Ack(Run(Step(box, op), ops), actor, id, token, now).1.Err?
  {
    hide Step, Takes;
    StepValid(box, op);
    StepRow(box, op, id);
    LostForGood(Step(box, op), ops, id, token);
  }

  /** A live lease is exclusive: until it ends, no claim hands the event out again. */
  lemma {:induction false} LiveLeaseExcludes(box: Box, ops: seq<Op>, id: Uuid, until: Time)
    requires box.Valid() && id in box.rows && box.rows[id].until == Some(until)
    requires forall op :: op in ops && op.Claiming? ==> op.now < until
    ensures Handed(box, ops, id) == 0
    ensures id in Run(box, ops).rows && Run(box, ops).rows[id].token == box.rows[id].token && Run(box, ops).rows[id].until == Some(until)
    decreases ops
  {
    hide Step;
    if ops != [] {
      StepValid(box, ops[0]);
      StepRow(box, ops[0], id);
      LiveLeaseExcludes(Step(box, ops[0]), ops[1..], id, until);
    }
  }

  /** The holder of a live lease can acknowledge at any time before it ends, and again later;
      nobody else can. */
  lemma HolderAcks(box: Box, ops: seq<Op>, id: Uuid, token: Uuid, until: Time, actor: M.Actor, now: Time, other: Uuid)
    requires box.Valid() && id in box.rows && box.rows[id].until == Some(until) && box.rows[id].token == Some(token)
    requires forall op :: op in ops && op.Claiming? ==> op.now < until
    requires now < until && actor.Has({M.Integrator})
    ensures Ack(Run(box, ops), actor, id, other, now).1 == if other == token then Ok(id) else Err(Conflict)
    ensures var acked := Ack(Run(box, ops), actor, id, token, now).0;
            id in acked.rows && acked.rows[id].delivered.Some? && forall later :: Ack(acked, actor, id, token, later) == (acked, Ok(id))
  {
    LiveLeaseExcludes(box, ops, id, until);
    var acked := Ack(Run(box, ops), actor, id, token, now).0;
    forall later ensures Ack(acked, actor, id, token, later) == (acked, Ok(id)) {
      assert acked.rows[id := acked.rows[id]] == acked.rows;
    }
  }

  // --------------------------------------------------------------- the table

  /** The scan behind `claim`. */
  method Pick(rows: map<Uuid, Row>, order: seq<Uuid>, now: Time, limit: nat, locked: set<Uuid>) returns (ids: seq<Uuid>)
    requires forall i :: 0 <= i < |order| ==> order[i] in rows
    ensures ids == Picked(rows, order, now, limit, locked)
  {
    ids := [];
    var i := 0;
    while i < |order| && |ids| < limit
      invariant 0 <= i <= |order| && |ids| <= limit
      invariant Picked(rows, order, now, limit, locked) == ids + Picked(rows, order[i..], now, limit - |ids|, locked)
    {
      assert order[i..][0] == order[i] && order[i..][1..] == order[i + 1..];
      if rows[order[i]].Ready(now) && order[i] !in locked {
        ids := ids + [order[i]];
      }
      i := i + 1;
    }
  }

  class OutboxTable {
    var rows: map<Uuid, Row>
    var order: seq<Uuid>
    var drawn: Uuid

    function Contents(): Box
      reads this
    {
      Box(rows, order, drawn)
    }

    constructor ()
      ensures Contents() == Box(map[], [], 0) && Contents().Valid()
    {
      rows, order, drawn := map[], [], 0;
    }

    method ClaimEvents(actor: M.Actor, limit: int, seconds: int, now: Time, locked: set<Uuid>) returns (r: Outcome<(seq<Uuid>, Uuid)>)
      requires Contents().Valid()
      modifies this
      ensures Contents().Valid()
      ensures (Contents(), r) == Claim(old(Contents()), actor, limit, seconds, now, locked)
    {
      StepValid(Contents(), Claiming(actor, limit, seconds, now, locked));
      if !actor.Has({M.Integrator}) { return Err(Forbidden); }
      if !(1 <= limit <= 100 && 10 <= seconds <= 3600) { return Err(Error.Invalid); }
      PickedFromOrder(rows, order, now, limit, locked);
      var ids := Pick(rows, order, now, limit, locked);
      var token := drawn;
      drawn := drawn + 1;
      rows := map id | id in rows :: if id in ids then rows[id].Leased(token, now + seconds) else rows[id];
      return Ok((ids, token));
    }

    method Acknowledge(actor: M.Actor, id: Uuid, token: Uuid, now: Time) returns (r: Outcome<Uuid>)
      requires Contents().Valid()
      modifies this`rows
      ensures Contents().Valid()
      ensures (Contents(), r) == Ack(old(Contents()), actor, id, token, now)
    {
      StepValid(Contents(), Acking(actor, id, token, now));
      if !actor.Has({M.Integrator}) { return Err(Forbidden); }
      if id !in rows || !rows[id].Ackable(token, now) { return Err(Conflict); }
      if rows[id].delivered.None? {
        rows := rows[id := rows[id].(delivered := Some(now))];
      }
      assert rows[id := rows[id]] == rows;
      return Ok(id);
    }
  }
}

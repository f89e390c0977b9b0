/** The client protocol and the financial database of one server together: what the clients
    make happen there, whatever crashes, retries and repeated deliveries lie between. */
module EndToEnd {
  import opened Wrappers
  import opened Bridge
  import opened Protocol
  import opened ProtocolRuns
  import I = Idempotency
  import M = Model
  import Invariants
  import Runs

  /** A committed call, with the message that brought it, if a client of this protocol did. */
  datatype Entry = Entry(call: M.Call, message: Option<Message>)

  /** `db` is the database behind the origin `home`; `log` lists its committed calls in order. */
  datatype World = World(sys: System, db: M.State, log: seq<Entry>)

  /** Client events are those of the protocol. A message to the home server is served by
      running a call it asks for; the server picks the call's time and fresh ids. `Direct`
      calls come from the workers and from other clients. */
  datatype WorldEvent =
    | Client(event: Event)
    | Serve(message: Message, call: M.Call, response: nat)
    | Direct(call: M.Call)

  type Request = (Message, M.Call) -> bool

  predicate Financial(home: string, m: Message) {
    m.origin == home && m.path.resource != "credentials"
  }

  const START := World(INIT, M.INITIAL, [])

  ghost function Next(canon: Canonical, home: string, asks: Request, w: World, e: WorldEvent): World {
    match e
    case Client(event) =>
      if event.Deliver? && Financial(home, event.message) then w else w.(sys := Step(canon, w.sys, event))
    case Serve(m, call, response) =>
      if m !in w.sys.wire || !Financial(home, m) || !asks(m, call) then w
      else
        var result := M.Step(w.db, call);
        var outcome := if result.Ok? then Some(response) else None;
        var answer := I.Handle(w.sys.table, ClaimOf(m), InputOf(m), outcome).1;
        var sys := Step(canon, w.sys, Deliver(m, outcome));
        if answer.Completed? then World(sys, result.value, w.log + [Entry(call, Some(m))]) else w.(sys := sys)
    case Direct(call) =>
      var result := M.Step(w.db, call);
      if result.Ok? then World(w.sys, result.value, w.log + [Entry(call, None)]) else w
  }

  ghost function History(canon: Canonical, home: string, asks: Request, w: World, events: seq<WorldEvent>): World
    decreases events
  {
    if events == [] then w else History(canon, home, asks, Next(canon, home, asks, w, events[0]), events[1..])
  }

  function Calls(log: seq<Entry>): seq<M.Call> {
    seq(|log|, i requires 0 <= i < |log| => log[i].call)
  }

  function Messages(log: seq<Entry>): seq<Message> {
    if log == [] then []
    else Messages(log[..|log| - 1]) + (if log[|log| - 1].message.Some? then [log[|log| - 1].message.value] else [])
  }

  /** The effects that concern the home database, in order. */
  function HomeEffects(home: string, effects: seq<Message>): seq<Message> {
    if effects == [] then []
    else
      HomeEffects(home, effects[..|effects| - 1])
      + (if Financial(home, effects[|effects| - 1]) then [effects[|effects| - 1]] else [])
  }

  /** Every logged call went through when its turn came, and was asked for. */
  ghost predicate Applied(asks: Request, log: seq<Entry>, i: nat)
    requires i < |log|
  {
    && M.Step(M.Run(M.INITIAL, Calls(log[..i])), log[i].call).Ok?
    && (log[i].message.Some? ==> asks(log[i].message.value, log[i].call))
  }

  ghost predicate Faithful(canon: Canonical, home: string, asks: Request, w: World) {
    && Reachable(canon, w.sys)
    && w.db == M.Run(M.INITIAL, Calls(w.log))
    && Messages(w.log) == HomeEffects(home, w.sys.effects)
    && forall i :: 0 <= i < |w.log| ==> Applied(asks, w.log, i)
  }

  lemma CallsMore(log: seq<Entry>, entry: Entry)
    ensures M.Run(M.INITIAL, Calls(log + [entry])) == M.After(M.Run(M.INITIAL, Calls(log)), entry.call)
  {
    hide M.After;
    assert Calls(log + [entry]) == Calls(log) + [entry.call];
    assert (Calls(log) + [entry.call])[..|log|] == Calls(log);
  }

  lemma LogMore(asks: Request, log: seq<Entry>, entry: Entry)
    requires forall i :: 0 <= i < |log| ==> Applied(asks, log, i)
    requires M.Step(M.Run(M.INITIAL, Calls(log)), entry.call).Ok?
    requires entry.message.Some? ==> asks(entry.message.value, entry.call)
    ensures forall i :: 0 <= i < |log| + 1 ==> Applied(asks, log + [entry], i)
  {
    hide M.Step, M.Run;
    assert (log + [entry])[..|log|] == log;
    forall i | 0 <= i < |log| ensures Applied(asks, log + [entry], i) {
      assert (log + [entry])[..i] == log[..i];
      assert Applied(asks, log, i);
    }
  }

  lemma MessagesMore(log: seq<Entry>, entry: Entry)
    ensures Messages(log + [entry]) == Messages(log) + (if entry.message.Some? then [entry.message.value] else [])
  {
    assert (log + [entry])[..|log|] == log;
  }

  lemma EffectsMore(home: string, effects: seq<Message>, m: Message)
    ensures HomeEffects(home, effects + [m]) == HomeEffects(home, effects) + (if Financial(home, m) then [m] else [])
  {
    assert (effects + [m])[..|effects|] == effects;
  }

  /** A step leaves the effects alone, or appends the delivered message. */
  lemma StepEffects(canon: Canonical, sys: System, e: Event)
    ensures Step(canon, sys, e).effects == sys.effects
            || (e.Deliver? && Step(canon, sys, e).effects == sys.effects + [e.message])
  {
  }

  lemma DeliveryEffects(canon: Canonical, sys: System, m: Message, outcome: Option<nat>)
    requires m in sys.wire
    ensures Step(canon, sys, Deliver(m, outcome)).effects
            == if I.Handle(sys.table, ClaimOf(m), InputOf(m), outcome).1.Completed? then sys.effects + [m] else sys.effects
    ensures I.Handle(sys.table, ClaimOf(m), InputOf(m), outcome).1.Completed? ==> outcome.Some?
  {
  }

  lemma NextIsFaithful(canon: Canonical, home: string, asks: Request, w: World, e: WorldEvent)
    requires Faithful(canon, home, asks, w)
    ensures Faithful(canon, home, asks, Next(canon, home, asks, w, e))
  {
    hide Reachable, Step, M.Step, M.Run, I.Handle, Applied, ClaimOf, InputOf, Financial, Calls, Messages, HomeEffects;
    match e
    case Client(event) =>
      ReachableStep(canon, w.sys, event);
      StepEffects(canon, w.sys, event);
      if event.Deliver? {
        EffectsMore(home, w.sys.effects, event.message);
      }
    case Serve(m, call, response) =>
      if m in w.sys.wire && Financial(home, m) && asks(m, call) {
        var outcome := if M.Step(w.db, call).Ok? then Some(response) else None;
        ReachableStep(canon, w.sys, Deliver(m, outcome));
        DeliveryEffects(canon, w.sys, m, outcome);
        EffectsMore(home, w.sys.effects, m);
        var entry := Entry(call, Some(m));
        MessagesMore(w.log, entry);
        CallsMore(w.log, entry);
        if outcome.Some? {
          LogMore(asks, w.log, entry);
        }
      }
    case Direct(call) =>
      var entry := Entry(call, None);
      MessagesMore(w.log, entry);
      CallsMore(w.log, entry);
      if M.Step(w.db, call).Ok? {
        LogMore(asks, w.log, entry);
      }
  }

  lemma {:induction false} HistoryIsFaithful(canon: Canonical, home: string, asks: Request, w: World, events: seq<WorldEvent>)
    requires Faithful(canon, home, asks, w)
    ensures Faithful(canon, home, asks, History(canon, home, asks, w, events))
    decreases events
  {
    hide Faithful, Next;
    if events != [] {
      NextIsFaithful(canon, home, asks, w, events[0]);
      HistoryIsFaithful(canon, home, asks, Next(canon, home, asks, w, events[0]), events[1..]);
    }
  }

  lemma StartIsFaithful(canon: Canonical, home: string, asks: Request)
    ensures Faithful(canon, home, asks, START)
  {
    EmptyRun(canon);
    assert Calls([]) == [];
  }

  /** The database is exactly what running the committed calls once each, in order, leaves;
      the calls that came by message are the protocol's effects there, in their order; and so
      the database is one the services can reach, and reconciles. */
  lemma DatabaseIsTheCommittedCalls(canon: Canonical, home: string, asks: Request, events: seq<WorldEvent>)
    ensures var w := History(canon, home, asks, START, events);
            && w.db == M.Run(M.INITIAL, Calls(w.log))
            && (forall i :: 0 <= i < |w.log| ==> Applied(asks, w.log, i))
            && Messages(w.log) == HomeEffects(home, w.sys.effects)
            && M.Reachable(w.db) && Invariants.Reconciles(w.db)
  {
    hide Reachable, M.Run, Applied, Invariants.Reconciles;
    StartIsFaithful(canon, home, asks);
    HistoryIsFaithful(canon, home, asks, START, events);
    Runs.ReachableReconciles(History(canon, home, asks, START, events).db);
  }

  // ---------------------------------------------------------- exactly once

  lemma {:induction false} LoggedMessage(log: seq<Entry>, i: nat)
    requires i < |log| && log[i].message.Some?
    ensures log[i].message.value in Messages(log)
  {
    if i < |log| - 1 {
      LoggedMessage(log[..|log| - 1], i);
    }
  }

  lemma {:induction false} MessageLogged(log: seq<Entry>, m: Message) returns (i: nat)
    requires m in Messages(log)
    ensures i < |log| && log[i].message == Some(m)
  {
    var last := |log| - 1;
    if log[last].message == Some(m) {
      i := last;
    } else {
      i := MessageLogged(log[..last], m);
    }
  }

  lemma {:induction false} HomeEffectsIn(home: string, effects: seq<Message>)
    ensures forall m :: m in HomeEffects(home, effects) <==> m in effects && Financial(home, m)
  {
    if effects != [] {
      var before := effects[..|effects| - 1];
      assert effects == before + [effects[|effects| - 1]];
      HomeEffectsIn(home, before);
    }
  }

  ghost predicate DistinctKeys(messages: seq<Message>) {
    forall i, j :: 0 <= i < j < |messages| ==> messages[i].key != messages[j].key
  }

  lemma {:induction false} HomeEffectsDistinct(home: string, effects: seq<Message>)
    requires DistinctKeys(effects)
    ensures DistinctKeys(HomeEffects(home, effects))
  {
    if effects != [] {
      var before, last := effects[..|effects| - 1], effects[|effects| - 1];
      HomeEffectsDistinct(home, before);
      HomeEffectsIn(home, before);
      forall i | 0 <= i < |HomeEffects(home, before)|
        ensures HomeEffects(home, before)[i].key != last.key
      {
        assert HomeEffects(home, before)[i] in before;
      }
    }
  }

  lemma {:induction false} LogDistinct(log: seq<Entry>, i: nat, j: nat)
    requires DistinctKeys(Messages(log)) && i < j < |log| && log[i].message.Some? && log[j].message.Some?
    ensures log[i].message.value.key != log[j].message.value.key
  {
    var before := log[..|log| - 1];
    assert Messages(before) <= Messages(log);
    if j < |log| - 1 {
      assert DistinctKeys(Messages(before)) by {
        assert forall k :: 0 <= k < |Messages(before)| ==> Messages(before)[k] == Messages(log)[k];
      }
      LogDistinct(before, i, j);
    } else {
      LoggedMessage(before, i);
      var k :| 0 <= k < |Messages(before)| && Messages(before)[k] == log[i].message.value;
      assert Messages(log)[k] == log[i].message.value && Messages(log)[|Messages(before)|] == log[j].message.value;
    }
  }

  /** Over every history, no key moves money twice: its request is in the log at most once. */
  lemma NoKeyTwice(canon: Canonical, home: string, asks: Request, events: seq<WorldEvent>, i: nat, j: nat)
    requires Lawful(canon)
    ensures var log := History(canon, home, asks, START, events).log;
            i < j < |log| && log[i].message.Some? && log[j].message.Some? ==>
              log[i].message.value.key != log[j].message.value.key
  {
    hide Lawful, Reachable, Applied, Next;
    var w := History(canon, home, asks, START, events);
    StartIsFaithful(canon, home, asks);
    HistoryIsFaithful(canon, home, asks, START, events);
    AtMostOneEffect(canon, w.sys);
    HomeEffectsDistinct(home, w.sys.effects);
    if i < j < |w.log| && w.log[i].message.Some? && w.log[j].message.Some? {
      LogDistinct(w.log, i, j);
    }
  }

  /** A client that sees Succeeded has moved the money exactly once: its request is in the
      log exactly once, asked for and carried out there. */
  lemma SucceededMovedItOnce(canon: Canonical, home: string, asks: Request, events: seq<WorldEvent>, m: Message) returns (i: nat)
    requires Lawful(canon) && Financial(home, m) && Finished(History(canon, home, asks, START, events).sys, m)
    ensures var log := History(canon, home, asks, START, events).log;
            && i < |log| && log[i].message == Some(m) && Applied(asks, log, i)
            && forall j :: 0 <= j < |log| && log[j].message.Some? && log[j].message.value.key == m.key ==> j == i
  {
    hide Lawful, Reachable, Applied, Next, Financial;
    var w := History(canon, home, asks, START, events);
    StartIsFaithful(canon, home, asks);
    HistoryIsFaithful(canon, home, asks, START, events);
    SucceededMeansOnce(canon, w.sys);
    HomeEffectsIn(home, w.sys.effects);
    i := MessageLogged(w.log, m);
    forall j | 0 <= j < |w.log| && w.log[j].message.Some? && w.log[j].message.value.key == m.key
      ensures j == i
    {
      NoKeyTwice(canon, home, asks, events, i, j);
      NoKeyTwice(canon, home, asks, events, j, i);
    }
  }
}

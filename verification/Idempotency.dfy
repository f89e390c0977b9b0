/** The idempotency table of src/transaction.rs: the row, the business change, the audit
    event and the outbox event of a request share one transaction. */
module Idempotency {
  import opened Wrappers

  /** Primary key (actor_id, operation, key). */
  datatype Claim<K> = Claim(actor: nat, operation: string, key: K)

  /** `request_hash` is modelled by the hashed input; a NULL response is None. */
  datatype Row<I, V> = Row(input: I, response: Option<V>)

  datatype Event<V> = Event(actor: nat, action: string, detail: V)

  datatype Table<!K(==), I, V> = Table(rows: map<Claim<K>, Row<I, V>>, audit: seq<Event<V>>, outbox: seq<Event<V>>)

  datatype Answer<V> = Mismatch | Replayed(value: V) | Failed | Completed(value: V)

  /** One request: `outcome` is what the business code computes, None when it fails. */
  function Handle<K(==), I(==), V>(t: Table<K, I, V>, claim: Claim<K>, input: I, outcome: Option<V>): (Table<K, I, V>, Answer<V>) {
    if claim in t.rows && t.rows[claim].input != input then (t, Mismatch)
    else if claim in t.rows && t.rows[claim].response.Some? then (t, Replayed(t.rows[claim].response.value))
    else if outcome.None? then (t, Failed)
    else
      var event := Event(claim.actor, claim.operation, outcome.value);
      (Table(t.rows[claim := Row(input, outcome)], t.audit + [event], t.outbox + [event]), Completed(outcome.value))
  }

  /** `claims` lists the answered rows, each once, in the order of the events written for them. */
  ghost predicate Logged<K, I, V>(t: Table<K, I, V>, claims: seq<Claim<K>>) {
    && |claims| == |t.audit|
    && (forall c :: c in t.rows ==> c in claims)
    && (forall c :: c in claims ==> c in t.rows)
    && (forall i, j :: 0 <= i < j < |claims| ==> claims[i] != claims[j])
    && (forall i :: 0 <= i < |claims| && t.rows[claims[i]].response.Some? ==>
          t.audit[i] == Event(claims[i].actor, claims[i].operation, t.rows[claims[i]].response.value))
  }

  /** Committed rows carry a response, and each has its one audit and one outbox event, of its
      own actor, operation and response; there are no other events. */
  ghost predicate Sound<K(!new), I, V>(t: Table<K, I, V>) {
    && (forall c :: c in t.rows ==> t.rows[c].response.Some?)
    && t.audit == t.outbox
    && exists claims :: Logged(t, claims)
  }

  datatype Request<K, I, V> = Request(claim: Claim<K>, input: I, outcome: Option<V>)

  function Serve<K(==), I(==), V>(t: Table<K, I, V>, requests: seq<Request<K, I, V>>): Table<K, I, V>
    decreases requests
  {
    if requests == [] then t
    else Serve(Handle(t, requests[0].claim, requests[0].input, requests[0].outcome).0, requests[1..])
  }

  lemma LoggedMore<K, I, V>(t: Table<K, I, V>, claims: seq<Claim<K>>, claim: Claim<K>, input: I, response: V)
    requires Logged(t, claims) && claim !in t.rows
    ensures var event := Event(claim.actor, claim.operation, response);
            Logged(Table(t.rows[claim := Row(input, Some(response))], t.audit + [event], t.outbox + [event]), claims + [claim])
  {
    var event := Event(claim.actor, claim.operation, response);
    var t' := Table(t.rows[claim := Row(input, Some(response))], t.audit + [event], t.outbox + [event]);
    forall c ensures c in t'.rows <==> c in claims + [claim] {
    }
    forall i | 0 <= i < |claims| ensures claims[i] in t.rows && claims[i] != claim {
      assert claims[i] in claims;
    }
  }

  lemma HandleIsSound<K(!new), I, V>(t: Table<K, I, V>, claim: Claim<K>, input: I, outcome: Option<V>)
    requires Sound(t)
    ensures Sound(Handle(t, claim, input, outcome).0)
  {
    if claim !in t.rows && outcome.Some? {
      var claims :| Logged(t, claims);
      LoggedMore(t, claims, claim, input, outcome.value);
    }
  }

  lemma {:induction false} ServeIsSound<K(!new), I, V>(t: Table<K, I, V>, requests: seq<Request<K, I, V>>)
    requires Sound(t)
    ensures Sound(Serve(t, requests))
    decreases requests
  {
    if requests != [] {
      HandleIsSound(t, requests[0].claim, requests[0].input, requests[0].outcome);
      ServeIsSound(Handle(t, requests[0].claim, requests[0].input, requests[0].outcome).0, requests[1..]);
    }
  }

  /** Once a request has completed, whatever else is served in between, sending it again
      replays the recorded response and sending another input under its key is refused;
      neither changes anything. */
  lemma {:induction false} CompletedOnce<K(!new), I, V>(t: Table<K, I, V>, r: Request<K, I, V>, between: seq<Request<K, I, V>>,
                                                  input: I, outcome: Option<V>)
    requires Sound(t) && Handle(t, r.claim, r.input, r.outcome).1.Completed?
    ensures var later := Serve(Handle(t, r.claim, r.input, r.outcome).0, between);
            && Handle(later, r.claim, input, outcome)
               == (later, if input == r.input then Replayed(r.outcome.value) else Mismatch)
  {
    var first := Handle(t, r.claim, r.input, r.outcome).0;
    RowStays(first, r.claim, between);
  }

  lemma {:induction false} RowStays<K, I, V>(t: Table<K, I, V>, claim: Claim<K>, requests: seq<Request<K, I, V>>)
    requires claim in t.rows && t.rows[claim].response.Some?
    ensures claim in Serve(t, requests).rows && Serve(t, requests).rows[claim] == t.rows[claim]
    decreases requests
  {
    if requests != [] {
      RowStays(Handle(t, requests[0].claim, requests[0].input, requests[0].outcome).0, claim, requests[1..]);
    }
  }

  /** What one request is answered, and that only a completed one changes the table, by its own
      row and one event in each log. */
  lemma HandleAnswers<K(!new), I, V>(t: Table<K, I, V>, claim: Claim<K>, input: I, outcome: Option<V>)
    requires Sound(t)
    ensures var (t', answer) := Handle(t, claim, input, outcome);
            && (answer.Mismatch? <==> claim in t.rows && t.rows[claim].input != input)
            && (answer.Replayed? <==> claim in t.rows && t.rows[claim].input == input)
            && (answer.Replayed? ==> t.rows[claim].response == Some(answer.value))
            && (answer.Failed? <==> claim !in t.rows && outcome.None?)
            && (answer.Completed? <==> claim !in t.rows && outcome.Some?)
            && (answer.Completed? ==>
                  && outcome == Some(answer.value) && t'.rows == t.rows[claim := Row(input, outcome)]
                  && |t'.audit| == |t.audit| + 1 && |t'.outbox| == |t.outbox| + 1 && t.audit <= t'.audit && t.outbox <= t'.outbox)
            && (!answer.Completed? ==> t' == t)
  {
  }

  /** The request that decides a claim: the first that asks for it with a success. */
  ghost predicate Decides<K, I, V>(requests: seq<Request<K, I, V>>, claim: Claim<K>, i: nat) {
    && i < |requests| && requests[i].claim == claim && requests[i].outcome.Some?
    && forall j :: 0 <= j < i ==> requests[j].claim != claim || requests[j].outcome.None?
  }

  /** Over any requests to a table that does not know the claim: it is carried out exactly if
      some request for it succeeds, and then the row is that of the first such request; a
      failed request before it, even with another input, leaves no trace. */
  lemma {:induction false} FirstSuccessDecides<K(!new), I, V>(t: Table<K, I, V>, requests: seq<Request<K, I, V>>, claim: Claim<K>)
    requires Sound(t) && claim !in t.rows
    ensures claim in Serve(t, requests).rows <==> exists i: nat :: Decides(requests, claim, i)
    ensures forall i: nat :: Decides(requests, claim, i) ==>
              claim in Serve(t, requests).rows && Serve(t, requests).rows[claim] == Row(requests[i].input, requests[i].outcome)
    decreases requests
  {
    if requests != [] {
      var head, rest := requests[0], requests[1..];
      var next := Handle(t, head.claim, head.input, head.outcome).0;
      HandleIsSound(t, head.claim, head.input, head.outcome);
      assert forall j :: 0 <= j < |rest| ==> rest[j] == requests[j + 1];
      if head.claim == claim && head.outcome.Some? {
        RowStays(next, claim, rest);
        assert Decides(requests, claim, 0);
      } else {
        FirstSuccessDecides(next, rest, claim);
        forall i: nat ensures Decides(requests, claim, i) <==> i > 0 && Decides(rest, claim, i - 1) {
          DecidesLater(requests, claim, i);
        }
        if i: nat :| Decides(rest, claim, i) {
          assert Decides(requests, claim, i + 1);
        }
      }
    }
  }

  lemma DecidesLater<K, I, V>(requests: seq<Request<K, I, V>>, claim: Claim<K>, i: nat)
    requires requests != [] && (requests[0].claim != claim || requests[0].outcome.None?)
    ensures Decides(requests, claim, i) <==> i > 0 && Decides(requests[1..], claim, i - 1)
  {
    if i > 0 && Decides(requests[1..], claim, i - 1) {
      forall j | 0 <= j < i ensures requests[j].claim != claim || requests[j].outcome.None? {
        assert j > 0 ==> requests[j] == requests[1..][j - 1];
      }
    }
    if i > 0 && Decides(requests, claim, i) {
      assert forall j :: 0 <= j < i - 1 ==> requests[1..][j] == requests[j + 1];
    }
  }

  datatype Start<V> = Replay(value: V) | New | Refused

  /** One database with the transaction in progress: the working copies are what the open
      transaction sees, and only a commit makes them the committed ones. */
  class RequestTable<K(==,!new), I(==), V(==)> {
    var rows: map<Claim<K>, Row<I, V>>
    var audit: seq<Event<V>>
    var outbox: seq<Event<V>>
    var working: map<Claim<K>, Row<I, V>>

    function Committed(): Table<K, I, V>
      reads this
    {
      Table(rows, audit, outbox)
    }

    constructor ()
      ensures Sound(Committed()) && rows == map[]
    {
      rows, audit, outbox, working := map[], [], [], map[];
      new;
      assert Logged(Committed(), []);
    }

    /** `Work::begin`. */
    method Begin(claim: Claim<K>, input: I) returns (start: Start<V>)
      requires Sound(Committed())
      modifies this`working
      ensures claim in rows && rows[claim].input != input ==> start == Refused
      ensures claim in rows && rows[claim].input == input ==> start == Replay(rows[claim].response.value)
      ensures claim !in rows ==> start == New && working == rows[claim := Row(input, None)]
    {
      working := rows;
      if claim !in working {
        working := working[claim := Row(input, None)];
      }
      var row := working[claim];
      if row.input != input { return Refused; }
      if row.response.Some? { return Replay(row.response.value); }
      return New;
    }

    /** `Work::complete`: its "no row was updated" error cannot happen. */
    method Complete(claim: Claim<K>, response: V) returns (ok: bool)
      requires Sound(Committed())
      requires claim in working && claim !in rows && working == rows[claim := Row(working[claim].input, None)]
      modifies this
      ensures ok && Sound(Committed())
      ensures (Committed(), Completed(response))
              == Handle(old(Committed()), claim, old(working[claim].input), Some(response))
    {
      hide Sound;
      if working[claim].response.Some? { return false; }
      assert rows[claim := Row(working[claim].input, Some(response))] == working[claim := Row(working[claim].input, Some(response))];
      HandleIsSound(Committed(), claim, working[claim].input, Some(response));
      var event := Event(claim.actor, claim.operation, response);
      rows := working[claim := working[claim].(response := Some(response))];
      audit := audit + [event];
      outbox := outbox + [event];
      return true;
    }

    /** A whole service call: a business failure drops the open transaction. */
    method Request(claim: Claim<K>, input: I, outcome: Option<V>) returns (answer: Answer<V>)
      requires Sound(Committed())
      modifies this
      ensures Sound(Committed())
      ensures (Committed(), answer) == Handle(old(Committed()), claim, input, outcome)
    {
      var start := Begin(claim, input);
      match start {
        case Refused => return Mismatch;
        case Replay(value) => return Replayed(value);
        case New =>
          if outcome.None? { return Failed; }
          var _ := Complete(claim, outcome.value);
          return Completed(outcome.value);
      }
    }
  }
}

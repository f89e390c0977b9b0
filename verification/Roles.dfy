/** Client (crates/commission-client/src/lib.rs) and server (src/http/mod.rs) agree on routes
    and roles. */
module Roles {
  import opened Wrappers
  import opened Errors
  import opened Ledger
  import opened Model
  import B = Bridge
  import Domain

  /** The service call behind an operation. */
  predicate Serves(call: Op, op: B.Operation) {
    match op
    case CreateAccount => call.OpCreateAccount?
    case BindReferral => call.OpBindReferral?
    case CreateRule => call.OpCreateRule?
    case DisableRule => call.OpDisableRule?
    case CaptureOrder => call.OpCapture?
    case Refund => call.OpRefund?
    case Release => call.OpRelease?
    case RequestPayout => call.OpRequestPayout?
    case ApprovePayout => call.OpApprove?
    case ProcessPayout => call.OpProcess?
    case RejectPayout => call.OpReject?
    case PayoutOutcome => call.OpConclude?
    case CreateCredential | RevokeCredential => false
  }

  lemma PostNeverForbids(books: Books)
    ensures forall p: Posting :: Post(books, p) != Err(Forbidden)
  {
    hide Post;
    forall p: Posting ensures Post(books, p) != Err(Forbidden) {
      PostErrors(books, p);
    }
  }

  lemma QuoteNeverForbids(st: State, merchant: AccountId, customer: Option<string>, paid: Domain.Money, base: Domain.Money,
                          now: int)
    ensures Quote(st, merchant, customer, paid, base, now) != Err(Forbidden)
  {
  }

  /** The client lets an actor prepare an operation exactly if the server does not forbid the
      call behind it, whatever its arguments and whatever the database holds. */
  lemma RolesAgree(op: B.Operation, st: State, c: Call)
    requires Serves(c.op, op)
    ensures op.Allowed(c.actor) <==> Step(st, c) != Err(Forbidden)
  {
    hide Quote, Post, Domain.Apportion, Domain.Refundable, Text;
    PostNeverForbids(st.books);
    if c.op.OpCapture? {
      var input := c.op.capture;
      QuoteNeverForbids(st, input.merchant, input.customer, input.paid, input.base, c.now);
    }
  }

  /** The role check of `create_credential` and `revoke_credential`. */
  function ManageCredentials(actor: Actor): Outcome<()> {
    if !actor.Has({}) then Err(Forbidden) else Ok(())
  }

  /** The same for the two operations on credentials, which only administrators have. */
  lemma CredentialRolesAgree(op: B.Operation, actor: Actor)
    requires op in {B.CreateCredential, B.RevokeCredential}
    ensures op.Allowed(actor) <==> ManageCredentials(actor) != Err(Forbidden)
    ensures op.Allowed(actor) <==> actor.role == Admin
  {
  }

  /** The server's router: the handler behind a POST, if there is one. */
  function Dispatch(path: B.Path): Option<B.Operation> {
    if path.target.None? then
      if path.action != "" then None
      else if path.resource == "accounts" then Some(B.CreateAccount)
      else if path.resource == "referrals" then Some(B.BindReferral)
      else if path.resource == "rules" then Some(B.CreateRule)
      else if path.resource == "orders" then Some(B.CaptureOrder)
      else if path.resource == "payouts" then Some(B.RequestPayout)
      else if path.resource == "credentials" then Some(B.CreateCredential)
      else None
    else if path.resource == "rules" then
      if path.action == "disable" then Some(B.DisableRule) else None
    else if path.resource == "orders" then
      if path.action == "refunds" then Some(B.Refund)
      else if path.action == "release" then Some(B.Release)
      else None
    else if path.resource == "payouts" then
      if path.action == "approve" then Some(B.ApprovePayout)
      else if path.action == "processing" then Some(B.ProcessPayout)
      else if path.action == "reject" then Some(B.RejectPayout)
      else if path.action == "outcome" then Some(B.PayoutOutcome)
      else None
    else if path.resource == "credentials" then
      if path.action == "revoke" then Some(B.RevokeCredential) else None
    else None
  }

  /** The handler of an operation is behind its own path and no other. */
  lemma HandlerIff(op: B.Operation, path: B.Path)
    ensures Dispatch(path) == Some(op) <==>
              path.resource == op.Resource() && path.action == op.Action() && (path.target.Some? <==> op.NeedsId())
  {
  }

  /** Whatever the client encodes reaches the handler of its own operation, with the target it
      was given, and no other path reaches that handler. */
  lemma RoutesReachTheirHandlers(canon: B.Canonical, op: B.Operation, target: Option<B.Uuid>, json: string, path: B.Path)
    ensures B.Encode(canon, op, target, json).Some? ==>
              var (path, _) := B.Encode(canon, op, target, json).value;
              Dispatch(path) == Some(op) && (path.target.Some? ==> path.target == target)
    ensures Dispatch(path) == Some(op) <==>
              path.resource == op.Resource() && path.action == op.Action() && (path.target.Some? <==> op.NeedsId())
  {
    hide Dispatch, B.Operation.Resource, B.Operation.Action, B.Operation.NeedsId;
    HandlerIff(op, path);
    if B.Encode(canon, op, target, json).Some? {
      HandlerIff(op, B.Encode(canon, op, target, json).value.0);
    }
  }
}

/** The tables of the commission service and what each service call does to them, as
    functions on the whole database state: src/service/catalog.rs, src/service/orders.rs
    and src/service/payouts.rs. Ids of orders, refunds, payouts, rules and journals are
    their positions in insertion order; every call is one transaction, so an error leaves
    the state as it was. */
module Model {
  import opened Wrappers
  import opened Errors
  import opened Sums
  import opened Domain
  import opened Ledger

  datatype Role = Admin | Operator | Finance | Integrator | Auditor | Member

  datatype Actor = Actor(id: ActorId, role: Role, account: Option<AccountId>) {
    predicate Has(roles: set<Role>) {
      role == Admin || role in roles
    }

    predicate MaySee(a: AccountId) {
      role == Member ==> account == Some(a)
    }
  }

  datatype AccountKind = PlatformAccount | ClearingAccount | Merchant | Promoter

  datatype Account = Account(externalId: string, name: string, kind: AccountKind, parent: Option<AccountId>, active: bool)

  /** A published rule; its version is its position. */
  datatype Rule = Rule(
    name: string,
    merchant: Option<AccountId>,
    priority: int,
    minBase: int,
    maxBase: Option<int>,
    terms: Terms,
    effectiveFrom: int,
    effectiveUntil: Option<int>,
    active: bool)

  datatype Slot = Direct | Indirect | PlatformSlot | MerchantSlot

  datatype Allocation = Allocation(slot: Slot, account: AccountId, original: int, refunded: int)

  datatype Order = Order(
    externalId: string,
    merchant: AccountId,
    customer: Option<string>,
    paid: int,
    base: int,
    feePool: int,
    refunded: int,
    rule: nat,
    unlockAt: int,
    releasedAt: Option<int>,
    allocations: seq<Allocation>)

  datatype RefundRow = RefundRow(order: nat, externalId: string, amount: int, cumulative: int, reason: string)

  datatype Status = Requested | Approved | Processing | Unknown | Succeeded | Failed | Rejected

  datatype Payout = Payout(
    externalId: string,
    account: AccountId,
    amount: int,
    destination: string,
    status: Status,
    requestedBy: ActorId,
    approvedBy: Option<ActorId>,
    providerReference: Option<string>,
    evidence: Option<string>)
  {
    /** The states whose amount is held in the reserved bucket. */
    predicate Open() {
      status in {Requested, Approved, Processing, Unknown}
    }
  }

  datatype State = State(
    accounts: map<AccountId, Account>,
    rules: seq<Rule>,
    bindings: map<string, AccountId>,
    orders: seq<Order>,
    refunds: seq<RefundRow>,
    payouts: seq<Payout>,
    books: Books)

  /** The database after its first migration. */
  const INITIAL := State(
    map[PLATFORM := Account("__platform__", "platform", PlatformAccount, None, true),
        CLEARING := Account("__clearing__", "clearing", ClearingAccount, None, true)],
    [], map[], [], [], [],
    Books(map[PLATFORM := Wallet(0, 0, 0), CLEARING := Wallet(0, 0, 0)], []))

  // --------------------------------------------------------------- text fields

  predicate IsSpace(c: char) {
    || 0x09 <= c as int <= 0x0D || c as int in {0x20, 0x85, 0xA0, 0x1680, 0x2028, 0x2029, 0x202F, 0x205F, 0x3000}
    || 0x2000 <= c as int <= 0x200A
  }

  predicate IsControl(c: char) {
    (c as int) < 0x20 || 0x7F <= c as int <= 0x9F
  }

  /** `text`: not blank, no control characters, at most `max` characters. */
  predicate Text(s: string, max: nat) {
    && (exists i :: 0 <= i < |s| && !IsSpace(s[i]))
    && |s| <= max
    && (forall i :: 0 <= i < |s| ==> !IsControl(s[i]))
  }

  /** Of printable ASCII exactly the texts up to the limit that are not all spaces are taken,
      and none with a line break, a tab or another control character. */
  lemma TextOfAscii(s: string, max: nat)
    ensures (forall i :: 0 <= i < |s| ==> 0x20 <= s[i] as int <= 0x7E) ==>
              (Text(s, max) <==> |s| <= max && exists i :: 0 <= i < |s| && s[i] != ' ')
    ensures (exists i :: 0 <= i < |s| && (s[i] as int <= 0x1F || s[i] as int == 0x7F)) ==> !Text(s, max)
  {
  }

  // ------------------------------------------------------------------- catalog

  /** `active_account`: the error it answers for an unusable account, if any. */
  function AccountError(st: State, id: AccountId, kind: AccountKind): Option<Error> {
    if id !in st.accounts then Some(NotFound)
    else if !st.accounts[id].active || st.accounts[id].kind != kind then Some(Invalid)
    else None
  }

  function CreateAccount(st: State, actor: Actor, id: AccountId, externalId: string, name: string,
                         kind: AccountKind, parent: Option<AccountId>): Outcome<State>
  {
    if !actor.Has({Operator}) then Err(Forbidden)
    else if !Text(externalId, 96) || !Text(name, 120) then Err(Invalid)
    else if kind !in {Merchant, Promoter} || (parent.Some? && kind != Promoter) then Err(Invalid)
    else if "__" <= externalId then Err(Invalid)
    else if parent.Some? && AccountError(st, parent.value, Promoter).Some? then
      Err(AccountError(st, parent.value, Promoter).value)
    else if id in st.accounts || exists a :: a in st.accounts && st.accounts[a].externalId == externalId then Err(Duplicate)
    else Ok(st.(accounts := st.accounts[id := Account(externalId, name, kind, parent, true)],
                books := st.books.(wallets := st.books.wallets[id := Wallet(0, 0, 0)])))
  }

  function BindReferral(st: State, actor: Actor, customer: string, promoter: AccountId): Outcome<State> {
    if !actor.Has({Operator, Integrator}) then Err(Forbidden)
    else if !Text(customer, 96) then Err(Invalid)
    else if AccountError(st, promoter, Promoter).Some? then Err(AccountError(st, promoter, Promoter).value)
    else if exists i :: 0 <= i < |st.orders| && st.orders[i].customer == Some(customer) then Err(Conflict)
    else if customer in st.bindings then Err(Duplicate)
    else Ok(st.(bindings := st.bindings[customer := promoter]))
  }

  predicate RuleInRange(rule: Rule) {
    && 0 <= rule.minBase <= MAX_OPERATION_MINOR
    && (rule.maxBase.Some? ==> rule.minBase < rule.maxBase.value <= MAX_OPERATION_MINOR)
    && -10_000 <= rule.priority <= 10_000
  }

  function CreateRule(st: State, actor: Actor, rule: Rule): Outcome<State> {
    if !actor.Has({Operator}) then Err(Forbidden)
    else if !Text(rule.name, 120) || !rule.terms.Valid() || !RuleInRange(rule) then Err(Invalid)
    else if rule.merchant.Some? && AccountError(st, rule.merchant.value, Merchant).Some? then
      Err(AccountError(st, rule.merchant.value, Merchant).value)
    else if rule.effectiveUntil.Some? && rule.effectiveUntil.value <= rule.effectiveFrom then Err(Invalid)
    else Ok(st.(rules := st.rules + [rule.(active := true)]))
  }

  function DisableRule(st: State, actor: Actor, id: nat): Outcome<State> {
    if !actor.Has({Operator}) then Err(Forbidden)
    else if id >= |st.rules| then Err(NotFound)
    else Ok(st.(rules := st.rules[id := st.rules[id].(active := false)]))
  }

  /** The rules a quote may use. */
  predicate Applies(rule: Rule, merchant: AccountId, base: int, now: int) {
    && rule.active && (rule.merchant == None || rule.merchant == Some(merchant))
    && rule.minBase <= base && (rule.maxBase.Some? ==> base < rule.maxBase.value)
    && rule.effectiveFrom <= now && (rule.effectiveUntil.Some? ==> now < rule.effectiveUntil.value)
  }

  /** A merchant's own rule goes before a general one, then the higher priority wins. */
  predicate Precedes(r: Rule, s: Rule) {
    if r.merchant.Some? != s.merchant.Some? then r.merchant.Some? else r.priority > s.priority
  }

  /** The query's choice: the first applicable rule in its order, the newest version last to lose. */
  function ChooseRule(rules: seq<Rule>, merchant: AccountId, base: int, now: int): Option<nat> {
    if rules == [] then None
    else
      var last := |rules| - 1;
      var best := ChooseRule(rules[..last], merchant, base, now);
      if !Applies(rules[last], merchant, base, now) then best
      else if best.Some? && best.value < last && Precedes(rules[best.value], rules[last]) then best
      else Some(last)
  }

  /** A rule is chosen exactly when an active one, of the merchant or of nobody, covers base
      and time; the chosen one does, and every other such rule is general where it is the
      merchant's, or of lower priority, or older. */
  lemma {:induction false} ChooseRuleIsBest(rules: seq<Rule>, merchant: AccountId, base: int, now: int)
    ensures var c := ChooseRule(rules, merchant, base, now);
            var covers := (r: Rule) =>
              && r.active && r.merchant in {None, Some(merchant)}
              && r.minBase <= base && (r.maxBase.Some? ==> base < r.maxBase.value)
              && r.effectiveFrom <= now && (r.effectiveUntil.Some? ==> now < r.effectiveUntil.value);
            && (c.Some? <==> exists i :: 0 <= i < |rules| && covers(rules[i]))
            && (c.Some? ==>
                  && c.value < |rules| && covers(rules[c.value])
                  && forall i :: 0 <= i < |rules| && i != c.value && covers(rules[i]) ==>
                       var best, other := rules[c.value], rules[i];
                       || (best.merchant == Some(merchant) && other.merchant == None)
                       || (best.merchant == other.merchant && best.priority > other.priority)
                       || (best.merchant == other.merchant && best.priority == other.priority && i < c.value))
  {
    if rules != [] {
      var last := |rules| - 1;
      ChooseRuleIsBest(rules[..last], merchant, base, now);
      assert forall i :: 0 <= i < last ==> rules[..last][i] == rules[i];
    }
  }

  datatype Quoted = Quoted(rule: nat, direct: Option<AccountId>, indirect: Option<AccountId>, split: Split)

  predicate IsActivePromoter(st: State, a: AccountId) {
    a in st.accounts && st.accounts[a].active && st.accounts[a].kind == Promoter
  }

  function DirectOf(st: State, customer: Option<string>): Option<AccountId> {
    if customer.Some? && customer.value in st.bindings && IsActivePromoter(st, st.bindings[customer.value])
    then Some(st.bindings[customer.value]) else None
  }

  function IndirectOf(st: State, direct: Option<AccountId>): Option<AccountId> {
    if direct.Some? && direct.value in st.accounts
       && st.accounts[direct.value].parent.Some? && IsActivePromoter(st, st.accounts[direct.value].parent.value)
    then st.accounts[direct.value].parent else None
  }

  /** `quote_in`. */
  function Quote(st: State, merchant: AccountId, customer: Option<string>, paid: Money, base: Money, now: int): Outcome<Quoted> {
    if AccountError(st, merchant, Merchant).Some? then Err(AccountError(st, merchant, Merchant).value)
    else if !Positive(paid) || base < 0 || base > paid then Err(Invalid)
    else
      var rule := ChooseRule(st.rules, merchant, base, now);
      if rule == None || rule.value >= |st.rules| then Err(Conflict)
      else if customer.Some? && !Text(customer.value, 96) then Err(Invalid)
      else
        var direct := DirectOf(st, customer);
        var indirect := IndirectOf(st, direct);
        match SplitPaid(paid, base, st.rules[rule.value].terms, direct.Some?, indirect.Some?)
        case Err(e) => Err(e)
        case Ok(split) => Ok(Quoted(rule.value, direct, indirect, split))
  }

  // -------------------------------------------------------------------- orders

  datatype CaptureInput = CaptureInput(
    externalId: string, cny: bool, merchant: AccountId, customer: Option<string>, paid: Money, base: Money)

  /** The allocation rows of a captured order, in ordinal order. */
  function AllocationsFor(q: Quoted, merchant: AccountId): seq<Allocation> {
    (if q.direct.Some? then [Allocation(Direct, q.direct.value, q.split.direct, 0)] else [])
    + (if q.indirect.Some? then [Allocation(Indirect, q.indirect.value, q.split.indirect, 0)] else [])
    + [Allocation(PlatformSlot, PLATFORM, q.split.platform, 0), Allocation(MerchantSlot, merchant, q.split.merchant, 0)]
  }

  /** One posting line for each allocation. */
  function LinesOf(allocations: seq<Allocation>, line: Allocation -> Line): seq<Line> {
    seq(|allocations|, i requires 0 <= i < |allocations| => line(allocations[i]))
  }

  function FreezeLine(): Allocation -> Line {
    (p: Allocation) => Line(p.account, Frozen, p.original)
  }

  function CaptureLines(paid: int, allocations: seq<Allocation>): seq<Line> {
    [Line(CLEARING, Available, -paid)] + LinesOf(allocations, FreezeLine())
  }

  ghost function Capture(st: State, actor: Actor, now: int, input: CaptureInput): Outcome<State> {
    if !actor.Has({Operator, Integrator}) then Err(Forbidden)
    else if !Text(input.externalId, 96) || !input.cny then Err(Invalid)
    else if input.customer.Some? && !Text(input.customer.value, 96) then Err(Invalid)
    else
      match Quote(st, input.merchant, input.customer, input.paid, input.base, now)
      case Err(e) => Err(e)
      case Ok(q) =>
        if exists i :: 0 <= i < |st.orders| && st.orders[i].externalId == input.externalId then Err(Duplicate)
        else
          var order := Order(input.externalId, input.merchant, input.customer, input.paid, input.base, q.split.feePool,
                             0, q.rule, now + st.rules[q.rule].terms.freezeSeconds, None, AllocationsFor(q, input.merchant));
          match Post(st.books, Posting(OrderCaptured(|st.orders|), CaptureJournal, Some(actor.id),
                                       CaptureLines(input.paid, order.allocations)))
          case Err(e) => Err(e)
          case Ok(books) => Ok(st.(orders := st.orders + [order], books := books))
  }

  datatype RefundInput = RefundInput(externalId: string, amount: Money, reason: string)

  function Originals(allocations: seq<Allocation>): seq<int> {
    seq(|allocations|, i requires 0 <= i < |allocations| => allocations[i].original)
  }

  /** The allocations with their cumulative refunds replaced by `targets`. */
  function Retarget(allocations: seq<Allocation>, targets: seq<int>): seq<Allocation>
    requires |targets| == |allocations|
  {
    seq(|allocations|, i requires 0 <= i < |allocations| => allocations[i].(refunded := targets[i]))
  }

  function RefundLines(order: Order, amount: int, targets: seq<int>): seq<Line>
    requires |targets| == |order.allocations|
  {
    var parts := order.allocations;
    [Line(CLEARING, Available, amount)]
    + seq(|parts|, i requires 0 <= i < |parts| => Line(parts[i].account, Holding(order), -(targets[i] - parts[i].refunded)))
  }

  /** The bucket an order's allocations are held in. */
  function Holding(order: Order): Bucket {
    if order.releasedAt.Some? then Available else Frozen
  }

  ghost function Refund(st: State, actor: Actor, id: nat, input: RefundInput): Outcome<State> {
    if !actor.Has({Operator, Integrator}) then Err(Forbidden)
    else if !Text(input.externalId, 96) || !Text(input.reason, 400) || !Positive(input.amount) then Err(Invalid)
    else if id >= |st.orders| then Err(NotFound)
    else
      var order := st.orders[id];
      var cumulative := order.refunded + input.amount;
      if !InI64(cumulative) then Err(Invalid)
      else if cumulative > order.paid then Err(Conflict)
      else if !Refundable(Originals(order.allocations), cumulative) then Err(Invalid)
      else
        var targets := Apportion(Originals(order.allocations), cumulative);
        if exists i :: 0 <= i < |targets| && targets[i] < order.allocations[i].refunded then Err(Internal)
        else if exists i :: 0 <= i < |st.refunds| && st.refunds[i].externalId == input.externalId then Err(Duplicate)
        else
          match Post(st.books, Posting(OrderRefunded(|st.refunds|), RefundJournal, Some(actor.id),
                                       RefundLines(order, input.amount, targets)))
          case Err(e) => Err(e)
          case Ok(books) =>
            Ok(st.(orders := st.orders[id := order.(refunded := cumulative, allocations := Retarget(order.allocations, targets))],
                   refunds := st.refunds + [RefundRow(id, input.externalId, input.amount, cumulative, input.reason)],
                   books := books))
  }

  function ReleaseLines(allocations: seq<Allocation>): seq<Line> {
    if allocations == [] then []
    else
      var net := allocations[0].original - allocations[0].refunded;
      [Line(allocations[0].account, Frozen, -net), Line(allocations[0].account, Available, net)]
      + ReleaseLines(allocations[1..])
  }

  /** `release_locked`: releasing a released order changes nothing. */
  ghost function ReleaseLocked(st: State, actor: Option<ActorId>, now: int, id: nat): Outcome<State>
    requires id < |st.orders|
  {
    var order := st.orders[id];
    if order.releasedAt.Some? then Ok(st)
    else if now < order.unlockAt then Err(Conflict)
    else
      match Post(st.books, Posting(OrderReleased(id), ReleaseJournal, actor, ReleaseLines(order.allocations)))
      case Err(e) => Err(e)
      case Ok(books) => Ok(st.(orders := st.orders[id := order.(releasedAt := Some(now))], books := books))
  }

  ghost function Release(st: State, actor: Actor, now: int, id: nat): Outcome<State> {
    if !actor.Has({Operator, Finance}) then Err(Forbidden)
    else if id >= |st.orders| then Err(NotFound)
    else ReleaseLocked(st, Some(actor.id), now, id)
  }

  predicate Due(orders: seq<Order>, now: int, skip: set<nat>, i: nat) {
    i < |orders| && orders[i].releasedAt == None && orders[i].unlockAt <= now && i !in skip
  }

  /** The order the worker takes: the earliest to unlock among the due ones it can lock. */
  ghost predicate FirstDue(orders: seq<Order>, now: int, skip: set<nat>, i: nat) {
    && Due(orders, now, skip, i)
    && forall j: nat :: Due(orders, now, skip, j) ==>
         orders[i].unlockAt < orders[j].unlockAt || (orders[i].unlockAt == orders[j].unlockAt && i <= j)
  }

  lemma FirstDueUnique(orders: seq<Order>, now: int, skip: set<nat>, i: nat, j: nat)
    requires FirstDue(orders, now, skip, i) && FirstDue(orders, now, skip, j)
    ensures i == j
  {
  }

  /** `release_one_due`; `skip` are the orders other transactions hold locked. */
  ghost function ReleaseOneDue(st: State, now: int, skip: set<nat>): Outcome<State> {
    if exists i: nat :: FirstDue(st.orders, now, skip, i) then
      var i: nat :| FirstDue(st.orders, now, skip, i);
      ReleaseLocked(st, None, now, i)
    else Ok(st)
  }

  // ------------------------------------------------------------------- payouts

  datatype PayoutInput = PayoutInput(externalId: string, account: AccountId, amount: Money, destination: string)

  /** Moving an amount between two cells. */
  function Transfer(from: AccountId, fromBucket: Bucket, to: AccountId, toBucket: Bucket, amount: int): seq<Line> {
    [Line(from, fromBucket, -amount), Line(to, toBucket, amount)]
  }

  ghost function RequestPayout(st: State, actor: Actor, input: PayoutInput): Outcome<State> {
    if !actor.Has({Operator, Member}) then Err(Forbidden)
    else if !actor.MaySee(input.account) then Err(NotFound)
    else if !Text(input.externalId, 96) || !Text(input.destination, 160) || !Positive(input.amount) then Err(Invalid)
    else if input.account !in st.accounts then Err(NotFound)
    else if !st.accounts[input.account].active || st.accounts[input.account].kind == ClearingAccount then Err(Conflict)
    else if input.account !in st.books.wallets then Err(NotFound)
    else if st.books.wallets[input.account].available < input.amount then Err(Conflict)
    else if exists i :: 0 <= i < |st.payouts| && st.payouts[i].externalId == input.externalId then Err(Duplicate)
    else
      var payout := Payout(input.externalId, input.account, input.amount, input.destination, Requested, actor.id, None, None, None);
      match Post(st.books, Posting(PayoutReserved(|st.payouts|), PayoutReserve, Some(actor.id),
                                   Transfer(input.account, Available, input.account, Reserved, input.amount)))
      case Err(e) => Err(e)
      case Ok(books) => Ok(st.(payouts := st.payouts + [payout], books := books))
  }

  ghost function Approve(st: State, actor: Actor, id: nat): Outcome<State> {
    if !actor.Has({Finance}) then Err(Forbidden)
    else if id >= |st.payouts| then Err(NotFound)
    else
      var p := st.payouts[id];
      if p.status != Requested || p.requestedBy == actor.id then Err(Conflict)
      else if p.account !in st.books.wallets then Err(NotFound)
      else if st.books.wallets[p.account].available < 0 then Err(Conflict)
      else Ok(st.(payouts := st.payouts[id := p.(status := Approved, approvedBy := Some(actor.id))]))
  }

  ghost function Process(st: State, actor: Actor, id: nat, reason: string): Outcome<State> {
    if !actor.Has({Finance}) then Err(Forbidden)
    else if !Text(reason, 400) then Err(Invalid)
    else if id >= |st.payouts| then Err(NotFound)
    else
      var p := st.payouts[id];
      if p.status != Approved || p.requestedBy == actor.id then Err(Conflict)
      else if p.account !in st.books.wallets then Err(NotFound)
      else if st.books.wallets[p.account].available < 0 then Err(Conflict)
      else Ok(st.(payouts := st.payouts[id := p.(status := Processing, evidence := Some(reason))]))
  }

  ghost function Reject(st: State, actor: Actor, id: nat, reason: string): Outcome<State> {
    if !actor.Has({Finance}) then Err(Forbidden)
    else if !Text(reason, 400) then Err(Invalid)
    else if id >= |st.payouts| then Err(NotFound)
    else
      var p := st.payouts[id];
      if p.status !in {Requested, Approved} then Err(Conflict)
      else
        match Post(st.books, Posting(PayoutRejected(id), PayoutReject, Some(actor.id),
                                     Transfer(p.account, Reserved, p.account, Available, p.amount)))
        case Err(e) => Err(e)
        case Ok(books) => Ok(st.(payouts := st.payouts[id := p.(status := Rejected, evidence := Some(reason))], books := books))
  }

  datatype OutcomeInput = OutcomeInput(status: Status, providerReference: Option<string>, evidence: string)

  ghost function Conclude(st: State, actor: Actor, id: nat, input: OutcomeInput): Outcome<State> {
    if !actor.Has({Finance}) then Err(Forbidden)
    else if !Text(input.evidence, 1000) || input.status !in {Succeeded, Failed, Unknown} then Err(Invalid)
    else if input.providerReference.Some? && !Text(input.providerReference.value, 160) then Err(Invalid)
    else if input.status == Succeeded && input.providerReference == None then Err(Invalid)
    else if id >= |st.payouts| then Err(NotFound)
    else
      var p := st.payouts[id];
      if p.status !in {Processing, Unknown} || p.requestedBy == actor.id then Err(Conflict)
      else
        var posted := if input.status == Unknown then Ok(st.books) else
          Post(st.books, Posting(PayoutClosed(id), if input.status == Succeeded then PayoutPaid else PayoutFailed, Some(actor.id),
                                 Transfer(p.account, Reserved, if input.status == Succeeded then CLEARING else p.account,
                                          Available, p.amount)));
        match posted
        case Err(e) => Err(e)
        case Ok(books) =>
          if input.providerReference.Some?
             && exists i :: 0 <= i < |st.payouts| && i != id && st.payouts[i].providerReference == input.providerReference
          then Err(Duplicate)
          else
            var reference := if input.providerReference.Some? then input.providerReference else p.providerReference;
            Ok(st.(payouts := st.payouts[id := p.(status := input.status, providerReference := reference,
                                                  evidence := Some(input.evidence))],
                   books := books))
  }

  // ---------------------------------------------------------------------- runs

  datatype Op =
    | OpCreateAccount(id: AccountId, externalId: string, name: string, kind: AccountKind, parent: Option<AccountId>)
    | OpBindReferral(customer: string, promoter: AccountId)
    | OpCreateRule(rule: Rule)
    | OpDisableRule(ruleId: nat)
    | OpCapture(capture: CaptureInput)
    | OpRefund(order: nat, refund: RefundInput)
    | OpRelease(order: nat)
    | OpReleaseOneDue(skip: set<nat>)
    | OpRequestPayout(request: PayoutInput)
    | OpApprove(payout: nat)
    | OpProcess(payout: nat, reason: string)
    | OpReject(payout: nat, reason: string)
    | OpConclude(payout: nat, outcome: OutcomeInput)

  /** One call by `actor` at time `now`. */
  datatype Call = Call(actor: Actor, now: int, op: Op)

  ghost function Step(st: State, c: Call): Outcome<State> {
    match c.op
    case OpCreateAccount(id, externalId, name, kind, parent) => CreateAccount(st, c.actor, id, externalId, name, kind, parent)
    case OpBindReferral(customer, promoter) => BindReferral(st, c.actor, customer, promoter)
    case OpCreateRule(rule) => CreateRule(st, c.actor, rule)
    case OpDisableRule(id) => DisableRule(st, c.actor, id)
    case OpCapture(input) => Capture(st, c.actor, c.now, input)
    case OpRefund(id, input) => Refund(st, c.actor, id, input)
    case OpRelease(id) => Release(st, c.actor, c.now, id)
    case OpReleaseOneDue(skip) => ReleaseOneDue(st, c.now, skip)
    case OpRequestPayout(input) => RequestPayout(st, c.actor, input)
    case OpApprove(id) => Approve(st, c.actor, id)
    case OpProcess(id, reason) => Process(st, c.actor, id, reason)
    case OpReject(id, reason) => Reject(st, c.actor, id, reason)
    case OpConclude(id, input) => Conclude(st, c.actor, id, input)
  }

  /** A failed call rolls its transaction back. */
  ghost function After(st: State, c: Call): State {
    if Step(st, c).Ok? then Step(st, c).value else st
  }

  ghost function Run(st: State, calls: seq<Call>): State {
    if calls == [] then st else After(Run(st, calls[..|calls| - 1]), calls[|calls| - 1])
  }

  ghost predicate Reachable(st: State) {
    exists calls :: Run(INITIAL, calls) == st
  }
}

# Commission and settlement: a verified model

A Dafny model of the commission back end and its crash-safe write client, with proofs of the
properties the system is built around. `dafny verify dfyconfig.toml` checks everything.

## What is modelled

**The financial state machine.** `Model` gives the whole database state (accounts, rules,
referrals, orders with allocations, refunds, payouts, journals, three-bucket wallets) and every
service call on it as a function that either returns the new state or an error; `Ledger` gives
`post` with its combining map, wallet triggers, CHECKs, UNIQUE event keys and BIGINT range;
`Domain` the fee split and the nested-floor refund apportionment. `Backend.Database` is the same
calls as methods that change rows step by step, loop by loop, each proved against its function
and to keep the invariant. `Invariants`, `Postings` and `StepProofs` show that every call keeps
it; `Runs`, `Overflow` and `History` state what follows for every run. `Effects` and
`Commissions` say of each call exactly when it goes through and what it leaves behind, and
`Refusals` what each error means and `Footprints` what each call leaves alone; `Commissions` also
keeps every order attributed over every run, `Numbers` the business numbers and provider
references unique, and `Worker` drains the due orders.

**The client write protocol.** `Bridge` models `NativeBridge`: its locked state, its two-file
store with every way a file operation can end, and each of its operations (the class
`Bridge.NativeBridge`, proved against the transition functions). `Idempotency` models the
server's idempotency table. `Protocol` puts client, disk, network and servers into one
transition system with crashes at any point and messages lost, late or repeated;
`ProtocolSteps` proves its invariant and `ProtocolRuns` the theorems over every run;
`ClientCalls` says when each call of the client is taken and what an answer makes of a write.
`EndToEnd` puts the financial database behind one of its servers.

**Platform sync.** `SyncWindows` models window progression and the checkpoint
compare-and-advance for any number of concurrent workers, and the pages of a window;
`Projection` models the timestamp-guarded upserts.

**Smaller parts.** `Roles` compares the client's routes and role checks with the server's;
`MoneyText` is the text forms of money, `Outbox` the lease protocol of event delivery, `Locks`
the order in which concurrent transactions take their locks, and `Deadlocks` when they deadlock.

## What does not hold, and what holds instead

- *A rejected write has had no effect.* It may have one, or get one later:
  `ProtocolRuns.RejectedHappens` reaches Rejected without an effect and
  `ProtocolRuns.RejectedMayCommit` commits it afterwards, from every such state. What holds is
  exact: a discarded write never takes effect if and only if it was still Prepared
  (`ProtocolRuns.DiscardIsFinal`).
- *An interrupted write can always be resumed.* A `CreateAccount` body that leaves out
  `parent_id` grows when it is printed again, and `restore` refuses one above 60 KiB that
  `prepare` accepted (`Bridge.RestoreMayRefuse`), which then keeps every session out for good
  (`ProtocolRuns.LockoutHappens`). What holds is exact: after an interruption, on a disk that
  loads, the write can be brought to success, and a session opened at all, if and only if the
  stored body is within the limit (`ProtocolRuns.InterruptedWriteCanFinish`,
  `ProtocolRuns.InterruptedClientCanLogIn`).
- *A crash leaves a store that loads.* A half-written `.next` without a main file is an error,
  even when nothing was ever sent (`ProtocolRuns.HalfWrittenStoreHappens`); loading fails if and
  only if the disk is in that state (`ProtocolRuns.StoreLoadsUnlessHalfWritten`).
- *The checkpoint comparison serialises workers.* Not while the row is missing
  (`SyncWindows.FirstSyncsRace`). A commit replaces exactly the checkpoint its worker saw if and
  only if it saw one or there still is none (`SyncWindows.CommitReplacesWhatItSawIff`), and it
  moves the end back if and only if its worker saw none, there is one now, and it reaches beyond
  the worker's clock reading (`SyncWindows.PutsBackIff`).
- *The projection does not depend on arrival order.* It does on ties
  (`Projection.StatusDependsOnTies`), and in the COALESCE columns without them
  (`Projection.KnownDependsOnOrder`). The overwritten columns are the same for every order if and
  only if no two different arrivals share the greatest timestamp, or the row is newer
  (`Projection.CurrentIgnoresOrderIff`); the COALESCE columns if and only if every field reported
  by an arrival not older than the row is reported alike by the newest arrivals, or by none of
  them and stands in the row with that value (`Projection.KnownIgnoresOrderIff`).
- *A window's end never goes back.* It does not if and only if the clock did not
  (`SyncWindows.EndGoesBackIff`).
- *No call ends in an internal error.* A wallet column leaving the BIGINT range does, as its
  SQLSTATE is none the service translates (src/error.rs:49-59). It is kept apart here as
  `OutOfRange`; a call ends in it if and only if everything else about it is in order and its
  posting takes a column out of range (`Overflow.OverflowIff`), and some reachable state has such
  a call (`OverflowRun.OverflowHappens`).
- *A provider reference once recorded is never taken for another payout.* That holds once the
  payout succeeded or failed with it (`Numbers.ClosedReferencesAreFinal`). The reference of an
  unknown outcome can be replaced by a later outcome of the same payout, and is then free
  (`ReferenceRun.ReplacedReferenceIsFree`). At any time a reference is refused if and only if
  another payout holds it then (`Effects.ConcludeEffect`), and no two payouts ever hold the same
  one (`Numbers.NumbersAreUnique`).
- *No concurrent transactions deadlock.* The idempotency row's foreign key puts a key lock on
  the acting credential's own row, and revoking locks the target's row after the administrators'
  lock. Some transactions deadlock if and only if one revocation that has the administrators'
  lock wants the row of the credential another acts with, and that other is a revocation still
  waiting for the administrators' lock, whatever its own target (`Deadlocks.DeadlockIff`);
  `Deadlocks.RevocationDeadlockHappens` runs into it from nothing. All transactions can still
  commit under some schedule if and only if there is neither such a pair nor a circle of
  revocations, each aimed at the credential another acts with, all next to take the
  administrators' lock (`Deadlocks.EveryoneCanCommitIff`).

## Model

| member | source | states |
|---|---|---|
| Domain.SplitSound | crates/commission-types/src/domain.rs:61-97 | `split` answers exactly on valid requests; its four parts are non-negative and sum to the paid amount; the fee is the floor of the rate plus the fixed fee, limited by base and cap, and never above any of the three; referral shares are floors out of the fee, none without a referral |
| Domain.ApportionConserves | crates/commission-types/src/domain.rs:99-127 | the apportioned parts sum to the refund and each lies between 0 and its share |
| Domain.ApportionMonotone | crates/commission-types/src/domain.rs:99-127 | a larger cumulative refund never lowers a slot and raises it by at most the difference |
| Domain.ApportionEnds | crates/commission-types/src/domain.rs:99-127 | a full refund gives back exactly the shares, a zero refund nothing |
| Domain.RoundingDrift | crates/commission-types/src/domain.rs:111-125 | slot j is never a whole cent below its exact share, slot 0 never above it, slot j >= 1 above it by less than j cents |
| Domain.CumulativeRefund | crates/commission-types/src/domain.rs:103-127 | the loop refuses exactly bad input, otherwise computes the apportionment, and never takes its conversion-error branch |
| Ledger.CombineSound | src/ledger.rs:59-66 | combined entries are non-zero, in wallet order, and change every cell and the total as the raw lines do |
| Ledger.CombineIgnoresOrder | src/ledger.rs:59-66 | the order of a posting's lines does not matter, whatever cells coincide |
| Ledger.PostEffect | src/ledger.rs:59-98 | an accepted posting changes every wallet cell by the sum of its raw lines and appends at most one journal, balanced, with non-zero entries in cell order |
| Ledger.PostSucceedsIff | src/ledger.rs:59-98 | exactly when a posting of any lines goes through: it changes nothing, or it is balanced, within the line count, under a new key, and every cell it changes exists and can take the change within its range and its CHECK |
| Ledger.PostAccepts | src/ledger.rs:67-98 | a balanced posting to known accounts under a new key, short enough, with nets in 64 bits and no protected cell driven below zero, is refused exactly when a wallet cell would leave the BIGINT range |
| Model.TextOfAscii | crates/commission-types/src/model.rs:261-270 | of printable ASCII exactly the texts up to the limit that are not all spaces are taken, and none with a control character |
| Model.ChooseRuleIsBest | src/service/catalog.rs:165-184 | a rule is chosen exactly when an active one, of the merchant or of nobody, covers base and time; the chosen one does, and every other such rule is general where it is the merchant's, or of lower priority, or older |
| StepProofs.PostStep | migrations/0001_initial.sql:184-214 | a posting that moves money as its rows do keeps books, journals and debt bound in order, and fails exactly for an overflow |
| StepProofs.CaptureKeeps | src/service/orders.rs:14-88 | capturing keeps the invariant, and the capture posting built from a split is never unbalanced |
| StepProofs.RefundKeeps | src/service/orders.rs:107-188 | refunding keeps the invariant; the negative-delta and internal-error branches are unreachable |
| StepProofs.ReleaseLockedKeeps | src/service/orders.rs:190-231 | releasing keeps the invariant, also for a fully refunded order whose posting is empty |
| StepProofs.RequestPayoutKeeps | src/service/payouts.rs:13-63 | requesting a payout keeps the invariant |
| StepProofs.ConcludeKeeps | src/service/payouts.rs:190-257 | recording an outcome keeps the invariant and never repeats an event key |
| StepProofs.StepKeeps | src/service/orders.rs:14-260 | every service call, whatever its actor, time and arguments, keeps the invariant, or fails with a refusal of the request or an overflow |
| Runs.ReachableSound | src/service/payouts.rs:13-257 | the invariant holds after every run of calls |
| Runs.CallsNeverBreak | migrations/0001_initial.sql:14-20 | in a reachable state no call ends in a repeated event key, a violated CHECK, or an internal error other than an overflow |
| Overflow.OverflowIff | src/error.rs:49-61 | a call in a reachable state ends in an overflow exactly if it passes all its own checks and its posting takes a wallet column out of range; without that it goes through, but for an outcome whose reference is taken |
| OverflowRun.OverflowHappens | src/error.rs:49-60 | some call in some reachable state ends in an overflow |
| Runs.RefundSucceedsIff | src/service/orders.rs:107-188 | exactly when a refund goes through |
| Runs.ReachableReconciles | src/service/queries.rs:203-249 | all five conditions of `reconcile` hold in every reachable state |
| Runs.WalletsHaveClosedForm | src/service/queries.rs:203-249 | every bucket of every wallet, from orders and payouts alone |
| Runs.MoneyIsConserved | src/service/queries.rs:203-249 | all buckets of all wallets add up to zero in every reachable state |
| Runs.DebtBound | migrations/0001_initial.sql:14-20 | frozen and reserved are never negative, and an account owes at most what refunds took from it after release |
| Runs.PathIndependence | src/service/orders.rs:131-230 | reachable states that agree on refunded totals, release flags and payout states agree on every allocation and every wallet |
| Runs.RefundsAddUp | src/service/orders.rs:107-188 | refunding in two calls leaves the orders and wallets one call for the sum leaves |
| Runs.RefundReleaseCommute | src/service/orders.rs:107-231 | refund then release and release then refund leave the same orders' allocations and wallets |
| Runs.PayoutJournals | src/service/payouts.rs:46-257 | every payout has exactly one reserving journal, and exactly one closing journal if and only if it is rejected, succeeded or failed |
| Runs.PayoutsAreReviewed | src/service/payouts.rs:73-95 | a payout past review was approved by somebody other than its requester, a succeeded one has a provider reference |
| Effects.RequestPayoutEffect | src/service/payouts.rs:13-63 | exactly when a payout request goes through; then one payout more, waiting for review, with the request's data, and its amount moved from available to reserved under one new journal |
| Effects.ApproveEffect | src/service/payouts.rs:73-95 | exactly when a payout is approved, never by its requester nor while the account is in debt, and what that changes |
| Effects.ProcessEffect | src/service/payouts.rs:97-136 | exactly when an approved payout is processed, never while the account is in debt, and what that changes |
| Effects.RejectEffect | src/service/payouts.rs:138-188 | exactly when a payout is rejected; its reserve goes back to the account under one new journal |
| Effects.ConcludeEffect | src/service/payouts.rs:190-257 | exactly when an outcome is taken; unknown moves nothing, a success sends the reserve out through clearing, a failure back to the account |
| Effects.RefundEffect | src/service/orders.rs:107-188 | an accepted refund leaves one more row with the request's number, amount and reason and the new total, the order and its allocations refunded that far, and one journal of the difference |
| Effects.ReleaseLockedEffect | src/service/orders.rs:190-231 | but for an overflow a release goes through exactly on a released order, changing nothing, or one whose time has come, whose net shares thaw under one journal unless nothing is left of them |
| Effects.ReleaseEffect | src/service/orders.rs:233-242 | the manual release, in those terms and by whom |
| Effects.WalletsInRange | migrations/0001_initial.sql:14-20 | over every run each wallet column stays in its range and above its CHECK |
| Worker.ReleaseOneDueEffect | src/service/orders.rs:245-260 | one worker call releases the first to unlock of the due orders nobody else holds, and does nothing exactly if there is none |
| Worker.WorkerDrains | src/service/orders.rs:245-260 | as many calls as orders are due release them all, unless one of them overflows a wallet column |
| Commissions.CreateAccountEffect | src/service/catalog.rs:28-64 | exactly when an account is created, and with what |
| Commissions.BindReferralEffect | src/service/catalog.rs:66-98 | exactly when a customer is bound: once, before the first order, to an active promoter |
| Commissions.CreateRuleEffect | src/service/catalog.rs:100-142 | exactly when a rule is published, as the newest version |
| Commissions.DisableRuleEffect | src/service/catalog.rs:144-156 | exactly when a rule is disabled, and that nothing else changes |
| Commissions.CaptureEffect | src/service/orders.rs:14-88 | exactly when a capture goes through, but for an overflow; then one order more with the request's data, priced by the chosen rule, locked for its period, shared out as the catalog says, and its shares frozen under one new journal |
| Commissions.OrdersAreAttributed | src/service/catalog.rs:165-216 | over every run the catalog's foreign keys and CHECKs hold, and every order's fee and shares are those of its rule's terms and of the promoter its customer is bound to now, and that one's parent |
| Numbers.NumbersAreUnique | migrations/0001_initial.sql:99-122 | in every reachable state no two accounts, orders, refunds or payouts have the same number, and no two payouts the same provider reference |
| Numbers.OrderNumbersAreFinal | src/service/orders.rs:39-46 | after a capture under a number none ever succeeds under it again, whatever comes between |
| Numbers.RefundNumbersAreFinal | src/service/orders.rs:165-167 | after a refund under a number none ever succeeds under it again, on any order |
| Numbers.PayoutNumbersAreFinal | src/service/payouts.rs:41-45 | after a payout request under a number none ever succeeds under it again, even if it was rejected or failed |
| Numbers.AccountNumbersAreFinal | src/service/catalog.rs:52-56 | an account's number is never given to another |
| Numbers.ClosedReferencesAreFinal | src/service/payouts.rs:249-254 | the reference of a succeeded or failed payout is never taken for another |
| ReferenceRun.ReplacedReferenceIsFree | src/service/payouts.rs:249-254 | a run in which the reference of an unknown outcome is replaced and then taken for another payout |
| Refusals.AccountRefusals | src/service/catalog.rs:12-64 | a refused account creation has the fault its error names |
| Refusals.ReferralRefusals | src/service/catalog.rs:66-98 | likewise for binding a customer |
| Refusals.CaptureRefusals | src/service/orders.rs:14-88 | likewise for a capture and its quote |
| Refusals.RefundRefusals | src/service/orders.rs:107-188 | likewise for a refund |
| Refusals.ReleaseRefusals | src/service/orders.rs:190-242 | likewise for a manual release |
| Refusals.RequestRefusals | src/service/payouts.rs:13-63 | likewise for a payout request |
| Refusals.ReviewRefusals | src/service/payouts.rs:73-188 | likewise for approving, processing and rejecting |
| Refusals.OutcomeRefusals | src/service/payouts.rs:190-257 | likewise for an outcome |
| History.StepFollows | migrations/0001_initial.sql:216-254 | no call changes what the append-only and original-field triggers guard, so they never fire |
| History.RunFollows | migrations/0001_initial.sql:216-254 | the same over whole runs: journals and refunds are only appended, refund totals only grow, released orders and closed payouts stay so |
| History.PayoutEdges | src/service/payouts.rs:73-257 | one call moves a payout along at most one edge of its state machine, and every edge towards paying is taken by somebody other than the requester |
| Backend.Database.CombineLines | src/ledger.rs:59-66 | the accumulate-and-retain loop computes the combined entries |
| Backend.Database.Post | src/ledger.rs:59-98 | statement by statement, exactly the specified effect or the specified error; after an error the callers roll everything back |
| Backend.Database.CreateAccount | src/service/catalog.rs:28-64 | row by row as specified; a failed call changes nothing |
| Backend.Database.BindReferral | src/service/catalog.rs:66-98 | row by row as specified; a binding is never replaced nor added after the first order |
| Backend.Database.CreateRule | src/service/catalog.rs:100-142 | row by row as specified |
| Backend.Database.DisableRule | src/service/catalog.rs:144-156 | row by row as specified |
| Backend.Database.InsertAllocations | src/service/orders.rs:47-69 | the loop inserts one allocation per beneficiary and builds the posting that freezes them |
| Backend.Database.Capture | src/service/orders.rs:14-88 | row by row as specified, keeping the invariant; a failed call changes nothing |
| Backend.Database.RaiseRefunds | src/service/orders.rs:143-164 | the loop sets every allocation to its target and builds the posting of the differences |
| Backend.Database.Refund | src/service/orders.rs:107-188 | row by row as specified, keeping the invariant; a failed call changes nothing |
| Backend.MoveLines | src/service/orders.rs:205-211 | the loop builds the lines that move each allocation's net from frozen to available |
| Backend.Database.ReleaseLocked | src/service/orders.rs:190-231 | row by row as specified; releasing twice changes nothing |
| Backend.Database.Release | src/service/orders.rs:233-242 | the manual release |
| Backend.Database.ReleaseOneDue | src/service/orders.rs:245-260 | the worker releases the earliest due order no other transaction holds |
| Backend.Database.RequestPayout | src/service/payouts.rs:13-63 | row by row as specified, keeping the invariant; a failed call changes nothing |
| Backend.Database.Approve | src/service/payouts.rs:73-95 | row by row as specified, keeping the invariant |
| Backend.Database.Process | src/service/payouts.rs:97-136 | row by row as specified, keeping the invariant |
| Backend.Database.Reject | src/service/payouts.rs:138-188 | row by row as specified, keeping the invariant |
| Backend.Database.Conclude | src/service/payouts.rs:190-257 | row by row as specified, keeping the invariant |
| Bridge.RoutesAreDistinct | crates/commission-client/src/lib.rs:166-224 | every operation has a route of its own, with a target exactly where it has an action |
| Roles.RolesAgree | crates/commission-client/src/lib.rs:179-192 | for the twelve operations on accounts, rules, orders and payouts, the client lets an actor prepare one exactly if the server does not forbid the call behind it |
| Roles.CredentialRolesAgree | src/service/catalog.rs:228-247 | the same for the two operations on credentials, which are for administrators |
| Roles.RoutesReachTheirHandlers | src/http/mod.rs:56-81 | what the client encodes reaches the handler of its own operation with its target, and no other path reaches that handler |
| Bridge.RestoreIsFaithful | crates/commission-client/src/lib.rs:328-363 | a prepared write restored under a new session has the same path, key and body, unless its body is above the limit |
| Bridge.RestoreMayRefuse | crates/commission-client/src/lib.rs:328-350 | a `CreateAccount` body without `parent_id` can be prepared and, printed with the null, no longer be restored |
| Bridge.NativeBridge.WriteStore | crates/commission-client/src/native.rs:120-147 | the file operations, one by one, leave exactly the specified disk however each of them ends |
| Bridge.NativeBridge.ClearStore | crates/commission-client/src/native.rs:149-161 | likewise for clearing both files |
| Bridge.NativeBridge.LoginFirst | crates/commission-client/src/native.rs:163-187 | login up to its network call |
| Bridge.NativeBridge.LoginSecond | crates/commission-client/src/native.rs:189-231 | login after it: a stale answer or another identity is refused; the stored write becomes pending, Unknown exactly if attempted |
| Bridge.NativeBridge.LogOut | crates/commission-client/src/native.rs:233-242 | logout, refused while a write is pending |
| Bridge.NativeBridge.Prepare | crates/commission-client/src/native.rs:287-327 | nothing changes in memory unless the record is on disk |
| Bridge.NativeBridge.ExecuteFirst | crates/commission-client/src/native.rs:329-366 | a known result is replayed; otherwise nothing is sent before attempted=true is on disk |
| Bridge.NativeBridge.ExecuteSecond | crates/commission-client/src/native.rs:368-385 | the answer sets phase and result |
| Bridge.NativeBridge.Discard | crates/commission-client/src/native.rs:387-402 | discarding forgets the write only after both files are gone |
| Idempotency.ServeIsSound | src/transaction.rs:33-123 | over any requests each committed row carries its response, and the audit and outbox events are, one for one, those of the committed rows with their actor, operation and response |
| Idempotency.CompletedOnce | src/transaction.rs:48-85 | once completed, whatever comes in between, the same request is replayed, another one under its key is refused, and nothing changes |
| Idempotency.HandleAnswers | src/transaction.rs:48-85 | which answer a request gets, and that only a completed one changes the table, by its own row and one event in each log |
| Idempotency.FirstSuccessDecides | src/transaction.rs:48-85 | over any requests a new claim is carried out exactly if one of them succeeds, as the first that does; failed ones leave no trace |
| Idempotency.RequestTable.Begin | src/transaction.rs:33-66 | refuses, replays, or opens a transaction with an unanswered row |
| Idempotency.RequestTable.Complete | src/transaction.rs:68-85 | records event and response together; its no-row-updated error cannot happen |
| Idempotency.RequestTable.Request | src/transaction.rs:33-85 | a whole call; a business failure leaves no trace |
| ProtocolSteps.StepKeeps | crates/commission-client/src/native.rs:163-402 | every step of client, disk, network and servers keeps the protocol invariant |
| ProtocolRuns.AtMostOneEffect | src/transaction.rs:33-85 | over every run no key has two committed effects, and every effect is of a message that was sent |
| ProtocolRuns.SucceededMeansOnce | crates/commission-client/src/native.rs:368-385 | phase Succeeded means exactly one effect, of exactly this request, whose recorded response is the cached result |
| ProtocolRuns.EverySendIsThePreparedOne | crates/commission-client/src/native.rs:287-327 | whatever happens after a prepare, every send under its key carries the prepared origin, actor, path, key and body |
| ProtocolRuns.SentRequestsAreFound | crates/commission-client/src/native.rs:106-161 | a sent request not given up is what a restart loads, marked attempted, or loading fails |
| ProtocolRuns.SendIsDurable | crates/commission-client/src/native.rs:348-366 | the same for any continuation of a send without a discard |
| ProtocolRuns.StoreLoadsUnlessHalfWritten | crates/commission-client/src/native.rs:106-118 | loading fails exactly on a half-written `.next` without a main file |
| ProtocolRuns.HalfWrittenStoreHappens | crates/commission-client/src/native.rs:106-147 | that disk is reachable with nothing ever sent |
| ProtocolRuns.SessionsAreSound | crates/commission-client/src/native.rs:163-242 | an installed session is the current generation; a write is pending exactly when a recovery record exists, and they are the same request |
| ProtocolRuns.OneSendAtATime | crates/commission-client/src/native.rs:329-385 | at most one send is in flight, exactly while its write is Sending, and the lookups after the network call cannot fail |
| ProtocolRuns.RecoveryRecordMatches | crates/commission-client/src/native.rs:348-358 | the checks of the recovery record before a send cannot fail |
| ProtocolRuns.NothingOvertakes | crates/commission-client/src/native.rs:163-200 | while a sent request is not given up, no other write can be prepared, and no other server or identity can log in |
| ProtocolRuns.PreparedHasNoEffect | crates/commission-client/src/native.rs:287-366 | a write still Prepared was never sent and has no effect |
| ProtocolRuns.DiscardIsFinal | crates/commission-client/src/native.rs:387-402 | a completed discard guarantees that the write never takes effect if and only if its phase was Prepared |
| ProtocolRuns.RejectedMayCommit | crates/commission-client/src/native.rs:376-380 | in every state with a Rejected write its effect can still be, or already is, committed |
| ProtocolRuns.RejectedHappens | crates/commission-client/src/native.rs:376-380 | Rejected is reachable without any effect |
| ProtocolRuns.InterruptedWriteCanFinish | crates/commission-client/src/native.rs:189-231 | an interrupted sent write on a disk that loads can be brought to success if and only if its body is within the size limit |
| ProtocolRuns.InterruptedClientCanLogIn | crates/commission-client/src/native.rs:189-231 | after such an interruption any session at all can be opened again if and only if the body is within the limit |
| ProtocolRuns.LockoutHappens | crates/commission-client/src/lib.rs:347-350 | a run that sends such a longer body and dies, after which no continuation ever opens a session |
| ClientCalls.AnswerSettles | crates/commission-client/src/native.rs:368-385 | for every held write: Succeeded exactly for a success, Unknown exactly for a lost answer or a status from 500 to 599, Rejected otherwise, and which of them cache the answer |
| ClientCalls.UnknownIsRetried | crates/commission-client/src/native.rs:329-385 | after a lost answer or a server error the write has no result, cannot be discarded, lets nothing else be prepared or logged in, and is sent again as the same message |
| ClientCalls.SettledIsDiscardable | crates/commission-client/src/native.rs:368-402 | after any other answer it is cached, cannot be sent again, and only now can be discarded |
| ClientCalls.PrepareAccepts | crates/commission-client/src/native.rs:287-310 | in a reachable system, exactly when a write is prepared, and which |
| ClientCalls.PrepareStores | crates/commission-client/src/native.rs:310-327 | a prepared write is pending and on disk, not attempted, and is what a restart finds, or else nothing is pending |
| ClientCalls.LoginEnds | crates/commission-client/src/native.rs:189-231 | in a reachable system, exactly when the answer to a login is taken, and what session and pending write it installs |
| ClientCalls.DiscardOrSend | crates/commission-client/src/native.rs:329-402 | in a reachable system a pending write can be discarded exactly if never sent or settled, and sent exactly otherwise, unless it is being sent |
| ClientCalls.WriteStoreLosesNothing | crates/commission-client/src/native.rs:106-147 | however a store write ends, exactly when a restart finds the old record, the new one, or an error |
| EndToEnd.DatabaseIsTheCommittedCalls | src/transaction.rs:30-85 | whatever clients do, crash, retry and deliver, the database is what running the committed calls once each, in order, leaves; those that came by message are the protocol's effects in order; and it reconciles |
| EndToEnd.NoKeyTwice | src/transaction.rs:33-85 | over every history the request of one key is carried out on the database at most once |
| EndToEnd.SucceededMovedItOnce | crates/commission-client/src/native.rs:368-385 | a client that sees Succeeded has had its request carried out there exactly once |
| SyncWindows.NextWindowIsValid | src/platform/taobao/auth.rs:46-60 | from a sound checkpoint the next window is always one the platform accepts |
| SyncWindows.EndGoesBackIff | src/platform/taobao/sync.rs:299-308 | after a finished window the end goes back exactly if the clock did |
| SyncWindows.CatchUp | src/platform/meituan/sync.rs:292-316 | n windows at one `now` move the end to min(end + n * (window - overlap), now) |
| SyncWindows.CommitReplacesWhatItSawIff | src/platform/taobao/sync.rs:90-96 | over every run of any number of workers, a commit replaces exactly the checkpoint its worker saw if and only if it saw one or there still is none |
| SyncWindows.OneHolder | src/platform/taobao/sync.rs:267-282 | at most one worker is past a comparison with a row |
| SyncWindows.PutsBackIff | src/platform/taobao/sync.rs:90-160 | over every run, exactly when a commit moves the end back |
| SyncWindows.FirstSyncsRace | src/platform/taobao/sync.rs:267-282 | with the row missing, a late first sync puts the checkpoint back |
| SyncWindows.WindowsCoverOneInterval | src/platform/taobao/sync.rs:59-174 | over every run after a first committed page the finished windows are valid and cover one interval without a gap |
| SyncWindows.EndNeverGoesBack | src/platform/taobao/sync.rs:59-174 | at no point of such a run does the end go back |
| SyncWindows.PlansAreValid | src/platform/taobao/sync.rs:20-21 | both platforms' windows, overlaps and limits are what the theorems ask for |
| SyncWindows.NextQuery | src/platform/taobao/sync.rs:284-309 | after a page with a next one the next query is for the same window with exactly that page's cursor, whatever the clock says; after a last page it has none, and which window it is for |
| SyncWindows.NewestNeverGoesBack | src/platform/taobao/sync.rs:142-147 | over every run the newest platform time seen is neither lost nor put back |
| SyncWindows.WindowIsPagedThrough | src/platform/meituan/sync.rs:62-182 | consecutive syncs fetch the pages of one window each once and in order until the last |
| SyncWindows.CheckpointRow.SyncNext | src/platform/meituan/sync.rs:62-182 | one sync goes through exactly if the checkpoint is still the one it read and the page says how to go on, and replaces it; otherwise it changes nothing |
| Projection.LatestWins | src/platform/store.rs:69-102 | a row is the last arrival among the newest, or what it was if all are older |
| Projection.CurrentIgnoresOrderIff | src/platform/store.rs:69-88 | exactly when the overwritten columns and the latest observation are the same for every order of arrival |
| Projection.KnownIgnoresOrderIff | src/platform/store.rs:75-84 | exactly when the COALESCE columns are |
| Projection.KnownIgnoresOrderIffNewestReportsAll | src/platform/store.rs:161-185 | into an empty table with one newest arrival: exactly when that one reports every field any arrival reports |
| Projection.StatusDependsOnTies | src/platform/store.rs:76-77 | on a tie the later arrival's status stays |
| Projection.KnownDependsOnOrder | src/platform/store.rs:75-84 | an older report that arrives late is dropped |
| Projection.KnownStays | src/platform/store.rs:161-203 | a known field never returns to NULL, and every known value was there or was reported |
| Projection.FoldTwice | src/platform/store.rs:69-102 | the same arrivals twice in a row make the same row as once |
| Projection.RowsAreFolds | src/platform/store.rs:69-102 | keys do not interfere |
| Projection.ReplayIsIdempotent | src/platform/store.rs:14-204 | replaying any batch right after itself changes neither table |
| Projection.Tables.UpsertObservation | src/platform/store.rs:14-104 | the insert and the guarded upsert together |
| Projection.Tables.UpsertPage | src/platform/taobao/sync.rs:97-116 | the loop over a page |
| MoneyText.FromYuanIff | crates/commission-types/src/money.rs:43-70 | a text is accepted exactly when it is a decimal with at most two fraction digits whose exact amount fits in 64 bits; it is never rounded |
| MoneyText.FormatError | crates/commission-types/src/money.rs:43-55 | the format error, exactly for texts that are no such decimal |
| MoneyText.RangeError | crates/commission-types/src/money.rs:56-70 | the range error, exactly for decimals whose amount does not fit |
| MoneyText.YuanRoundTrip | crates/commission-types/src/money.rs:33-70 | every 64-bit amount, the minimum included, survives printing and parsing |
| MoneyText.NormalForm | crates/commission-types/src/money.rs:33-70 | printing what was parsed is a normal form, and exactly which texts are normal |
| MoneyText.WireRoundTrip | crates/commission-types/src/money.rs:11-25 | the wire form round-trips |
| MoneyText.FromWireIff | crates/commission-types/src/money.rs:16-25 | the wire form accepts exactly signed digits in range |
| Outbox.OldestFirst | src/service/outbox.rs:32-38 | a ready unlocked event is left out of a claim only by a full batch of older ones |
| Outbox.FreeEventsAreHandedOut | src/service/outbox.rs:26-39 | which claims are answered, and that one hands out every undelivered event without a live lease nobody holds locked, unless it is full of older ones |
| Outbox.Pick | src/service/outbox.rs:32-35 | the scan takes exactly the first ready unlocked events up to the limit |
| Outbox.StepRow | src/service/outbox.rs:26-50 | all that any operation can do to an event: a claim takes only undelivered events without a live lease, an ack sets an unset delivery time |
| Outbox.EventsAreKept | src/service/outbox.rs:26-50 | no event is lost, its attempts count how often it was handed out, and once delivered it never changes |
| Outbox.SupersededNeverAcks | src/service/outbox.rs:41-50 | after a later claim took the event the earlier token never acknowledges it, whatever the clock says |
| Outbox.LiveLeaseExcludes | src/service/outbox.rs:32-38 | until a lease ends no claim hands its event out again |
| Outbox.HolderAcks | src/service/outbox.rs:41-50 | the holder of a live lease, and nobody else, can acknowledge, and again at any later time |
| Outbox.OutboxTable.ClaimEvents | src/service/outbox.rs:26-39 | the claim as specified |
| Outbox.OutboxTable.Acknowledge | src/service/outbox.rs:41-50 | the ack as specified |
| Locks.PostLocksIncrease | src/ledger.rs:72-84 | a posting locks the wallets its entries touch, in increasing order |
| Locks.RequestLocks | src/service/payouts.rs:37-61 | the second wallet lock of a payout request takes nothing new |
| Locks.LocksIncrease | src/transaction.rs:48-52 | every transaction, outbox claims, checkpoint updates and bootstrap included, takes its locks in one strictly increasing order: idempotency row, key lock on its credential, advisory locks, business row, wallets by account |
| Locks.LocksAreItsWork | src/service/orders.rs:90-96 | a transaction locks exactly the rows, names and wallets it works on |
| Deadlocks.DeadlockIff | src/service/catalog.rs:243-256 | whatever transactions run and however far each has got, some of them deadlock if and only if two revocations are crossed |
| Deadlocks.NoDeadlock | src/service/orders.rs:29-35 | without one revocation about to lock a credential's row and another about to take the administrators' lock, nothing deadlocks |
| Deadlocks.RevocationDeadlockHappens | migrations/0001_initial.sql:152-153 | from nothing held, a run of two revocations into the deadlock, whatever the second one's target |
| Deadlocks.SomebodyAdvances | src/service/orders.rs:90-96 | while transactions run and no two revocations are crossed, one of them can take its next lock or commit |
| Deadlocks.EveryoneCanCommitIff | src/service/payouts.rs:65-71 | some schedule lets all of them commit if and only if no two revocations are crossed and no circle of them is next to take the administrators' lock |
| Deadlocks.AdvanceKeeps | src/transaction.rs:48-52 | taking an available lock, or committing, never puts two conflicting locks in different hands |
| Deadlocks.CommittersApart | src/service/payouts.rs:65-71 | two transactions about to commit work on no order, payout, wallet, customer, idempotency row or other locked row in common |

## Left out

- Ids: orders, refunds, payouts and rules are their positions, accounts and the client's UUIDs natural numbers; UUIDs are fresh, SHA-256 is injective, times are integers, JSON is a canonical form of which only stability is used.
- The worker breaks ties in unlock time by position where the source does by UUID.
- The financial model runs each call as one transaction; the idempotency row around it is in the protocol model, the lock order in the lock model.
- Audit and outbox rows of the financial calls: only the idempotency model carries them.
- Accounts never become inactive in the model, as no service call makes them so; the checks of the active flag are modelled.
- Validation of origin and token; the bridge without a store path, and reads through the bridge (`recover`, `resource`, `quote`, `order`, `payout`).
- Power loss that undoes a rename whose directory was not synced: a crash keeps every completed file operation.
- A `.next` or main file written by anything but this client, and a key in it that is not a UUID.
- The idempotency key's length and character check: keys of this client always pass it.
- Replies: a success carries a recorded response; every other status may come at any time, also from in between.
- Implicit locks other than the key lock on the acting credential: waits on unique indexes (business numbers, event keys, provider references), the key locks of the other foreign keys, and the row locks of the observation upserts, which two first syncs take with no checkpoint row between them. Lock timeouts and isolation; SKIP LOCKED is treated as waiting.
- Sync: an empty page cursor, which the normalizers drop; raw event storage, normalizers, transports, the connection check, and refund and settlement observations.
- Projection of one connection only, with the overwritten columns as one value and updated_at left out.
- Outbox listing and pruning; HTTP routing, authentication, metrics, the user interface, signers, webhooks and the Douyin sync.
- Credentials and platform connections: only their locks and role checks.

# Verification of the claim and refund engine

A Dafny model of the parts of the engine that decide whether money moves, and proofs of what they guarantee.
`dafny verify dfyconfig.toml` checks everything.

## What is modelled

**Delivery and execution of claims** (`protocol.dfy`). One step relation over the gateway, the queue (a multiset of
message bodies, delivered at least once), the workers and their phases in `process_message`, the `transactions`
rows, the Recovery Sweeper with its publish and commit as separate steps, the outstanding tool calls (which may be
lost, or land long after the worker gave up), the `refunds` ledger and the fixed `orders`. A step is one effect
that another process can observe, so crashes and interleavings fall between any two of them. The prompt guard, the
Front-Desk and the judges are oracles. On it:

- `refund_safety.dfy`: at most one refund per `request_id`; what `COMPLETED` means; every refund was checked and
  approved. No assumption on crashes, duplicates, retries or sweeps.
- `delivery.dfy`: the exact steps at which a claim can be dropped, and no loss without them; the exact steps at which
  a final outcome changes; one owner and one outcome per request whose row was not swept from a live owner.
- `exposure.dfy`: how far overlapping checks can refund an order past its amount, and exactly when they do.
- `draining.dfy`: once faults stop, every run ends, whatever happened before, and exactly which claims are then decided.
- `provenance.dfy`: messages are never made up or multiplied, every refund is, field by field, what a published claim
  asked for, and nothing in the step relation holds faults back.
- `meaning.dfy`: the conditions that these theorems are about, on the bare state.
- `scenarios.dfy`: concrete runs that show why the assumptions are there, and that the bound of `exposure.dfy` is
  reached.

**The worker's and the sweeper's own code** (`worker.dfy`). `process_message`, its retry loop and `run_sweep` as
methods that update the shared state step by step, with any number of steps of every other process at each `await`.
Each execution is shown to be a run of the step relation, so what is proved of runs holds of that code; the methods'
own contracts say which status each combination of answers leads to, and that the tool is called only after this
message's own check and an approval.

**The evidence check** (`money.dfy`, `ledger.dfy`, `evidence.dfy`). Rounding to the cent, the check as the code
performs it against the documented rules as one condition, its total and its verdict against the ledger behind the
tools, and what the refund history lists.

**The MCP security boundary** (`boundary.dfy`, `retries.dfy`, `window_scenario.dfy`). The append-only audit log that
doubles as a sliding-window rate limiter: requests in parallel as a step relation, the middleware's code as methods
with other requests moving at each `await`, and what becomes of a client that keeps retrying.

**Chunking** (`chunking.dfy`, `document.dfy`, `chunk_scenarios.dfy`). The packing loop against a description of the
chunks by the paragraphs of the document, which determines them, and the paragraphs against a description by the text,
which determines those.

**The judge prompt's fence** (`json.dfy`, `fencing.dfy`). The JSON encoding, a reader for it, the escape applied to
the finished text, and a reader of the whole message.

## Where the code differs from its documentation

- `chunk_markdown` says that a heading is never left at the end of a chunk. It is, for example when a document opens
  with a heading that does not fit beside its first paragraph (`ChunkScenarios.OpeningHeadingIsLeftBehind`);
  `Chunking.HeadingEndsExactlyWhen` gives the exact condition.
- A refund is meant not to exceed the order's amount. Overlapping checks on one order can each pass: `w` of them can
  refund it `w` times over (`OverRefundScenario.OverRefundBoundIsReached`). It is refunded past its amount exactly when
  a refund lands for more than is left of it by then, which takes another refund on it since the check
  (`Exposure.NeverOverRefundedExactlyWhen`, `Exposure.OverrunIsCheckedTooEarly`).
- The sweeper's comments rely on `SKIP LOCKED` to leave live workers alone. A worker holds no row lock while it
  judges, so a slow one can lose its row, and a final status can change
  (`Scenarios.SweptLiveWorkerChangesTheOutcome`): exactly when a second final write goes over the first, which takes
  such a sweep (`Delivery.OutcomeStandsExactlyWhen`, `Delivery.OverwrittenOnlyAfterSweep`). The ledger's guarantees
  do not depend on it.
- The sweeper publishes before it commits its delete. A republished message consumed in that gap is acked as a
  duplicate of the row that is about to go, and the claim is lost (`Scenarios.SplitSweepLosesTheClaim`).
- The gateway's answer promises that the claim will be processed. A failure other than a duplicate key before the
  claim's commit drops its message (`Scenarios.ClaimErrorLosesTheClaim`), and so does an empty `request_id`
  (`Delivery.LostExactlyWhen`).

## Assumptions

- An amount is an exact real. One with two decimals survives the tools' floats, so the tools return `FromCents(cents)`.
  Orders have no negative amount (`Protocol.ConfigOk`).
- `get_refund_history` reads its count and its list from one snapshot of the ledger.
- A row in progress can be stale at any time: the sweeper's threshold is not modelled, so a sweep may take any set
  of such rows. There is one sweeper.
- A crash ends a worker between two steps; the broker then requeues its message. A closed channel requeues the message
  while the worker carries on.
- A missing field of a message and its empty value are one, as they are to the worker. The ledger starts empty.
- The database stamps `id` and `created_at` freely; neither has to agree with commit order.
- The window bound is about the times at which the audit rows are stamped, on one clock on which a request's row
  is not stamped before its count. The theorems on retries in parallel take that clock to be common to all requests.

## Model

| member | source | states |
|---|---|---|
| `Money.CentsIsNearestTieAwayFromZero` | src/core/services/evidence_check.py:24-26 | the rounding is the only one that goes to the nearest cent, a tie away from zero |
| `Money.CentsMonotone` | src/core/services/evidence_check.py:24-26 | rounding keeps the order of amounts |
| `Money.CentsIdempotent` | src/core/models.py:73 | an amount to the cent is left alone, so the value checked is the value stored |
| `Money.ConvertedIsNearestTieAwayFromZero` | src/core/services/evidence_check.py:170 | a converted amount is the cent nearest to the amount to the cent times the rate, a tie away from zero, and no other |
| `Money.ExactValueWithin` | src/core/services/evidence_check.py:165-176 | a whole number of cents whose exact product with the rate is within the limit is converted to something within it |
| `Money.ConvertedWithinLimit` | src/core/services/evidence_check.py:165-176 | what rounding twice around a conversion can let past a limit: less than half a cent, plus half a cent converted |
| `RefundLedger.RefundsTable.RecordRefund` | src/core/repositories/refund_repository.py:18-52 | records once per `request_id`; a replay writes nothing and answers the stored row |
| `RefundLedger.ReplayAnswersTheRecordedRow` | src/core/repositories/refund_repository.py:26-34 | a replay with any arguments leaves the ledger as it is and answers the row of the first call |
| `RefundLedger.NewestFirstSorts` | src/core/repositories/refund_repository.py:55-66 | the listing is a permutation of the rows, newest first, the larger id first at the same instant |
| `RefundLedger.CountIsUsersRows` | src/core/repositories/refund_repository.py:69-85 | the count is the number of ledger rows on orders that exist and belong to the user |
| `RefundLedger.ListingIs` | src/core/repositories/refund_repository.py:55-66 | the user's rows, each as often as in the ledger and nobody else's, are the listed ones and unlisted ones that are no newer; there are unlisted ones only where the limit is used up |
| `RefundLedger.TotalsAddUp` | src/core/services/evidence_check.py:102-116 | the totals of an order are sums over its rows, of all and of those of other requests |
| `Evidence.HistoryIs` | src/mcp_server/mcp_server.py:98-122 | what `get_refund_history` answers: the number of the user's rows, and the newest of them with their fields |
| `Evidence.PreviousRefunds` | src/core/services/evidence_check.py:85-116 | the total exactly when the history is complete and in one currency, else the one reason |
| `Evidence.CheckRefundEvidence` | src/core/services/evidence_check.py:119-184 | passes if and only if all documented rules hold; the failures, total and converted amount it reports |
| `Evidence.NoFailureIffPasses` | src/core/services/evidence_check.py:132-176 | the reported failures are empty exactly when the rules hold |
| `Evidence.FailuresAre` | src/core/services/evidence_check.py:132-176 | a missing order is reported alone; else the owner, then one reason about the order and its history, then one about the limit, in that order |
| `Evidence.RoomFailuresAre` | src/core/services/evidence_check.py:145-163 | which reason about the order and its history is reported, and its figures |
| `Evidence.LimitFailuresAre` | src/core/services/evidence_check.py:165-176 | which reason about the limit is reported, and its figures |
| `Evidence.FirstOtherCurrencyIs` | src/core/services/evidence_check.py:103-114 | the currency reported is that of the first counted refund in another one |
| `Evidence.CountedTotalAddsUp` | src/core/services/evidence_check.py:102-116 | the counted total is the sum, to the cent, of the entries on the order under other requests |
| `Evidence.VerdictIgnoresHistoryOrder` | src/core/services/evidence_check.py:102-116 | permuting the history never changes the verdict |
| `Evidence.MoreRefundsNeverHelp` | src/core/services/evidence_check.py:102-163 | a refund added anywhere in a complete history never turns a failure into a pass |
| `Evidence.PassedClaimIsUnderTheLimit` | src/core/services/evidence_check.py:165-176 | the bound on the unrounded amount of a claim that passed |
| `Evidence.HistoryTotalIsLedgerTotal` | src/worker/evidence.py:44-65 | through join, ordering and limit, the total of a complete history is the ledger's sum on the order without this request |
| `Evidence.CompleteIffWithinLimit` | src/mcp_server/mcp_server.py:98-122 | the listed history is complete exactly when the user's refunds fit the limit |
| `Evidence.PassesExactlyWhen` | src/worker/evidence.py:44-65 | a claim passes if and only if, on the ledger: its order exists, is the user's and in its currency; the user's rows fit the listing; the order's other refunds are in that currency and leave room for it; and its converted amount is within the limit |
| `Evidence.FittingClaimPasses` | src/core/services/evidence_check.py:132-184 | a claim of whole cents that fits what the ledger leaves of its order, and whose exact value is within the limit, passes |
| `Evidence.PassedCheckFitsTheLedger` | src/worker/evidence.py:51-65 | a passed check names the user's own order, its currency, and no more than what the ledger leaves of it |
| `RefundSafety.RefundAtMostOnce` | src/core/repositories/refund_repository.py:26-34 | over every run: one row per `request_id`, never changed, executed by exactly one call, replayed by all others |
| `RefundSafety.ExecutedOnce` | src/mcp_server/mcp_server.py:55-70 | each ledger row has one call that reports it executed; all other calls for its request report it as a replay |
| `RefundSafety.CompletedIsBacked` | src/worker/worker.py:268-311 | the receipt of a `COMPLETED` row is the ledger's only row of that request, in every later state |
| `RefundSafety.EveryRefundWasAuthorized` | src/worker/worker.py:160-283 | every ledger row comes from an attempt whose check passed and that was approved; it is the claiming user's order, its currency, at most its amount |
| `Provenance.EveryRefundIsItsClaim` | src/worker/worker.py:260-283 | every ledger row, field by field, is what some published, checked and approved claim asked for: its request, order, amount to the cent, and currency, US dollars by default |
| `Provenance.VerifiedExactlyWhen` | src/worker/evidence.py:36-65 | what it takes to pass the worker's check, on the claim, the orders and the ledger, with at most 100 refunds listed |
| `Provenance.EveryBodyWasPublished` | src/worker/recovery_sweeper.py:76-82 | over every run, whatever is queued, worked on, stored or checked is a body that was published before |
| `Provenance.MessagesAreConserved` | src/worker/amqp.py:30-47 | over every run, the times a body was sent are the times it was settled and the copies still queued or delivered |
| `Provenance.MessagesCanCome` | src/api/main.py:48-58 | publishing and delivering are never held back |
| `Provenance.WorkersCanFail` | src/worker/worker.py:371-394 | a worker can crash, lose its channel or fail at any point |
| `Provenance.CrashTakesTheWorkerOnly` | src/worker/worker.py:383-394 | a crash takes the worker and requeues what it still owned, and changes nothing else |
| `Provenance.CallsCanLand` | src/worker/mcp_client.py:117-133 | a call can be lost at any point, and land at any point if its arguments are within the tool's schema |
| `Provenance.SweepsCanStrike` | src/worker/recovery_sweeper.py:53-85 | a sweep can take any rows in progress, republish them in any order and stop at any point |
| `RefundSafety.NoNegativeRefund` | src/mcp_server/tools/schemas.py:25-28 | no run ever records a negative refund |
| `Delivery.LostExactlyWhen` | src/worker/worker.py:42-64 | a step leaves an accepted request without row and message if and only if it is one of the named drops |
| `Delivery.CoveredExactlyWhen` | src/worker/worker.py:42-64 | over every run, a request keeps a row or a message from one moment to another if and only if no step in between is one of the drops |
| `Delivery.NoAcceptedClaimIsLost` | src/api/main.py:42-60 | over every run without the failures and splits that lead to them, each accepted request has a row, a queued message, or a delivery before its claim |
| `Delivery.OutcomeChangesExactlyWhen` | src/worker/worker.py:290-311 | a step changes a row with a final status if and only if it is a final write that says something else |
| `Delivery.OutcomeStandsExactlyWhen` | src/worker/worker.py:290-311 | over every run, a final outcome stands from one moment to another if and only if nothing overwrites it in between |
| `Delivery.OverwrittenOnlyAfterSweep` | src/worker/recovery_sweeper.py:51-59 | whoever overwrites a final outcome comes after a sweep that took this very row from a live owner |
| `Delivery.DecidedRowStep` | src/worker/worker.py:290-311 | where the request's workers own their row, no step touches a row that has its final status |
| `Delivery.SingleOwner` | src/worker/worker.py:290-296 | unless a sweep took the request's row from a live owner, one live worker past its claim, and its row is there when it writes |
| `Delivery.OutcomeIsStable` | src/worker/recovery_sweeper.py:53-59 | unless a sweep took the request's row from a live owner, its first final status, with its receipt, is its last |
| `Exposure.GrantFits` | src/core/services/evidence_check.py:155-163 | a passed check leaves room on the order for its claim |
| `Exposure.OutstandingStep` | src/worker/mcp_client.py:117-133 | no step brings a finished attempt back |
| `Exposure.LandStep` | src/core/repositories/refund_repository.py:35-52 | recording moves an amount from the exposure to the total and never raises their sum |
| `Exposure.OverRefundIsBounded` | src/worker/worker.py:160-288 | with at most `w` checked attempts outstanding, total plus exposure never exceeds `w` times the order's amount |
| `Provenance.OutstandingAttemptsAre` | src/worker/worker.py:160-288 | the attempts counted: passed checks on the order without a ledger row yet, that a worker is judging or executing or that a flying call was made for |
| `Exposure.OverRefundedExactlyWhen` | src/core/services/evidence_check.py:155-163 | a step takes an order past its amount if and only if a refund lands for more than the check's own rule leaves of the order on the ledger it lands in |
| `Exposure.NeverOverRefundedExactlyWhen` | src/worker/worker.py:160-288 | over every run, an order is never refunded past its amount if and only if no refund lands like that |
| `Exposure.OverrunIsCheckedTooEarly` | src/worker/worker.py:160-288 | behind every such refund is a check that read the ledger before another refund on the same order was recorded |
| `Exposure.NeverOverRefundedWithoutOverlap` | src/core/services/evidence_check.py:155-163 | without overlap no order is ever refunded past its amount |
| `Draining.WorkFalls` | src/worker/worker.py:47-369 | the measure of the remaining work falls with every fault-free step, also where rows were swept from live workers earlier |
| `Draining.FaultFreeRunsAreFinite` | src/worker/worker.py:47-369 | after any run, no more fault-free steps follow than the work that was left |
| `Draining.DrainedIsIdle` | src/worker/recovery_sweeper.py:53-86 | where no fault-free step is left, nothing is queued, held, swept or in progress |
| `Draining.DecidedExactlyWhen` | src/worker/worker.py:290-369 | then a request has a row with a final status if and only if something of it was left when the faults stopped and no sweep deleted its row after the republished message was consumed |
| `Draining.EveryAcceptedClaimIsDecided` | src/worker/worker.py:290-369 | then, if no claim was dropped, every accepted request has a row with a final status, whatever was swept from whom before |
| `Meaning.HealthyIs` | src/worker/recovery_sweeper.py:53-85 | what counts as a fault-free step, on the bare state |
| `Meaning.AliveIs` | src/worker/worker.py:42-64 | what it means that something of a request is left |
| `Meaning.BuriesIs` | src/worker/recovery_sweeper.py:72-85 | what it means that a sweep buries a request |
| `Meaning.CoveredIs` | src/worker/worker.py:42-64 | what it means that a request is covered |
| `Meaning.TakesOwnedIs` | src/worker/recovery_sweeper.py:53-59 | what it means that a sweep takes the row of a live owner |
| `Scenarios.ClaimErrorLosesTheClaim` | src/worker/worker.py:371-373 | the run of three steps in which a failing INSERT loses an accepted claim |
| `Scenarios.SplitSweepLosesTheClaim` | src/worker/recovery_sweeper.py:72-85 | the run in which a claim taken between publish and commit is lost |
| `Scenarios.SweptLiveWorkerChangesTheOutcome` | src/worker/recovery_sweeper.py:51-59 | the run in which sweeping a live worker's row changes a final status |
| `OverRefundScenario.OverRefundBoundIsReached` | src/worker/worker.py:160-288 | for every `w`, a run with never more than `w` outstanding attempts that refunds an order `w` times over |
| `Processes.Cluster.ClaimRequest` | src/worker/worker.py:42-64 | dropped, a duplicate, or claimed: exactly when, and what is done in each case |
| `Processes.Cluster.CheckEvidence` | src/worker/worker.py:160-184 | the check fails if and only if the evidence is unavailable or does not hold on the ledger of that moment |
| `Processes.Cluster.DecideRefund` | src/worker/worker.py:160-242 | the claim is granted if and only if its check passed; the other flags follow from the verdict and the second look; no refund is called meanwhile |
| `Processes.Cluster.CallOnce` | src/worker/mcp_client.py:119-130 | one call; it ends with that call's receipt exactly when the receipt is there and the answer comes through |
| `Processes.Cluster.ExecuteRefundViaMcp` | src/worker/mcp_client.py:108-133 | each attempt is closed as answered if and only if its receipt was there and the answer came through; the first answer ends it as `COMPLETED`; `EXECUTION_FAILED` means that none was, and that every attempt up to the first permanent rejection or the last retry was made |
| `Processes.AttemptsMadeAre` | src/worker/mcp_client.py:119-130 | how many attempts that is: up to the first permanent rejection, or all |
| `Processes.Cluster.WriteOutcome` | src/worker/worker.py:290-369 | the status and receipt are committed on the request's row, or there is no row, or a sweep holds it |
| `Processes.Cluster.FinishClaim` | src/worker/worker.py:248-311 | calls the tool only for an approved, checked claim, closes its attempts as above, and writes the status that follows |
| `Processes.Cluster.ProcessMessage` | src/worker/worker.py:30-373 | what becomes of the message, case by case; the claim counts as verified if and only if its check step met the condition on the ledger it read; the status written is the one the answers justify, with the calls and answers it took; a refund call implies this message's passed check and an approval |
| `Processes.WrittenCompletedIsBacked` | src/worker/worker.py:268-311 | a `COMPLETED` that `process_message` wrote shows the ledger's row of its request, whatever happens later |
| `Processes.Cluster.RunSweep` | src/worker/recovery_sweeper.py:37-86 | takes exactly the stale rows in progress, republishes each once, and leaves none of them |
| `Processes.Cluster.Await` | src/worker/worker.py:30-373 | at an await, all other processes make all the moves that are possible in turn, and the worker stays where it is |
| `Boundary.LimitedIff` | src/mcp_server/security/rate_limiter.py:39-47 | limited if and only if the attempt `limit` places back, whatever became of it, is not yet a minute old |
| `Boundary.LimitedByCount` | src/mcp_server/security/rate_limiter.py:39-47 | limited if and only if at least `limit` rows of the client and tool, whatever their decision, are stamped in the last 60,000,000 microseconds |
| `Retries.AttemptDecidedByTimes` | src/mcp_server/security/rate_limiter.py:33-47 | of attempts decided one after the other, each is admitted if and only if the one `limit` places back, whatever became of it, is more than a minute old or was never made |
| `Retries.DenialsSustainDenial` | src/mcp_server/security/rate_limiter.py:33-47 | such attempts are denied every single time if and only if each comes within a minute of the one `limit` places back |
| `Retries.SteadyRetriesAreNeverAdmitted` | src/mcp_server/security/rate_limiter.py:33-36 | after `limit` attempts, a client that never pauses longer than a `limit`-th of a minute is never admitted again |
| `Retries.RetriesAreNeverAdmitted` | src/mcp_server/security/middleware.py:166-226 | the same over every run with other requests in parallel: from a state with nothing of the key pending, recent attempts get no ALLOWED row |
| `Retries.RetriesAreNeverForwarded` | src/mcp_server/security/middleware.py:166-226 | nor is any call of the key forwarded, and its admissions in every window stay as they were |
| `Boundary.LateAdmissionWasPending` | src/mcp_server/security/middleware.py:166-226 | what a full window still admits had counted before it filled up |
| `Boundary.WindowBound` | src/mcp_server/security/middleware.py:166-226 | any closed minute admits at most `limit + k - 1` calls of a client and tool with `k` requests in parallel, none for a limit of zero |
| `Boundary.RowsInAMinute` | src/mcp_server/security/middleware.py:166-226 | the same bound on the number of ALLOWED rows stamped within any 60,000,000 microseconds |
| `Boundary.AnythingCanInterfere` | src/mcp_server/security/middleware.py:111-226 | other requests can count, be admitted, fail or be cut off at any point, and denials be audited at any time |
| `WindowScenario.WindowBoundIsReached` | src/mcp_server/security/middleware.py:166-226 | for every `limit` and `k`, a run that admits exactly `limit + k - 1` in one minute |
| `Boundary.EveryForwardedCallIsAudited` | src/mcp_server/security/middleware.py:211-226 | forwarded calls map one-to-one into earlier ALLOWED rows, each authenticated, allowlisted, under the limit and valid |
| `Boundary.Middleware.Authenticate` | src/mcp_server/security/client_registry.py:58-69 | none exactly when no record has the token's hash; otherwise the last record that has it |
| `Boundary.Middleware.AuditDenial` | src/mcp_server/security/middleware.py:241-252 | a denial appends its one row, or nothing when the write fails, and changes nothing else |
| `Boundary.Middleware.Handle` | src/mcp_server/security/middleware.py:111-255 | who the client is, which log was counted, the response of every request, the audit row of every denial with its decision, and that the call itself is forwarded exactly on success |
| `Chunking.JoinSplit` | src/core/services/chunking.py:35 | splitting at blank lines loses nothing |
| `DocumentText.ParagraphsAre` | src/core/services/chunking.py:35 | every paragraph is found in the text, in order; they start and end with something else than white space, have blank lines between them and none inside, and leave out nothing but white space |
| `DocumentText.ParagraphsAreDetermined` | src/core/services/chunking.py:35 | that description leaves nothing open: a text has one list of paragraphs |
| `DocumentText.NothingIsDropped` | src/core/services/chunking.py:35 | white space aside, the paragraphs one after the other are the text |
| `DocumentText.SpacesAre` | src/core/services/chunking.py:35 | the 29 characters that count as white space |
| `DocumentText.HeadingIs` | src/core/services/chunking.py:4-6 | a heading is one line that starts with the hash sign |
| `Chunking.ChunkMarkdown` | src/core/services/chunking.py:9-60 | rejects an overlap that is not below the size; else the chunks carry runs of paragraphs that concatenate to the document's |
| `Chunking.PackParagraphs` | src/core/services/chunking.py:39-60 | the runs, the overlaps, the sizes, that a chunk is cut only when the next text does not fit, and which headings move on |
| `Chunking.ChunksAreDetermined` | src/core/services/chunking.py:39-60 | that description leaves nothing open: a document, a size and an overlap have one list of chunks, runs and moved headings |
| `Chunking.DroppingTheOverlap` | src/core/services/chunking.py:52-55 | a chunk is its overlap, then exactly the text of its own paragraphs |
| `Chunking.JoinIs` | src/core/services/chunking.py:52-58 | the paragraphs of a chunk have one blank line between any two neighbours |
| `Chunking.OverlapIsRepeated` | src/core/services/chunking.py:52-55 | each chunk starts with the last characters of the one before, as many as the overlap says or all, then a blank line and its own paragraphs |
| `Chunking.CutOnlyWhenFull` | src/core/services/chunking.py:43-53 | a chunk is finished only when its length and the next paragraph's, or the next two's where the first is a heading, exceed the size |
| `Chunking.LengthBound` | src/core/services/chunking.py:42-58 | over the size, a chunk is its overlap, at most one carried heading, and one paragraph |
| `Chunking.ChunksAreNotEmpty` | src/core/services/chunking.py:48-58 | no chunk is empty |
| `Chunking.ParagraphsAreNotBlank` | src/core/services/chunking.py:35 | no kept paragraph is empty |
| `Chunking.HeadingEndsExactlyWhen` | src/core/services/chunking.py:48-55 | for every document, size and overlap: a chunk before the last ends in a heading if and only if the heading is alone in it, having fitted neither before nor beside what follows, or the cut is between two adjacent headings |
| `Chunking.HeadingLeftBehind` | src/core/services/chunking.py:48-55 | with a positive overlap and headings apart, only a lone heading at the start of the document is left without its section |
| `Chunking.HeadingEndsAChunkIff` | src/core/services/chunking.py:15-16 | with a positive overlap and headings apart, the condition on the document under which some chunk before the last ends in a heading |
| `ChunkScenarios.OpeningHeadingIsLeftBehind` | src/core/services/chunking.py:15-16 | a document whose first chunk is a bare heading, with an overlap |
| `ChunkScenarios.InnerHeadingIsLeftBehind` | src/core/services/chunking.py:15-16 | a document whose second chunk is a bare heading, without one |
| `JsonRoundTrip.ValueRoundTrip` | src/agents/judge.py:44 | every value is read back as it was written, whatever follows it |
| `JsonRoundTrip.LoadsDumps` | src/agents/judge.py:44 | reading inverts writing, with or without escaped brackets |
| `JsonRoundTrip.EscapesAre` | src/agents/judge.py:44 | the two-character escapes, and the characters written as themselves |
| `JsonRoundTrip.HexEscapesAre` | src/agents/judge.py:44 | any other character of the basic plane is written as its four lower-case hexadecimal digits |
| `JsonRoundTrip.SurrogatesAre` | src/agents/judge.py:44 | a character above the basic plane is written as the two escaped surrogates that stand for it |
| `JsonRoundTrip.StringsAre` | src/agents/judge.py:44 | a string is written as its characters, one after the other, in quotes |
| `JsonRoundTrip.PlainValuesAre` | src/agents/judge.py:44 | how null, truth values, numbers and empty collections are written |
| `JsonRoundTrip.ArraysAre` | src/agents/judge.py:44 | how arrays are written, with the default separators |
| `JsonRoundTrip.ObjectsAre` | src/agents/judge.py:44 | how objects are written, with the default separators |
| `Fencing.EscapeEncoded` | src/agents/judge.py:44 | replacing on the finished text is escaping inside its strings only |
| `Fencing.FenceIsFaithful` | src/agents/judge.py:37-45 | no bracket of a payload is left, and it reads back as the same value |
| `Fencing.OnlyItsOwnDelimiters` | src/agents/judge.py:40-42 | a fenced block holds the brackets of its own two tags and no others |
| `Fencing.JudgesReadWhatWasFenced` | src/agents/judge.py:66-72 | a reader of the whole message finds the two blocks, in order, each with exactly its payload |

## Left out

- Delivery.NoAcceptedClaimIsLost: assumes that no republished message is discarded before its sweep commits and that only crashes, lost channels and duplicate keys interrupt a worker before its claim; without that it is false, as `Delivery.LostExactlyWhen` and `Scenarios.SplitSweepLosesTheClaim` show.
- Draining.FaultFreeRunsAreFinite: a step that takes the row of a live worker counts as a fault, since such sweeps can go on forever.
- Delivery.SingleOwner: assumes that no sweep took the request's row from a live owner; `Scenarios.SweptLiveWorkerChangesTheOutcome` shows that this is needed.
- Processes.Cluster.ProcessMessage: a worker whose row a sweep holds locked stops there, as `Waiting`; the step relation lets it go on once the sweep ends.
- Processes.Cluster.ProcessMessage: a crash or a closed channel is a step of the relation rather than a branch of the method; of the exceptions after the claim, the method has the failing model setup and the missing row, the relation (`Fail`) any of them at any point.
- Chunking.LengthBound: for an overlap of zero or more, as `Chunking.ChunksAreDetermined` and `Chunking.HeadingEndsExactlyWhen`; a negative one makes the code drop a prefix instead of keeping a suffix, and only the reconstruction, the cuts and the moved headings are stated for it.
- Chunking.HeadingLeftBehind: for a positive overlap and headings apart, where the condition is one on the document alone; `Chunking.HeadingEndsExactlyWhen` is the general form, in terms of the cuts.
- Chunking.HeadingEndsAChunkIff: the same.
- Retries.RetriesAreNeverAdmitted: one way only, since an attempt can also be denied for other reasons than its rate; `Retries.AttemptDecidedByTimes` is exact.
- Boundary.WindowBound: counts admissions by their audit rows; the forwarding itself follows its row after an arbitrary delay.
- JsonRoundTrip.LoadsDumps: no NaN or infinity, no lone surrogates, and an object is its list of members, so repeated keys are kept apart.
- The binary representation of floats and the precision of the decimal context.
- The Front-Desk's prompt and its own fence, the judge cascade, verdict parsing, retrieval, embeddings and prompt-guard models: oracles.
- `totals_by_currency`, the audit rows' arguments and their masking, and the mapping of HTTP errors to permanent rejections (an attempt's rejection is an oracle).
- Reconnecting to the broker, document ingestion, backoff delays, tracing, and the transport and parsing of HTTP, SSE and JSON-RPC.
- The staleness threshold, more than one sweeper, and settling a message twice.

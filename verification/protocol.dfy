/**
 Delivery and execution of claims as a step relation: the gateway, the queue, the workers
 (src/worker/worker.py), the Recovery Sweeper (src/worker/recovery_sweeper.py), and the MCP tools
 with their refunds ledger (src/mcp_server/mcp_server.py).

 One action is one effect that other processes can observe, so everything between two actions can be
 interleaved with, or cut short by, any other process. The prompt guard, the Front-Desk and the
 judges are oracles: an action carries their answer.

 Three components of the state are history only, no action reads them: `accepted`, `grants` and
 `approved`.
 */
module Protocol {
  import opened Options
  import opened RefundLedger
  import Evidence

  /** A message body. A missing field and its empty value are both falsy to the worker. */
  datatype Body = Body(requestId: string, userId: string, claimText: string,
                       orderId: string, amount: real, currency: string)
  {
    predicate Executable() { orderId != "" && amount != 0.0 }

    function Currency(): string { if currency == "" then "USD" else currency }
  }

  datatype Status =
    | Processing | Completed | ExecutionFailed
    | NeedsClarification | PendingHumanReview | BlockedMaliciousPrompt

  /** A row of `transactions`; `execution` is the tool result kept in its trail. */
  datatype Row = Row(payload: Body, status: Status, execution: Option<Receipt>)

  datatype Intent = ForRefund | Clarify | OutOfScope

  /** Where a worker is in `process_message`. */
  datatype Phase =
    | Holding                                            // delivered, not claimed
    | Claimed                                            // its INSERT is committed
    | Checking                                           // past the guard and the Front-Desk
    | Judging(checked: Option<nat>)                      // past the evidence check
    | Calling(grant: nat, tries: nat, call: Option<nat>) // executing the refund
    | Finishing(status: Status, execution: Option<Receipt>)
    | Written                                            // final status committed, not settled

  /** A busy worker; `owns` while the broker still counts the delivery as its. */
  datatype Worker = Worker(body: Body, owns: bool, phase: Phase)

  datatype Sweep = Resting | Sweeping(taken: set<string>, published: set<string>)

  /** A passed evidence check, with the ledger it read. */
  datatype Grant = Grant(body: Body, snapshot: seq<RefundLedger.Refund>)

  /** One attempt to call `execute_refund`. */
  datatype Call = Call(grant: nat, args: RefundArgs)

  datatype State = State(
    accepted: set<string>,
    queue: multiset<Body>,
    workers: map<nat, Worker>,
    rows: map<string, Row>,
    sweep: Sweep,
    ledger: seq<RefundLedger.Refund>,
    calls: seq<Call>,
    flying: set<nat>,
    reports: map<nat, Receipt>,
    grants: seq<Grant>,
    approved: set<nat>)

  datatype Config = Config(
    workers: set<nat>, orders: map<string, Order>, limits: Evidence.Limits,
    maxRetries: nat, maxAmount: real)

  ghost predicate ConfigOk(k: Config) {
    k.workers != {} && forall o | o in k.orders :: k.orders[o].cents >= 0
  }

  datatype Action =
    | Publish(body: Body)                  // the gateway accepts a claim
    | Deliver(w: nat, body: Body)
    | DropEmpty(w: nat)                    // no request_id: ack
    | Claim(w: nat)                        // INSERT, commit
    | Discard(w: nat)                      // IntegrityError: ack
    | ClaimError(w: nat)                   // any other failure before the claim: nack, no requeue
    | Screen(w: nat, injection: bool, intent: Intent)
    | Check(w: nat, passed: bool)          // it can pass only where the evidence does
    | Judge(w: nat, approve: bool, reclassified: Intent)
    | Issue(w: nat)                        // open one attempt
    | Land(call: nat, id: nat, now: int)   // the tool executes an attempt
    | Lose(call: nat)                      // an attempt never reaches the tool
    | Receive(w: nat)
    | AttemptFailed(w: nat, permanent: bool)
    | GiveUp(w: nat)
    | Write(w: nat)                        // lock the row, write the final status, commit
    | WriteMissing(w: nat)                 // the row is gone: nack, no requeue
    | Fail(w: nat)                         // any failure after the claim: nack, no requeue
    | Settle(w: nat)
    | Crash(w: nat)
    | ChannelLost(w: nat)                  // the broker requeues, the worker carries on
    | SweepSelect(requestIds: set<string>)
    | SweepPublish(requestId: string)
    | SweepCommit
    | SweepAbort

  const REFUND_HISTORY_LIMIT: nat := 100

  function ClaimOf(body: Body): Evidence.RefundClaim {
    Evidence.RefundClaim(body.requestId, body.userId, body.orderId, body.amount, body.Currency())
  }

  /** `verify_claim_evidence`, when both read tools answer. */
  predicate Verified(k: Config, ledger: seq<RefundLedger.Refund>, body: Body) {
    && body.userId != ""
    && Evidence.Passes(ClaimOf(body), Evidence.GetOrder(k.orders, body.orderId),
                       Evidence.GetRefundHistory(ledger, k.orders, body.userId, REFUND_HISTORY_LIMIT),
                       k.limits)
  }

  function ArgsOf(body: Body): RefundArgs {
    RefundArgs(body.requestId, body.orderId, body.amount, body.Currency())
  }

  /** The boundary's schema for `execute_refund`. */
  predicate ValidArgs(k: Config, args: RefundArgs) {
    && args.requestId != "" && args.orderId != ""
    && 0.0 < args.amount <= k.maxAmount
    && args.currency in ["USD", "EUR", "GBP"]
  }

  function Reviewed(intent: Intent): Status {
    if intent == Clarify then NeedsClarification else PendingHumanReview
  }

  function AfterScreen(body: Body, injection: bool, intent: Intent): Phase {
    if body.claimText != "" && injection then Finishing(BlockedMaliciousPrompt, None)
    else if body.claimText != "" && intent != ForRefund then Finishing(Reviewed(intent), None)
    else if body.Executable() then Checking
    else Judging(None)
  }

  function AfterJudge(grant: Option<nat>, approve: bool, reclassified: Intent): Phase {
    if !approve then Finishing(Reviewed(reclassified), None)
    else match grant
      case None => Finishing(PendingHumanReview, None)
      case Some(g) => Calling(g, 0, None)
  }

  /** Past its claim and before its final write: the worker answers for the row. */
  predicate OwnsRow(v: Worker) {
    !v.phase.Holding? && !v.phase.Written?
  }

  function Taken(s: State): set<string> {
    if s.sweep.Sweeping? then s.sweep.taken else {}
  }

  function Published(s: State): set<string> {
    if s.sweep.Sweeping? then s.sweep.published else {}
  }

  /** The steps in which a worker goes on with its message. */
  predicate Moves(a: Action) {
    || a.Claim? || a.Screen? || a.Check? || a.Judge? || a.Issue? || a.Receive? || a.AttemptFailed? || a.GiveUp?
    || a.Write?
  }

  /** The steps in which a worker is done with its message, or gone. */
  predicate Leaves(a: Action) {
    || a.DropEmpty? || a.Discard? || a.ClaimError? || a.WriteMissing? || a.Fail? || a.Settle? || a.Crash?
  }

  /** What a worker in state `v` can do. */
  predicate WorkerCan(k: Config, s: State, v: Worker, a: Action) {
    var id, p := v.body.requestId, v.phase;
    match a
    case DropEmpty(_) => p == Holding && id == ""
    case Claim(_) => p == Holding && id != "" && id !in s.rows
    case Discard(_) => p == Holding && id != "" && id in s.rows
    case ClaimError(_) => p == Holding
    case Screen(_, _, _) => p == Claimed
    case Check(_, passed) => p == Checking && (passed ==> Verified(k, s.ledger, v.body))
    case Judge(_, _, _) => p.Judging?
    case Issue(_) => p.Calling? && p.call == None && p.tries < k.maxRetries
    case Receive(_) => p.Calling? && p.call.Some? && p.call.value in s.reports
    case AttemptFailed(_, _) => p.Calling? && p.call.Some?
    case GiveUp(_) => p.Calling? && p.call == None && p.tries >= k.maxRetries
    case Write(_) => p.Finishing? && id in s.rows && id !in Taken(s)
    case WriteMissing(_) => p.Finishing? && id !in s.rows
    case Fail(_) => OwnsRow(v)
    case Settle(_) => p == Written
    case Crash(_) => true
    case _ => false
  }

  predicate Enabled(k: Config, s: State, a: Action) {
    if Moves(a) || Leaves(a) then At(s, a.w) && WorkerCan(k, s, s.workers[a.w], a)
    else
      match a
      case Publish(_) => true
      case Deliver(w, b) => w in k.workers && w !in s.workers && b in s.queue
      case Land(c, id, now) =>
        c in s.flying && c < |s.calls| && ValidArgs(k, s.calls[c].args)
        && forall i | 0 <= i < |s.ledger| :: s.ledger[i].id != id
      case Lose(c) => c in s.flying
      case ChannelLost(w) => At(s, w) && s.workers[w].owns
      case SweepSelect(ids) =>
        s.sweep == Resting && ids != {}
        && forall id | id in ids :: id in s.rows && s.rows[id].status == Processing
      case SweepPublish(id) =>
        s.sweep.Sweeping? && id in s.sweep.taken && id !in s.sweep.published && id in s.rows
      case SweepCommit => s.sweep.Sweeping? && s.sweep.published == s.sweep.taken
      case SweepAbort => s.sweep.Sweeping?
      case _ => false
  }

  predicate At(s: State, w: nat) { w in s.workers }

  function Id(s: State, w: nat): string
    requires At(s, w)
  {
    s.workers[w].body.requestId
  }

  /** The step, component by component. */
  function Next(k: Config, s: State, a: Action): State
    requires Enabled(k, s, a)
  {
    State(NextAccepted(s, a), NextQueue(k, s, a), NextWorkers(k, s, a), NextRows(k, s, a), NextSweep(k, s, a),
          NextLedger(k, s, a), NextCalls(k, s, a), NextFlying(k, s, a), NextReports(k, s, a),
          NextGrants(k, s, a), NextApproved(k, s, a))
  }

  function NextAccepted(s: State, a: Action): set<string> {
    if a.Publish? then s.accepted + {a.body.requestId} else s.accepted
  }

  function NextQueue(k: Config, s: State, a: Action): multiset<Body>
    requires Enabled(k, s, a)
  {
    match a
    case Publish(b) => s.queue + multiset{b}
    case Deliver(_, b) => s.queue - multiset{b}
    // A delivery that its worker still owns goes back to the broker.
    case Crash(w) => if s.workers[w].owns then s.queue + multiset{s.workers[w].body} else s.queue
    case ChannelLost(w) => s.queue + multiset{s.workers[w].body}
    case SweepPublish(id) => s.queue + multiset{s.rows[id].payload}
    case _ => s.queue
  }

  function NextPhase(k: Config, s: State, a: Action): Phase
    requires Enabled(k, s, a) && Moves(a)
  {
    var v := s.workers[a.w];
    match a
    case Claim(_) => Claimed
    case Screen(_, injection, intent) => AfterScreen(v.body, injection, intent)
    case Check(_, passed) => if passed then Judging(Some(|s.grants|)) else Finishing(PendingHumanReview, None)
    case Judge(_, approve, reclassified) => AfterJudge(v.phase.checked, approve, reclassified)
    case Issue(_) => v.phase.(call := Some(|s.calls|))
    case Receive(_) => Finishing(Completed, Some(s.reports[v.phase.call.value]))
    case AttemptFailed(_, permanent) =>
      Calling(v.phase.grant, if permanent then k.maxRetries else v.phase.tries + 1, None)
    case GiveUp(_) => Finishing(ExecutionFailed, None)
    case Write(_) => Written
  }

  function NextWorkers(k: Config, s: State, a: Action): map<nat, Worker>
    requires Enabled(k, s, a)
  {
    if a.Deliver? then s.workers[a.w := Worker(a.body, true, Holding)]
    else if a.ChannelLost? then s.workers[a.w := s.workers[a.w].(owns := false)]
    else if Moves(a) then s.workers[a.w := s.workers[a.w].(phase := NextPhase(k, s, a))]
    else if Leaves(a) then s.workers - {a.w}
    else s.workers
  }

  function NextRows(k: Config, s: State, a: Action): map<string, Row>
    requires Enabled(k, s, a)
  {
    match a
    case Claim(w) => s.rows[Id(s, w) := Row(s.workers[w].body, Processing, None)]
    case Write(w) =>
      var p := s.workers[w].phase;
      s.rows[Id(s, w) := s.rows[Id(s, w)].(status := p.status, execution := p.execution)]
    case SweepCommit => s.rows - s.sweep.taken
    case _ => s.rows
  }

  function NextSweep(k: Config, s: State, a: Action): Sweep
    requires Enabled(k, s, a)
  {
    match a
    case SweepSelect(ids) => Sweeping(ids, {})
    case SweepPublish(id) => s.sweep.(published := s.sweep.published + {id})
    case SweepCommit => Resting
    case SweepAbort => Resting
    case _ => s.sweep
  }

  function NextLedger(k: Config, s: State, a: Action): seq<RefundLedger.Refund>
    requires Enabled(k, s, a)
  {
    if a.Land? then AfterRecord(s.ledger, s.calls[a.call].args, a.id, a.now) else s.ledger
  }

  function NextReports(k: Config, s: State, a: Action): map<nat, Receipt>
    requires Enabled(k, s, a)
  {
    if a.Land? then s.reports[a.call := ReceiptOf(s.ledger, s.calls[a.call].args, a.id, a.now)] else s.reports
  }

  function NextCalls(k: Config, s: State, a: Action): seq<Call>
    requires Enabled(k, s, a)
  {
    if a.Issue? then s.calls + [Call(s.workers[a.w].phase.grant, ArgsOf(s.workers[a.w].body))] else s.calls
  }

  function NextFlying(k: Config, s: State, a: Action): set<nat>
    requires Enabled(k, s, a)
  {
    if a.Issue? then s.flying + {|s.calls|} else if a.Land? || a.Lose? then s.flying - {a.call} else s.flying
  }

  function NextGrants(k: Config, s: State, a: Action): seq<Grant>
    requires Enabled(k, s, a)
  {
    if a.Check? && a.passed then s.grants + [Grant(s.workers[a.w].body, s.ledger)] else s.grants
  }

  function NextApproved(k: Config, s: State, a: Action): set<nat>
    requires Enabled(k, s, a)
  {
    if a.Judge? && a.approve && s.workers[a.w].phase.checked.Some?
    then s.approved + {s.workers[a.w].phase.checked.value}
    else s.approved
  }

  function Initial(): State {
    State({}, multiset{}, map[], map[], Resting, [], [], {}, map[], [], {})
  }

  /** A worker keeps its message. */
  lemma BodyKept(k: Config, s: State, a: Action, w: nat, s': State)
    requires Enabled(k, s, a) && s' == Next(k, s, a) && w in s.workers && w in s'.workers
    ensures s'.workers[w].body == s.workers[w].body
  {
  }

  // ----- Runs -----

  /** The states passed through by performing `acts` one after the other. */
  ghost predicate IsRun(k: Config, ss: seq<State>, acts: seq<Action>) {
    && |ss| == |acts| + 1
    && ss[0] == Initial()
    && forall i: nat | i < |acts| :: StepAt(k, ss, acts, i)
  }

  ghost predicate StepAt(k: Config, ss: seq<State>, acts: seq<Action>, i: nat) {
    i < |acts| && i + 1 < |ss| && Enabled(k, ss[i], acts[i]) && ss[i + 1] == Next(k, ss[i], acts[i])
  }

  lemma RunExtend(k: Config, ss: seq<State>, acts: seq<Action>, a: Action)
    requires IsRun(k, ss, acts) && Enabled(k, ss[|acts|], a)
    ensures IsRun(k, ss + [Next(k, ss[|acts|], a)], acts + [a])
  {
    var ss', acts' := ss + [Next(k, ss[|acts|], a)], acts + [a];
    forall i: nat | i < |acts'| ensures StepAt(k, ss', acts', i) {
      if i < |acts| {
        assert StepAt(k, ss, acts, i);
        assert ss'[i] == ss[i] && ss'[i + 1] == ss[i + 1] && acts'[i] == acts[i];
      }
    }
  }
}

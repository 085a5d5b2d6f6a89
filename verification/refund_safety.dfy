/**
 What the ledger and the COMPLETED status mean, over every run: crashes, redeliveries, duplicates,
 retries that land late, and sweeps of rows whose worker is still alive.
 */
module RefundSafety {
  import opened Options
  import opened RefundLedger
  import opened Protocol
  import Evidence

  // ----- One refund per request -----

  /** Call `c` is the one that recorded `x`, with its own arguments. */
  ghost predicate ExecutedBy(s: State, c: nat, x: RefundLedger.Refund) {
    && c < |s.calls| && c in s.reports && s.reports[c] == Receipt(true, x)
    && x == NewRow(s.calls[c].args, x.id, x.createdAt)
  }

  ghost predicate WasExecuted(s: State, x: RefundLedger.Refund) {
    exists c: nat :: ExecutedBy(s, c, x)
  }

  ghost predicate ReportInv(s: State, c: nat)
    requires c in s.reports
  {
    && c < |s.calls| && c !in s.flying
    && s.reports[c].refund in s.ledger
    && s.reports[c].refund.requestId == s.calls[c].args.requestId
  }

  ghost predicate ReportsInv(s: State) {
    && UniqueRequestIds(s.ledger)
    && (forall c | c in s.flying :: c < |s.calls|)
    && (forall c | c in s.reports :: ReportInv(s, c))
  }

  /** No two calls report having executed the same request. */
  ghost predicate ExecutedUnique(s: State) {
    forall c, d | c in s.reports && d in s.reports && s.reports[c].executed && s.reports[d].executed ::
      s.reports[c].refund.requestId == s.reports[d].refund.requestId ==> c == d
  }

  ghost predicate AllExecuted(s: State) {
    forall x | x in s.ledger :: WasExecuted(s, x)
  }

  ghost predicate CallsInv(s: State) {
    ReportsInv(s) && ExecutedUnique(s) && AllExecuted(s)
  }

  lemma AllExecutedStep(k: Config, s: State, a: Action)
    requires AllExecuted(s) && ReportsInv(s) && Enabled(k, s, a)
    ensures AllExecuted(Next(k, s, a))
  {
    var s' := Next(k, s, a);
    forall x | x in s'.ledger ensures WasExecuted(s', x) {
      if x in s.ledger {
        assert WasExecuted(s, x);
        var c: nat :| ExecutedBy(s, c, x);
        assert ReportInv(s, c);
        assert ExecutedBy(s', c, x);
      } else {
        assert ExecutedBy(s', a.call, x);
      }
    }
  }

  /** Recording into the ledger keeps its rows distinct. */
  lemma AfterRecordUnique(ledger: seq<RefundLedger.Refund>, args: RefundArgs, id: nat, now: int)
    requires UniqueRequestIds(ledger)
    ensures UniqueRequestIds(AfterRecord(ledger, args, id, now))
    ensures ledger <= AfterRecord(ledger, args, id, now)
    ensures ReceiptOf(ledger, args, id, now).executed ==>
              forall x | x in ledger :: x.requestId != args.requestId
  {
  }

  lemma ReportInvStep(k: Config, s: State, a: Action, c: nat, s': State)
    requires Enabled(k, s, a) && s' == Next(k, s, a) && s.ledger <= s'.ledger
    requires forall d | d in s.flying :: d < |s.calls|
    requires c in s'.reports && (c in s.reports ==> ReportInv(s, c))
    ensures ReportInv(s', c)
  {
    assert s.calls <= s'.calls;
    assert c in s.reports ==> s.reports[c].refund in s'.ledger;
  }

  lemma ReportsInvStep(k: Config, s: State, a: Action, s': State)
    requires ReportsInv(s) && Enabled(k, s, a) && s' == Next(k, s, a)
    ensures ReportsInv(s') && s.ledger <= s'.ledger
    ensures forall c | c in s.reports :: c in s'.reports && s'.reports[c] == s.reports[c]
  {
    if a.Land? {
      AfterRecordUnique(s.ledger, s.calls[a.call].args, a.id, a.now);
      assert a.call in s.reports ==> ReportInv(s, a.call);
    }
    forall c | c in s'.reports ensures ReportInv(s', c) { ReportInvStep(k, s, a, c, s'); }
  }

  /** A call that records finds no row of its request, so no earlier call executed it. */
  lemma ExecutedUniqueLand(s: State, c: nat, receipt: Receipt, s': State)
    requires ReportsInv(s) && ExecutedUnique(s)
    requires s'.reports == s.reports[c := receipt]
    requires receipt.executed ==> forall x | x in s.ledger :: x.requestId != receipt.refund.requestId
    requires c !in s.reports
    ensures ExecutedUnique(s')
  {
    forall d | d in s.reports && receipt.executed
      ensures s.reports[d].refund.requestId != receipt.refund.requestId
    {
      assert ReportInv(s, d);
    }
  }

  lemma ExecutedUniqueStep(k: Config, s: State, a: Action, s': State)
    requires ReportsInv(s) && ExecutedUnique(s) && Enabled(k, s, a) && s' == Next(k, s, a)
    ensures ExecutedUnique(s')
  {
    if a.Land? {
      var args := s.calls[a.call].args;
      AfterRecordUnique(s.ledger, args, a.id, a.now);
      assert a.call in s.reports ==> ReportInv(s, a.call);
      ExecutedUniqueLand(s, a.call, ReceiptOf(s.ledger, args, a.id, a.now), s');
    } else {
      assert s'.reports == s.reports;
    }
  }

  lemma CallsInvStep(k: Config, s: State, a: Action, s': State)
    requires CallsInv(s) && Enabled(k, s, a) && s' == Next(k, s, a)
    ensures CallsInv(s')
    ensures s.ledger <= s'.ledger
    ensures forall c | c in s.reports :: c in s'.reports && s'.reports[c] == s.reports[c]
  {
    ReportsInvStep(k, s, a, s');
    ExecutedUniqueStep(k, s, a, s');
    AllExecutedStep(k, s, a);
  }

  lemma {:induction false} CallsInvRun(k: Config, ss: seq<State>, acts: seq<Action>, n: nat)
    requires IsRun(k, ss, acts) && n <= |acts|
    ensures CallsInv(ss[n])
  {
    if n > 0 {
      CallsInvRun(k, ss, acts, n - 1);
      assert StepAt(k, ss, acts, n - 1);
      CallsInvStep(k, ss[n - 1], acts[n - 1], ss[n]);
    }
  }

  /** One step of a run keeps the recorded rows and the reported receipts. */
  lemma StepKeepsRecords(k: Config, ss: seq<State>, acts: seq<Action>, i: nat)
    requires IsRun(k, ss, acts) && i < |acts|
    ensures ss[i].ledger <= ss[i + 1].ledger
    ensures forall c | c in ss[i].reports ::
              c in ss[i + 1].reports && ss[i + 1].reports[c] == ss[i].reports[c]
  {
    CallsInvRun(k, ss, acts, i);
    assert StepAt(k, ss, acts, i);
    CallsInvStep(k, ss[i], acts[i], ss[i + 1]);
  }

  lemma {:induction false} RecordsGrow(k: Config, ss: seq<State>, acts: seq<Action>, m: nat, n: nat)
    requires IsRun(k, ss, acts) && m <= n <= |acts|
    ensures ss[m].ledger <= ss[n].ledger
    ensures forall c | c in ss[m].reports :: c in ss[n].reports && ss[n].reports[c] == ss[m].reports[c]
  {
    if m < n {
      RecordsGrow(k, ss, acts, m, n - 1);
      StepKeepsRecords(k, ss, acts, n - 1);
    }
  }

  /** Every call for the request of `x`, other than `c`, reported `x` as already executed. */
  ghost predicate OnlyReplays(s: State, c: nat, x: RefundLedger.Refund) {
    forall d | d in s.reports ::
      d < |s.calls|
      && (s.calls[d].args.requestId == x.requestId ==> s.reports[d] == Receipt(d == c, x))
  }

  /**
   At most one refund per request, over every run: no two rows share a request id; a recorded row is
   never changed or removed; each row was recorded by one call, the only call for that request that
   ever reports `executed`; and every other call for it answers that same row.
   */
  lemma RefundAtMostOnce(k: Config, ss: seq<State>, acts: seq<Action>, m: nat, n: nat)
    requires IsRun(k, ss, acts) && m <= n <= |acts|
    ensures UniqueRequestIds(ss[n].ledger)
    ensures ss[m].ledger <= ss[n].ledger
    ensures forall x | x in ss[n].ledger :: exists c: nat :: ExecutedBy(ss[n], c, x) && OnlyReplays(ss[n], c, x)
  {
    RecordsGrow(k, ss, acts, m, n);
    CallsInvRun(k, ss, acts, n);
    forall x | x in ss[n].ledger
      ensures exists c: nat :: ExecutedBy(ss[n], c, x) && OnlyReplays(ss[n], c, x)
    {
      ExecutedOnce(ss[n], x);
    }
  }

  lemma ExecutedOnce(s: State, x: RefundLedger.Refund)
    requires CallsInv(s) && x in s.ledger
    ensures exists c: nat :: ExecutedBy(s, c, x) && OnlyReplays(s, c, x)
  {
    assert WasExecuted(s, x);
    var c: nat :| ExecutedBy(s, c, x);
    forall d | d in s.reports && s.calls[d].args.requestId == x.requestId
      ensures s.reports[d] == Receipt(d == c, x)
    {
      assert ReportInv(s, d);
      LookupUnique(s.ledger, s.reports[d].refund, x);
    }
    assert forall d | d in s.reports :: ReportInv(s, d);
    assert OnlyReplays(s, c, x);
  }

  // ----- Every refund was checked and approved -----

  /** What a worker that is past its check may rely on. */
  ghost predicate WorkerInv(s: State, v: Worker) {
    match v.phase
    case Judging(Some(g)) => g < |s.grants| && s.grants[g].body == v.body
    case Calling(g, _, call) =>
      && g < |s.grants| && s.grants[g].body == v.body && g in s.approved
      && (call.Some? ==>
            call.value < |s.calls| && s.calls[call.value] == Call(g, ArgsOf(v.body)))
    case Finishing(status, execution) =>
      && status != Processing
      && (execution.Some? <==> status == Completed)
      && (execution.Some? ==>
            execution.value.refund in s.ledger && execution.value.refund.requestId == v.body.requestId)
    case _ => true
  }

  ghost predicate GrantInv(k: Config, s: State, g: nat)
    requires g < |s.grants|
  {
    Verified(k, s.grants[g].snapshot, s.grants[g].body) && s.grants[g].snapshot <= s.ledger
  }

  ghost predicate RowInv(s: State, id: string)
    requires id in s.rows
  {
    var row := s.rows[id];
    && row.payload.requestId == id
    && (row.execution.Some? <==> row.status == Completed)
    && (row.execution.Some? ==>
          row.execution.value.refund in s.ledger && row.execution.value.refund.requestId == id)
  }

  ghost predicate CallInv(s: State, c: nat)
    requires c < |s.calls|
  {
    var g := s.calls[c].grant;
    g < |s.grants| && g in s.approved && s.calls[c].args == ArgsOf(s.grants[g].body)
  }

  ghost predicate PipelineInv(k: Config, s: State) {
    && (forall g | 0 <= g < |s.grants| :: GrantInv(k, s, g))
    && (forall g | g in s.approved :: g < |s.grants|)
    && (forall c | 0 <= c < |s.calls| :: CallInv(s, c))
    && (forall w | w in s.workers :: WorkerInv(s, s.workers[w]))
    && (forall id | id in s.rows :: RowInv(s, id))
  }

  ghost predicate HistoryGrown(s: State, s': State) {
    && s.ledger <= s'.ledger && s.grants <= s'.grants && s.calls <= s'.calls && s.approved <= s'.approved
    && forall x | x in s.ledger :: x in s'.ledger
  }

  /** Only `Land` touches the ledger, and the histories only grow. */
  lemma HistoryGrows(k: Config, s: State, a: Action)
    requires CallsInv(s) && Enabled(k, s, a)
    ensures HistoryGrown(s, Next(k, s, a))
  {
    CallsInvStep(k, s, a, Next(k, s, a));
  }

  /** What a worker relies on survives the steps of all the others. */
  lemma WorkerInvKept(s: State, s': State, v: Worker)
    requires HistoryGrown(s, s') && WorkerInv(s, v)
    ensures WorkerInv(s', v)
  {
  }

  /** Executing: the attempts of a grant are calls of that grant, and an answer is a recorded row. */
  predicate IsCalling(a: Action) { a.Issue? || a.Receive? || a.AttemptFailed? || a.GiveUp? }

  lemma CallingInvStep(k: Config, s: State, a: Action, s': State)
    requires Enabled(k, s, a) && s' == Next(k, s, a) && HistoryGrown(s, s') && ReportsInv(s)
    requires IsCalling(a) && WorkerInv(s, s.workers[a.w])
    ensures a.w in s'.workers && WorkerInv(s', s'.workers[a.w])
  {
    if a.Receive? {
      assert ReportInv(s, s.workers[a.w].phase.call.value);
    }
  }

  lemma WorkerInvStep(k: Config, s: State, a: Action, w: nat, s': State)
    requires Enabled(k, s, a) && s' == Next(k, s, a) && HistoryGrown(s, s') && ReportsInv(s)
    requires w in s'.workers && (w in s.workers ==> WorkerInv(s, s.workers[w]))
    ensures WorkerInv(s', s'.workers[w])
  {
    if w in s.workers && s'.workers[w].phase == s.workers[w].phase {
      BodyKept(k, s, a, w, s');
      WorkerInvKept(s, s', s.workers[w]);
    } else if IsCalling(a) {
      CallingInvStep(k, s, a, s');
    } else if a.Check? || a.Judge? {
      DecidingInvStep(k, s, a, s');
    }
  }

  /** Checking and judging: what may be executed is what was checked, for this message, and approved. */
  lemma DecidingInvStep(k: Config, s: State, a: Action, s': State)
    requires Enabled(k, s, a) && s' == Next(k, s, a) && HistoryGrown(s, s')
    requires (a.Check? || a.Judge?) && WorkerInv(s, s.workers[a.w])
    ensures a.w in s'.workers && WorkerInv(s', s'.workers[a.w])
  {
  }

  lemma RowInvStep(k: Config, s: State, a: Action, id: string, s': State)
    requires Enabled(k, s, a) && s' == Next(k, s, a) && HistoryGrown(s, s')
    requires id in s'.rows && (id in s.rows ==> RowInv(s, id))
    requires a.Write? ==> WorkerInv(s, s.workers[a.w])
    ensures RowInv(s', id)
  {
  }

  /** Only a passed check adds a grant, with the ledger it read. */
  lemma GrantsStep(k: Config, s: State, a: Action, s': State)
    requires Enabled(k, s, a) && s' == Next(k, s, a)
    ensures !a.Land? ==> s'.ledger == s.ledger
    ensures if a.Check? && a.passed then
              && a.w in s.workers && Verified(k, s.ledger, s.workers[a.w].body)
              && s'.grants == s.grants + [Grant(s.workers[a.w].body, s.ledger)]
            else s'.grants == s.grants
  {
  }

  lemma GrantInvStep(k: Config, s: State, a: Action, g: nat, s': State)
    requires Enabled(k, s, a) && s' == Next(k, s, a) && HistoryGrown(s, s')
    requires g < |s'.grants| && (g < |s.grants| ==> GrantInv(k, s, g))
    ensures GrantInv(k, s', g)
  {
    GrantsStep(k, s, a, s');
  }

  lemma CallInvStep(k: Config, s: State, a: Action, c: nat, s': State)
    requires Enabled(k, s, a) && s' == Next(k, s, a) && HistoryGrown(s, s')
    requires c < |s'.calls| && (c < |s.calls| ==> CallInv(s, c))
    requires a.Issue? ==> WorkerInv(s, s.workers[a.w])
    ensures CallInv(s', c)
  {
  }

  lemma ApprovedStep(k: Config, s: State, a: Action, s': State)
    requires Enabled(k, s, a) && s' == Next(k, s, a) && HistoryGrown(s, s')
    requires forall g | g in s.approved :: g < |s.grants|
    requires a.Judge? ==> WorkerInv(s, s.workers[a.w])
    ensures forall g | g in s'.approved :: g < |s'.grants|
  {
  }

  lemma PipelineInvStep(k: Config, s: State, a: Action, s': State)
    requires CallsInv(s) && PipelineInv(k, s) && Enabled(k, s, a) && s' == Next(k, s, a)
    ensures PipelineInv(k, s')
  {
    HistoryGrows(k, s, a);
    assert a.Write? || a.Issue? || a.Judge? ==> WorkerInv(s, s.workers[a.w]);
    forall g | 0 <= g < |s'.grants| ensures GrantInv(k, s', g) { GrantInvStep(k, s, a, g, s'); }
    ApprovedStep(k, s, a, s');
    forall c | 0 <= c < |s'.calls| ensures CallInv(s', c) { CallInvStep(k, s, a, c, s'); }
    forall w | w in s'.workers ensures WorkerInv(s', s'.workers[w]) { WorkerInvStep(k, s, a, w, s'); }
    forall id | id in s'.rows ensures RowInv(s', id) { RowInvStep(k, s, a, id, s'); }
  }

  lemma {:induction false} PipelineInvRun(k: Config, ss: seq<State>, acts: seq<Action>, n: nat)
    requires IsRun(k, ss, acts) && n <= |acts|
    ensures PipelineInv(k, ss[n])
  {
    if n > 0 {
      PipelineInvRun(k, ss, acts, n - 1);
      CallsInvRun(k, ss, acts, n - 1);
      assert StepAt(k, ss, acts, n - 1);
      PipelineInvStep(k, ss[n - 1], acts[n - 1], ss[n]);
    }
  }

  /**
   COMPLETED is backed forever: from the moment a row is COMPLETED, the refund that its trail records
   is, field by field, the only ledger row of its request, then and in every later state.
   */
  lemma CompletedIsBacked(k: Config, ss: seq<State>, acts: seq<Action>, m: nat, n: nat, id: string)
    requires IsRun(k, ss, acts) && m <= n <= |acts|
    requires id in ss[m].rows && ss[m].rows[id].status == Completed
    ensures ss[m].rows[id].execution.Some?
    ensures Recorded(ss[n].ledger, id)
    ensures Lookup(ss[n].ledger, id) == ss[m].rows[id].execution.value.refund
    ensures forall x | x in ss[n].ledger && x.requestId == id ::
              x == ss[m].rows[id].execution.value.refund
  {
    PipelineInvRun(k, ss, acts, m);
    assert RowInv(ss[m], id);
    RecordsGrow(k, ss, acts, m, n);
    CallsInvRun(k, ss, acts, n);
    var x := ss[m].rows[id].execution.value.refund;
    assert x in ss[n].ledger;
    forall y | y in ss[n].ledger && y.requestId == id ensures y == x {
      LookupUnique(ss[n].ledger, x, y);
    }
  }

  /** The check that let a row be recorded: its claim, approved, and the ledger it was checked on. */
  ghost predicate Authorized(k: Config, s: State, g: nat, x: RefundLedger.Refund) {
    && g < |s.grants| && g in s.approved
    && Verified(k, s.grants[g].snapshot, s.grants[g].body)
    && s.grants[g].snapshot <= s.ledger
    && x == NewRow(ArgsOf(s.grants[g].body), x.id, x.createdAt)
  }

  /**
   Every row of the ledger comes from a call whose own attempt passed the check and was approved, and
   so names an existing order of the claiming user, in the order's currency and for at most its amount.
   */
  lemma EveryRefundWasAuthorized(k: Config, ss: seq<State>, acts: seq<Action>, n: nat,
                                 x: RefundLedger.Refund)
    requires ConfigOk(k) && IsRun(k, ss, acts) && n <= |acts| && x in ss[n].ledger
    ensures exists g: nat :: Authorized(k, ss[n], g, x)
                        && x.orderId in k.orders
                        && k.orders[x.orderId].userId == ss[n].grants[g].body.userId
                        && k.orders[x.orderId].currency == x.currency
                        && x.cents <= k.orders[x.orderId].cents
  {
    PipelineInvRun(k, ss, acts, n);
    CallsInvRun(k, ss, acts, n);
    var s := ss[n];
    ExecutedOnce(s, x);
    var c: nat :| ExecutedBy(s, c, x);
    assert CallInv(s, c);
    var g := s.calls[c].grant;
    var grant := s.grants[g];
    assert GrantInv(k, s, g);
    assert Authorized(k, s, g, x);
    NoNegativeRefund(k, ss, acts, n);
    forall j | 0 <= j < |grant.snapshot| ensures grant.snapshot[j].cents >= 0 {
      assert grant.snapshot[j] == s.ledger[j];
    }
    TotalNonNegative(grant.snapshot, grant.body.orderId, grant.body.requestId);
    Evidence.PassedCheckFitsTheLedger(ClaimOf(grant.body), grant.snapshot, k.orders,
                                      REFUND_HISTORY_LIMIT, k.limits);
  }

  /** The boundary admits positive amounts only. */
  lemma {:induction false} NoNegativeRefund(k: Config, ss: seq<State>, acts: seq<Action>, n: nat)
    requires IsRun(k, ss, acts) && n <= |acts|
    ensures forall i | 0 <= i < |ss[n].ledger| :: ss[n].ledger[i].cents >= 0
  {
    if n > 0 {
      NoNegativeRefund(k, ss, acts, n - 1);
      assert StepAt(k, ss, acts, n - 1);
      LedgerStep(k, ss[n - 1], acts[n - 1]);
    }
  }

  lemma LedgerStep(k: Config, s: State, a: Action)
    requires Enabled(k, s, a)
    ensures var s' := Next(k, s, a);
            || s'.ledger == s.ledger
            || (a.Land? && exists x: RefundLedger.Refund :: s'.ledger == s.ledger + [x] && x.cents >= 0)
  {
    if a.Land? {
      var args := s.calls[a.call].args;
      if !Recorded(s.ledger, args.requestId) {
        assert NewRow(args, a.id, a.now).cents >= 0;
      }
    }
  }
}

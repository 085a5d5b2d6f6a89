/**
 How far check-then-act can refund an order past its amount. Nothing locks the order between the
 evidence check and the ledger, so two checks that overlap can both pass: with at most `w` checked
 attempts outstanding on an order at any moment, it is refunded at most `w` times its amount, and that
 bound is reached.
 */
module Exposure {
  import opened Options
  import opened RefundLedger
  import opened Money
  import opened Protocol
  import opened RefundSafety
  import Evidence

  // ----- Outstanding attempts -----

  predicate WorksOn(phase: Phase, g: nat) {
    phase == Judging(Some(g)) || (phase.Calling? && phase.grant == g)
  }

  ghost predicate HeldByWorker(s: State, g: nat) {
    exists w :: w in s.workers && WorksOn(s.workers[w].phase, g)
  }

  ghost predicate InFlight(s: State, g: nat) {
    exists c :: c in s.flying && 0 <= c < |s.calls| && s.calls[c].grant == g
  }

  /** A passed check on the order whose refund may still be recorded. */
  ghost predicate Outstanding(s: State, o: string, g: nat)
    requires g < |s.grants|
  {
    && s.grants[g].body.orderId == o
    && !Recorded(s.ledger, s.grants[g].body.requestId)
    && (HeldByWorker(s, g) || InFlight(s, g))
  }

  function Amount(s: State, g: nat): nat
    requires g < |s.grants|
  {
    var c := Cents(s.grants[g].body.amount); if c > 0 then c else 0
  }

  ghost function Share(s: State, o: string, g: nat): nat
    requires g < |s.grants|
  {
    if Outstanding(s, o, g) then Amount(s, g) else 0
  }

  ghost function Exposed(s: State, o: string, n: nat): nat
    requires n <= |s.grants|
  {
    if n == 0 then 0 else Exposed(s, o, n - 1) + Share(s, o, n - 1)
  }

  ghost function Attempts(s: State, o: string, n: nat): nat
    requires n <= |s.grants|
  {
    if n == 0 then 0 else Attempts(s, o, n - 1) + (if Outstanding(s, o, n - 1) then 1 else 0)
  }

  /** How many checked attempts on the order are outstanding. */
  ghost function OutstandingAttempts(s: State, o: string): nat {
    Attempts(s, o, |s.grants|)
  }

  lemma {:induction false} ExposedAtMost(s: State, o: string, n: nat, amount: nat)
    requires n <= |s.grants|
    requires forall g | 0 <= g < n :: Share(s, o, g) <= amount
    ensures Exposed(s, o, n) <= Attempts(s, o, n) * amount
  {
    if n > 0 {
      ExposedAtMost(s, o, n - 1, amount);
      OneTimesMore(Attempts(s, o, n - 1) + 1, amount);
    }
  }

  lemma {:induction false} ExposedMonotone(s: State, s': State, o: string, n: nat)
    requires n <= |s.grants| && n <= |s'.grants|
    requires forall g | 0 <= g < n :: Share(s', o, g) <= Share(s, o, g)
    ensures Exposed(s', o, n) <= Exposed(s, o, n)
  {
    if n > 0 {
      ExposedMonotone(s, s', o, n - 1);
    }
  }

  /** One share that vanishes takes its amount out of the sum. */
  lemma {:induction false} ExposedDrop(s: State, s': State, o: string, n: nat, at: nat)
    requires at < n <= |s.grants| && n <= |s'.grants|
    requires forall g | 0 <= g < n :: Share(s', o, g) <= Share(s, o, g)
    requires Share(s', o, at) == 0
    ensures Exposed(s', o, n) + Share(s, o, at) <= Exposed(s, o, n)
  {
    if at == n - 1 {
      ExposedMonotone(s, s', o, n - 1);
    } else {
      ExposedDrop(s, s', o, n - 1, at);
    }
  }

  // ----- One step -----

  lemma WorkOnlyContinues(k: Config, s: State, a: Action, g: nat, s': State)
    requires Enabled(k, s, a) && s' == Next(k, s, a) && g < |s.grants|
    requires a.Check? || a.Judge? || a.Issue? || a.AttemptFailed?
    requires a.w in s'.workers && WorksOn(s'.workers[a.w].phase, g)
    ensures WorksOn(s.workers[a.w].phase, g)
  {
  }

  lemma HeldByWorkerStep(k: Config, s: State, a: Action, g: nat, w: nat, s': State)
    requires Enabled(k, s, a) && s' == Next(k, s, a) && g < |s.grants|
    requires w in s'.workers && WorksOn(s'.workers[w].phase, g)
    ensures w in s.workers && WorksOn(s.workers[w].phase, g)
  {
    if w in s.workers && s'.workers[w].phase != s.workers[w].phase {
      WorkOnlyContinues(k, s, a, g, s');
    }
  }

  lemma InFlightStep(k: Config, s: State, a: Action, g: nat, c: nat, s': State)
    requires ReportsInv(s) && Enabled(k, s, a) && s' == Next(k, s, a)
    requires c in s'.flying && c < |s'.calls| && s'.calls[c].grant == g
    ensures InFlight(s, g) || HeldByWorker(s, g)
  {
    if c in s.flying {
      assert s.calls[c] == s'.calls[c];
    } else {
      assert s.workers[a.w].phase.Calling? && s.workers[a.w].phase.grant == g;
    }
  }

  /** No step revives an attempt. */
  lemma OutstandingStep(k: Config, s: State, a: Action, o: string, g: nat, s': State)
    requires ReportsInv(s) && Enabled(k, s, a) && s' == Next(k, s, a)
    requires g < |s.grants| && s.grants <= s'.grants && Outstanding(s', o, g)
    ensures Outstanding(s, o, g)
  {
    assert s.grants[g] == s'.grants[g];
    UnrecordedBefore(k, s, a, s.grants[g].body.requestId, s');
    if HeldByWorker(s', g) {
      var w :| w in s'.workers && WorksOn(s'.workers[w].phase, g);
      HeldByWorkerStep(k, s, a, g, w, s');
    } else {
      var c :| c in s'.flying && 0 <= c < |s'.calls| && s'.calls[c].grant == g;
      InFlightStep(k, s, a, g, c, s');
    }
  }

  lemma UnrecordedBefore(k: Config, s: State, a: Action, id: string, s': State)
    requires Enabled(k, s, a) && s' == Next(k, s, a) && !Recorded(s'.ledger, id)
    ensures !Recorded(s.ledger, id)
  {
    LedgerStep(k, s, a);
    forall i | 0 <= i < |s.ledger| ensures s.ledger[i].requestId != id {
      assert s'.ledger[i] == s.ledger[i];
    }
  }

  lemma SharesStep(k: Config, s: State, a: Action, o: string, s': State)
    requires PipelineInv(k, s) && CallsInv(s) && Enabled(k, s, a) && s' == Next(k, s, a)
    ensures s.grants <= s'.grants
    ensures forall g | 0 <= g < |s.grants| :: Share(s', o, g) <= Share(s, o, g)
  {
    HistoryGrows(k, s, a);
    forall g | 0 <= g < |s.grants| ensures Share(s', o, g) <= Share(s, o, g) {
      if Outstanding(s', o, g) {
        OutstandingStep(k, s, a, o, g, s');
      }
    }
  }

  /** A check that passes leaves room for its claim, and never passes for more than the order. */
  lemma GrantFits(k: Config, ledger: seq<RefundLedger.Refund>, body: Body)
    requires ConfigOk(k) && Verified(k, ledger, body)
    requires forall i | 0 <= i < |ledger| :: ledger[i].cents >= 0
    ensures body.orderId in k.orders
    ensures Cents(body.amount) <= k.orders[body.orderId].cents
    ensures Cents(body.amount) > 0 && !Recorded(ledger, body.requestId) ==>
              OrderTotal(ledger, body.orderId) + Cents(body.amount) <= k.orders[body.orderId].cents
  {
    Evidence.PassedCheckFitsTheLedger(ClaimOf(body), ledger, k.orders, REFUND_HISTORY_LIMIT, k.limits);
    TotalNonNegative(ledger, body.orderId, body.requestId);
    if !Recorded(ledger, body.requestId) {
      TotalOfUnrecorded(ledger, body.orderId, body.requestId);
    }
  }

  lemma SharesBounded(k: Config, s: State, o: string, g: nat)
    requires ConfigOk(k) && PipelineInv(k, s) && o in k.orders && g < |s.grants|
    requires forall i | 0 <= i < |s.ledger| :: s.ledger[i].cents >= 0
    ensures Share(s, o, g) <= k.orders[o].cents
  {
    assert GrantInv(k, s, g);
    var grant := s.grants[g];
    forall i | 0 <= i < |grant.snapshot| ensures grant.snapshot[i].cents >= 0 {
      assert grant.snapshot[i] == s.ledger[i];
    }
    GrantFits(k, grant.snapshot, grant.body);
  }

  /** Recording a refund moves its amount from the exposure to the total. */
  lemma LandStep(k: Config, s: State, a: Action, o: string, s': State)
    requires PipelineInv(k, s) && CallsInv(s) && Enabled(k, s, a) && s' == Next(k, s, a) && a.Land?
    ensures |s'.grants| == |s.grants|
    ensures OrderTotal(s'.ledger, o) + Exposed(s', o, |s'.grants|)
            <= OrderTotal(s.ledger, o) + Exposed(s, o, |s.grants|)
  {
    SharesStep(k, s, a, o, s');
    assert CallInv(s, a.call);
    var g, args := s.calls[a.call].grant, s.calls[a.call].args;
    if Recorded(s.ledger, args.requestId) {
      ExposedMonotone(s, s', o, |s.grants|);
    } else {
      var x := NewRow(args, a.id, a.now);
      assert s'.ledger[|s.ledger|] == x;
      TotalAfterAppend(s.ledger, x, o);
      assert Recorded(s'.ledger, args.requestId);
      assert InFlight(s, g);
      assert args.orderId == o ==> Share(s, o, g) == x.cents;
      ExposedDrop(s, s', o, |s.grants|, g);
    }
  }

  /** A passed check adds a share only where the order has room for it. */
  lemma NewShareFits(k: Config, s: State, body: Body, o: string, s': State)
    requires ConfigOk(k) && o in k.orders && Verified(k, s.ledger, body)
    requires s'.ledger == s.ledger && s'.grants == s.grants + [Grant(body, s.ledger)]
    requires forall i | 0 <= i < |s.ledger| :: s.ledger[i].cents >= 0
    ensures var share := Share(s', o, |s.grants|);
            share > 0 ==> OrderTotal(s.ledger, o) + share <= k.orders[o].cents
  {
    GrantFits(k, s.ledger, body);
  }

  lemma CheckStep(s: State, grant: Grant, o: string, w: nat, amount: nat, s': State)
    requires s'.ledger == s.ledger && s'.grants == s.grants + [grant]
    requires forall g | 0 <= g < |s.grants| :: Share(s', o, g) <= Share(s, o, g) && Share(s', o, g) <= amount
    requires var share := Share(s', o, |s.grants|); share > 0 ==> OrderTotal(s.ledger, o) + share <= amount
    requires OutstandingAttempts(s', o) <= w
    requires OrderTotal(s.ledger, o) + Exposed(s, o, |s.grants|) <= w * amount
    ensures OrderTotal(s'.ledger, o) + Exposed(s', o, |s'.grants|) <= w * amount
  {
    var n := |s.grants|;
    ExposedMonotone(s, s', o, n);
    if Share(s', o, n) > 0 {
      ExposedAtMost(s', o, n, amount);
      TimesMonotone(Attempts(s', o, n), w - 1, amount);
      OneTimesMore(w, amount);
    }
  }

  lemma OneTimesMore(w: nat, amount: nat)
    ensures (w - 1) * amount + amount == w * amount
  {
  }

  lemma TimesMonotone(x: int, y: int, z: nat)
    requires x <= y
    ensures x * z <= y * z
  {
    assert (y - x) * z >= 0;
  }

  // ----- Every run -----

  /**
   Bounded over-refund: over every run in which at most `w` checked attempts on the order are ever
   outstanding at once, what the order was refunded, plus what those attempts may still record, never
   exceeds `w` times its amount.
   */
  lemma {:induction false} OverRefundIsBounded(k: Config, ss: seq<State>, acts: seq<Action>, n: nat,
                                               o: string, w: nat)
    requires ConfigOk(k) && IsRun(k, ss, acts) && n <= |acts| && o in k.orders
    requires forall i | 0 <= i <= n :: OutstandingAttempts(ss[i], o) <= w
    ensures OrderTotal(ss[n].ledger, o) + Exposed(ss[n], o, |ss[n].grants|) <= w * k.orders[o].cents
  {
    if n > 0 {
      assert StepAt(k, ss, acts, n - 1);
      var s, a := ss[n - 1], acts[n - 1];
      OverRefundIsBounded(k, ss, acts, n - 1, o, w);
      PipelineInvRun(k, ss, acts, n - 1);
      PipelineInvRun(k, ss, acts, n);
      CallsInvRun(k, ss, acts, n - 1);
      NoNegativeRefund(k, ss, acts, n - 1);
      ExposureStep(k, s, a, o, w, ss[n]);
    }
  }

  lemma ExposureStep(k: Config, s: State, a: Action, o: string, w: nat, s': State)
    requires ConfigOk(k) && PipelineInv(k, s) && CallsInv(s) && PipelineInv(k, s')
    requires Enabled(k, s, a) && s' == Next(k, s, a)
    requires o in k.orders && forall i | 0 <= i < |s.ledger| :: s.ledger[i].cents >= 0
    requires OutstandingAttempts(s', o) <= w
    requires OrderTotal(s.ledger, o) + Exposed(s, o, |s.grants|) <= w * k.orders[o].cents
    ensures OrderTotal(s'.ledger, o) + Exposed(s', o, |s'.grants|) <= w * k.orders[o].cents
  {
    SharesStep(k, s, a, o, s');
    if a.Land? {
      LandStep(k, s, a, o, s');
    } else {
      GrantsStep(k, s, a, s');
      if a.Check? && a.passed {
        var body := s.workers[a.w].body;
        NewShareFits(k, s, body, o, s');
        forall g | 0 <= g < |s.grants| ensures Share(s', o, g) <= k.orders[o].cents {
          SharesBounded(k, s, o, g);
        }
        CheckStep(s, Grant(body, s.ledger), o, w, k.orders[o].cents, s');
      } else {
        ExposedMonotone(s, s', o, |s.grants|);
      }
    }
  }

  /** While checked attempts on an order never overlap, it is never refunded past its amount. */
  lemma NeverOverRefundedWithoutOverlap(k: Config, ss: seq<State>, acts: seq<Action>, o: string)
    requires ConfigOk(k) && IsRun(k, ss, acts) && o in k.orders
    requires forall i | 0 <= i <= |acts| :: OutstandingAttempts(ss[i], o) <= 1
    ensures forall i | 0 <= i <= |acts| :: OrderTotal(ss[i].ledger, o) <= k.orders[o].cents
  {
    forall i | 0 <= i <= |acts| ensures OrderTotal(ss[i].ledger, o) <= k.orders[o].cents {
      OverRefundIsBounded(k, ss, acts, i, o, 1);
    }
  }

  // ----- When an order is refunded past its amount -----

  /** A refund lands for more than is left of its order: the check's own rule, asked again on the ledger it lands in. */
  predicate Overruns(k: Config, s: State, a: Action, o: string) {
    && a.Land? && a.call < |s.calls| && o in k.orders
    && s.calls[a.call].args.orderId == o && !Recorded(s.ledger, s.calls[a.call].args.requestId)
    && Cents(s.calls[a.call].args.amount)
       > Evidence.Remaining(FromCents(k.orders[o].cents), OrderTotal(s.ledger, o))
  }

  predicate WithinAmount(k: Config, s: State, o: string) {
    o in k.orders && OrderTotal(s.ledger, o) <= k.orders[o].cents
  }

  /** From a total within the amount, a step takes it past the amount if and only if it overruns the order. */
  lemma OverRefundedExactlyWhen(k: Config, s: State, a: Action, o: string)
    requires Enabled(k, s, a) && WithinAmount(k, s, o)
    ensures WithinAmount(k, Next(k, s, a), o) <==> !Overruns(k, s, a, o)
  {
    CentsIdempotent(k.orders[o].cents);
    if a.Land? && !Recorded(s.ledger, s.calls[a.call].args.requestId) {
      TotalAfterAppend(s.ledger, NewRow(s.calls[a.call].args, a.id, a.now), o);
    } else {
      assert Next(k, s, a).ledger == s.ledger;
    }
  }

  ghost predicate StaysWithin(k: Config, ss: seq<State>, n: nat, o: string)
    requires n < |ss|
  {
    forall i | 0 <= i <= n :: WithinAmount(k, ss[i], o)
  }

  ghost predicate NoOverrun(k: Config, ss: seq<State>, acts: seq<Action>, n: nat, o: string)
    requires n <= |acts| <= |ss|
  {
    forall i | 0 <= i < n :: !Overruns(k, ss[i], acts[i], o)
  }

  lemma OverrunAt(k: Config, ss: seq<State>, acts: seq<Action>, i: nat, o: string)
    requires IsRun(k, ss, acts) && i < |acts| && WithinAmount(k, ss[i], o)
    ensures WithinAmount(k, ss[i + 1], o) <==> !Overruns(k, ss[i], acts[i], o)
  {
    assert StepAt(k, ss, acts, i);
    OverRefundedExactlyWhen(k, ss[i], acts[i], o);
  }

  /** Over every run, an order is never refunded past its amount if and only if no refund overruns it. */
  lemma {:induction false} NeverOverRefundedExactlyWhen(k: Config, ss: seq<State>, acts: seq<Action>, n: nat, o: string)
    requires ConfigOk(k) && IsRun(k, ss, acts) && n <= |acts| && o in k.orders
    ensures StaysWithin(k, ss, n, o) <==> NoOverrun(k, ss, acts, n, o)
  {
    if n > 0 {
      NeverOverRefundedExactlyWhen(k, ss, acts, n - 1, o);
      assert StaysWithin(k, ss, n, o) ==> StaysWithin(k, ss, n - 1, o);
      if StaysWithin(k, ss, n - 1, o) {
        OverrunAt(k, ss, acts, n - 1, o);
      }
    }
  }

  /** A larger total has a row that makes it larger. */
  lemma {:induction false} RowSince(before: seq<RefundLedger.Refund>, ledger: seq<RefundLedger.Refund>, o: string)
    returns (i: nat)
    requires before <= ledger && OrderTotal(before, o) < OrderTotal(ledger, o)
    ensures |before| <= i < |ledger| && ledger[i].orderId == o && ledger[i].cents > 0
    decreases |ledger|
  {
    assert before != ledger;
    var init, x := ledger[..|ledger| - 1], ledger[|ledger| - 1];
    assert init + [x] == ledger;
    TotalAfterAppend(init, x, o);
    if x.orderId == o && x.cents > 0 {
      i := |init|;
    } else {
      i := RowSince(before, init, o);
    }
  }

  /**
   The check that let an overrun through read an older ledger: another refund on the order was recorded between
   that check and the landing.
   */
  lemma OverrunIsCheckedTooEarly(k: Config, ss: seq<State>, acts: seq<Action>, n: nat, o: string)
    returns (g: nat, i: nat)
    requires ConfigOk(k) && IsRun(k, ss, acts) && n < |acts| && Overruns(k, ss[n], acts[n], o)
    ensures g == ss[n].calls[acts[n].call].grant && g < |ss[n].grants|
    ensures var snapshot, ledger := ss[n].grants[g].snapshot, ss[n].ledger;
            && snapshot <= ledger && OrderTotal(snapshot, o) < OrderTotal(ledger, o)
            && |snapshot| <= i < |ledger| && ledger[i].orderId == o && ledger[i].cents > 0
            && ledger[i].requestId != ss[n].calls[acts[n].call].args.requestId
  {
    var s, args := ss[n], ss[n].calls[acts[n].call].args;
    PipelineInvRun(k, ss, acts, n);
    NoNegativeRefund(k, ss, acts, n);
    assert CallInv(s, acts[n].call);
    g := s.calls[acts[n].call].grant;
    var snapshot, body := s.grants[g].snapshot, s.grants[g].body;
    assert GrantInv(k, s, g);
    forall j | 0 <= j < |snapshot|
      ensures snapshot[j].cents >= 0 && snapshot[j].requestId != args.requestId
    {
      assert snapshot[j] == s.ledger[j];
    }
    GrantFits(k, snapshot, body);
    CentsIdempotent(k.orders[o].cents);
    i := RowSince(snapshot, s.ledger, o);
  }
}

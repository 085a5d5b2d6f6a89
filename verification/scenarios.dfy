/** Concrete runs: each shows that a hypothesis of the theorems is needed, or that a bound is reached. */
module Scenarios {
  import opened Options
  import opened RefundLedger
  import opened Protocol
  import opened Traces
  import Delivery
  import Evidence

  type ClaimTrace = Trace<State, Action>

  ghost predicate Runs(k: Config, t: ClaimTrace, s: State) {
    IsRun(k, t.ss, t.acts) && t.ss[|t.acts|] == s
  }

  ghost predicate Extends(t: ClaimTrace, a: Action, t': ClaimTrace, s': State) {
    t'.acts == t.acts + [a] && t'.ss == t.ss + [s']
  }

  // ----- Single steps, by what they change -----

  lemma Do(k: Config, t: ClaimTrace, s: State, a: Action, s': State) returns (t': ClaimTrace)
    requires Runs(k, t, s) && Enabled(k, s, a) && s' == Next(k, s, a)
    ensures Runs(k, t', s') && Extends(t, a, t', s')
  {
    RunExtend(k, t.ss, t.acts, a);
    t' := Trace(t.ss + [s'], t.acts + [a]);
  }

  lemma DoPublish(k: Config, t: ClaimTrace, s: State, b: Body) returns (t': ClaimTrace, s': State)
    requires Runs(k, t, s)
    ensures Runs(k, t', s') && Extends(t, Publish(b), t', s')
    ensures s' == s.(accepted := s.accepted + {b.requestId}, queue := s.queue + multiset{b})
  {
    s' := Next(k, s, Publish(b));
    t' := Do(k, t, s, Publish(b), s');
  }

  lemma DoDeliver(k: Config, t: ClaimTrace, s: State, w: nat, b: Body) returns (t': ClaimTrace, s': State)
    requires Runs(k, t, s) && w in k.workers && w !in s.workers && b in s.queue
    ensures Runs(k, t', s') && Extends(t, Deliver(w, b), t', s')
    ensures s' == s.(queue := s.queue - multiset{b}, workers := s.workers[w := Worker(b, true, Holding)])
  {
    s' := Next(k, s, Deliver(w, b));
    t' := Do(k, t, s, Deliver(w, b), s');
  }

  lemma DoClaim(k: Config, t: ClaimTrace, s: State, w: nat) returns (t': ClaimTrace, s': State)
    requires Runs(k, t, s) && w in s.workers && s.workers[w].phase == Holding
    requires Id(s, w) != "" && Id(s, w) !in s.rows
    ensures Runs(k, t', s') && Extends(t, Claim(w), t', s')
    ensures s' == s.(rows := s.rows[Id(s, w) := Row(s.workers[w].body, Processing, None)],
                     workers := s.workers[w := s.workers[w].(phase := Claimed)])
  {
    s' := Next(k, s, Claim(w));
    t' := Do(k, t, s, Claim(w), s');
  }

  lemma DoDiscard(k: Config, t: ClaimTrace, s: State, w: nat) returns (t': ClaimTrace, s': State)
    requires Runs(k, t, s) && w in s.workers && s.workers[w].phase == Holding
    requires Id(s, w) != "" && Id(s, w) in s.rows
    ensures Runs(k, t', s') && Extends(t, Discard(w), t', s')
    ensures s' == s.(workers := s.workers - {w})
  {
    s' := Next(k, s, Discard(w));
    t' := Do(k, t, s, Discard(w), s');
  }

  lemma DoFail(k: Config, t: ClaimTrace, s: State, w: nat) returns (t': ClaimTrace, s': State)
    requires Runs(k, t, s) && w in s.workers && OwnsRow(s.workers[w])
    ensures Runs(k, t', s') && Extends(t, Fail(w), t', s')
    ensures s' == s.(workers := s.workers - {w})
  {
    s' := Next(k, s, Fail(w));
    t' := Do(k, t, s, Fail(w), s');
  }

  lemma DoScreen(k: Config, t: ClaimTrace, s: State, w: nat, injection: bool, intent: Intent)
    returns (t': ClaimTrace, s': State)
    requires Runs(k, t, s) && w in s.workers && s.workers[w].phase == Claimed
    ensures Runs(k, t', s') && Extends(t, Screen(w, injection, intent), t', s')
    ensures s' == s.(workers :=
      s.workers[w := s.workers[w].(phase := AfterScreen(s.workers[w].body, injection, intent))])
  {
    s' := Next(k, s, Screen(w, injection, intent));
    t' := Do(k, t, s, Screen(w, injection, intent), s');
  }

  lemma DoWrite(k: Config, t: ClaimTrace, s: State, w: nat) returns (t': ClaimTrace, s': State)
    requires Runs(k, t, s) && w in s.workers && s.workers[w].phase.Finishing?
    requires Id(s, w) in s.rows && s.sweep == Resting
    ensures Runs(k, t', s') && Extends(t, Write(w), t', s')
    ensures var p := s.workers[w].phase;
            s' == s.(rows := s.rows[Id(s, w) := Row(s.rows[Id(s, w)].payload, p.status, p.execution)],
                     workers := s.workers[w := s.workers[w].(phase := Written)])
  {
    s' := Next(k, s, Write(w));
    t' := Do(k, t, s, Write(w), s');
  }

  /** A sweep of one row, up to its commit. */
  lemma DoSelectAndPublish(k: Config, t: ClaimTrace, s: State, id: string)
    returns (t1: ClaimTrace, s1: State, t2: ClaimTrace, s2: State)
    requires Runs(k, t, s) && s.sweep == Resting && id in s.rows && s.rows[id].status == Processing
    ensures Extends(t, SweepSelect({id}), t1, s1) && s1 == s.(sweep := Sweeping({id}, {}))
    ensures Runs(k, t2, s2) && Extends(t1, SweepPublish(id), t2, s2)
    ensures s2 == s.(sweep := Sweeping({id}, {id}), queue := s.queue + multiset{s.rows[id].payload})
  {
    s1 := Next(k, s, SweepSelect({id}));
    t1 := Do(k, t, s, SweepSelect({id}), s1);
    s2 := Next(k, s1, SweepPublish(id));
    t2 := Do(k, t1, s1, SweepPublish(id), s2);
    assert {} + {id} == {id};
  }

  lemma DoCommit(k: Config, t: ClaimTrace, s: State) returns (t': ClaimTrace, s': State)
    requires Runs(k, t, s) && s.sweep.Sweeping? && s.sweep.published == s.sweep.taken
    ensures Runs(k, t', s') && Extends(t, SweepCommit, t', s')
    ensures s' == s.(rows := s.rows - s.sweep.taken, sweep := Resting)
  {
    s' := Next(k, s, SweepCommit);
    t' := Do(k, t, s, SweepCommit, s');
  }

  lemma DoClaimError(k: Config, t: ClaimTrace, s: State, w: nat) returns (t': ClaimTrace, s': State)
    requires Runs(k, t, s) && w in s.workers && s.workers[w].phase == Holding
    ensures Runs(k, t', s') && Extends(t, ClaimError(w), t', s')
    ensures s' == s.(workers := s.workers - {w})
  {
    s' := Next(k, s, ClaimError(w));
    t' := Do(k, t, s, ClaimError(w), s');
  }

  // ----- The shop of these runs -----

  const ORDER := "o"

  const SHOP := Config(
    {0, 1}, map[ORDER := Order("u", 100, "USD")], Evidence.Limits(map["USD" := 1.0], 5000.0), 1, 10000.0)

  const MESSAGE := Body("r", "u", "hello", ORDER, 1.0, "USD")

  // ----- A failure before the claim -----

  /**
   The gateway has accepted the claim, one worker takes its only message, and its INSERT fails for another reason
   than a duplicate key: the message is dropped, and nothing of the claim is left.
   */
  lemma ClaimErrorLosesTheClaim() returns (t: ClaimTrace, s: State)
    ensures Runs(SHOP, t, s) && t.acts == [Publish(MESSAGE), Deliver(0, MESSAGE), ClaimError(0)]
    ensures "r" in s.accepted && !Delivery.Covered(s, "r")
  {
    s := Initial();
    t := Trace([s], []);
    t, s := DoPublish(SHOP, t, s, MESSAGE);
    t, s := DoDeliver(SHOP, t, s, 0, MESSAGE);
    t, s := DoClaimError(SHOP, t, s, 0);
    assert s.queue == multiset{} && s.workers == map[];
  }

  // ----- A sweep that is split by a discard -----

  lemma Start() returns (t: ClaimTrace, s: State)
    ensures Runs(SHOP, t, s) && t.acts == [Publish(MESSAGE), Deliver(0, MESSAGE), Claim(0)]
    ensures s == Initial().(accepted := {"r"}, rows := map["r" := Row(MESSAGE, Processing, None)],
                            workers := map[0 := Worker(MESSAGE, true, Claimed)])
  {
    s := Initial();
    t := Trace([s], []);
    t, s := DoPublish(SHOP, t, s, MESSAGE);
    t, s := DoDeliver(SHOP, t, s, 0, MESSAGE);
    t, s := DoClaim(SHOP, t, s, 0);
    assert s.queue == multiset{};
  }

  /**
   The sweeper publishes before it commits the delete. A worker that takes the republished message in
   between finds the row still there and discards it; then the row goes, and the accepted claim is lost,
   although nothing failed before a claim and no live worker was swept.
   */
  lemma SplitSweepLosesTheClaim() returns (t: ClaimTrace, s: State)
    ensures Runs(SHOP, t, s)
    ensures t.acts == [Publish(MESSAGE), Deliver(0, MESSAGE), Claim(0), Fail(0), SweepSelect({"r"}),
                       SweepPublish("r"), Deliver(0, MESSAGE), Discard(0), SweepCommit]
    ensures t.ss[4].workers == map[]
    ensures "r" in s.accepted && !Delivery.Covered(s, "r")
  {
    t, s := Start();
    t, s := DoFail(SHOP, t, s, 0);
    assert s.workers == map[];
    var t1, s1;
    t1, s1, t, s := DoSelectAndPublish(SHOP, t, s, "r");
    assert s.queue == multiset{MESSAGE};
    t, s := DoDeliver(SHOP, t, s, 0, MESSAGE);
    t, s := DoDiscard(SHOP, t, s, 0);
    assert s.queue == multiset{} && s.workers == map[];
    t, s := DoCommit(SHOP, t, s);
  }

  // ----- A sweep of a row whose worker is alive -----

  lemma SweptLiveWorker() returns (t: ClaimTrace, s: State)
    ensures Runs(SHOP, t, s)
    ensures t.acts == [Publish(MESSAGE), Deliver(0, MESSAGE), Claim(0), SweepSelect({"r"}), SweepPublish("r"),
                       SweepCommit, Deliver(1, MESSAGE), Claim(1)]
    ensures s.workers == map[0 := Worker(MESSAGE, true, Claimed), 1 := Worker(MESSAGE, true, Claimed)]
    ensures s.rows == map["r" := Row(MESSAGE, Processing, None)] && s.sweep == Resting
  {
    var t1, s1;
    t, s := Start();
    t1, s1, t, s := DoSelectAndPublish(SHOP, t, s, "r");
    t, s := DoCommit(SHOP, t, s);
    assert MESSAGE in s.queue && s.rows == map[];
    t, s := DoDeliver(SHOP, t, s, 1, MESSAGE);
    t, s := DoClaim(SHOP, t, s, 1);
  }

  /**
   The row lock is not held while a claim is judged, so the sweeper can take the row of a slow live
   worker. Both workers then decide the same request, and a final status changes to another one.
   */
  lemma SweptLiveWorkerChangesTheOutcome() returns (t: ClaimTrace, before: State, after: State)
    ensures Runs(SHOP, t, after) && |t.acts| == 12 && t.ss[11] == before
    ensures forall i | 0 <= i < 12 :: !t.acts[i].ClaimError? && !t.acts[i].Discard?
    ensures "r" in before.rows && before.rows["r"].status == BlockedMaliciousPrompt
    ensures "r" in after.rows && after.rows["r"].status == NeedsClarification
  {
    var s;
    t, s := SweptLiveWorker();
    t, s := DoScreen(SHOP, t, s, 0, true, ForRefund);
    t, s := DoScreen(SHOP, t, s, 1, false, Clarify);
    t, before := DoWrite(SHOP, t, s, 0);
    t, after := DoWrite(SHOP, t, before, 1);
  }
}

/** The bound on over-refund of `Exposure` is reached, for every number of overlapping checks. */
module OverRefundScenario {
  import opened Options
  import opened RefundLedger
  import opened Money
  import opened Protocol
  import opened Traces
  import opened Scenarios
  import Exposure
  import RefundSafety
  import Evidence

  function FirstWorkers(n: nat): (ws: set<nat>)
    ensures forall w: nat :: w in ws <==> w < n
  {
    if n == 0 then {} else FirstWorkers(n - 1) + {n - 1}
  }

  /** A shop with `n` workers and one order of 1.00 USD. */
  ghost function ShopOf(n: nat): Config {
    Config(FirstWorkers(n), map[ORDER := Order("u", 100, "USD")],
           Evidence.Limits(map["USD" := 1.0], 5000.0), 1, 10000.0)
  }

  /** Distinct request ids. */
  function Name(i: nat): (s: string)
    ensures |s| == i + 1
  {
    if i == 0 then "r" else Name(i - 1) + "r"
  }

  /** Claim `i` asks for the whole order. */
  function ClaimBody(i: nat): Body {
    Body(Name(i), "u", "", ORDER, 1.0, "USD")
  }

  lemma ClaimPasses(n: nat, i: nat)
    ensures Verified(ShopOf(n), [], ClaimBody(i)) && Cents(1.0) == 100
  {
    CentsIdempotent(100);
    CentsIdempotent(500000);
    assert FromCents(100) == 1.0 && FromCents(500000) == 5000.0;
    var history := Evidence.GetRefundHistory([], ShopOf(n).orders, "u", REFUND_HISTORY_LIMIT);
    assert history == Evidence.History(0, []);
  }

  /** The first `i` workers hold an approved attempt each, with its call in flight; nothing is recorded. */
  ghost predicate Overlapping(s: State, i: nat) {
    && s.queue == multiset{} && s.sweep == Resting && s.ledger == []
    && (forall w :: w in s.workers <==> 0 <= w < i)
    && (forall id | id in s.rows :: |id| <= i)
    && |s.calls| == i && |s.grants| == i
    && (forall c | 0 <= c < i :: c in s.flying && s.calls[c].args == ArgsOf(ClaimBody(c)))
  }

  lemma DoCheck(k: Config, t: ClaimTrace, s: State, w: nat) returns (t': ClaimTrace, s': State)
    requires Runs(k, t, s) && w in s.workers && s.workers[w].phase == Checking
    requires Verified(k, s.ledger, s.workers[w].body)
    ensures Runs(k, t', s') && Extends(t, Check(w, true), t', s')
    ensures s' == s.(grants := s.grants + [Grant(s.workers[w].body, s.ledger)],
                     workers := s.workers[w := s.workers[w].(phase := Judging(Some(|s.grants|)))])
  {
    s' := Next(k, s, Check(w, true));
    t' := Do(k, t, s, Check(w, true), s');
  }

  lemma DoApprove(k: Config, t: ClaimTrace, s: State, w: nat, g: nat) returns (t': ClaimTrace, s': State)
    requires Runs(k, t, s) && w in s.workers && s.workers[w].phase == Judging(Some(g))
    ensures Runs(k, t', s') && Extends(t, Judge(w, true, ForRefund), t', s')
    ensures s' == s.(workers := s.workers[w := s.workers[w].(phase := Calling(g, 0, None))],
                     approved := s.approved + {g})
  {
    s' := Next(k, s, Judge(w, true, ForRefund));
    t' := Do(k, t, s, Judge(w, true, ForRefund), s');
  }

  lemma DoIssue(k: Config, t: ClaimTrace, s: State, w: nat, g: nat) returns (t': ClaimTrace, s': State)
    requires Runs(k, t, s) && w in s.workers && s.workers[w].phase == Calling(g, 0, None) && k.maxRetries > 0
    ensures Runs(k, t', s') && Extends(t, Issue(w), t', s')
    ensures s' == s.(calls := s.calls + [Call(g, ArgsOf(s.workers[w].body))],
                     flying := s.flying + {|s.calls|},
                     workers := s.workers[w := s.workers[w].(phase := Calling(g, 0, Some(|s.calls|)))])
  {
    s' := Next(k, s, Issue(w));
    t' := Do(k, t, s, Issue(w), s');
  }

  lemma DoLand(k: Config, t: ClaimTrace, s: State, c: nat) returns (t': ClaimTrace, s': State)
    requires Runs(k, t, s) && c in s.flying && c < |s.calls| && ValidArgs(k, s.calls[c].args)
    requires forall i | 0 <= i < |s.ledger| :: s.ledger[i].id != c
    ensures Runs(k, t', s') && Extends(t, Land(c, c, 0), t', s')
    ensures s'.ledger == AfterRecord(s.ledger, s.calls[c].args, c, 0)
    ensures s'.calls == s.calls && s'.grants == s.grants && s'.flying == s.flying - {c}
  {
    s' := Next(k, s, Land(c, c, 0));
    t' := Do(k, t, s, Land(c, c, 0), s');
  }

  lemma ReceiveClaim(n: nat, t: ClaimTrace, s: State, i: nat) returns (t': ClaimTrace, s': State)
    requires Runs(ShopOf(n), t, s) && i < n && i !in s.workers && s.queue == multiset{}
    ensures Runs(ShopOf(n), t', s')
    ensures s' == s.(accepted := s'.accepted, workers := s.workers[i := Worker(ClaimBody(i), true, Holding)])
  {
    t', s' := DoPublish(ShopOf(n), t, s, ClaimBody(i));
    t', s' := DoDeliver(ShopOf(n), t', s', i, ClaimBody(i));
    assert s'.queue == multiset{};
  }

  lemma TakeClaim(n: nat, t: ClaimTrace, s: State, i: nat) returns (t': ClaimTrace, s': State)
    requires Runs(ShopOf(n), t, s) && Name(i) !in s.rows
    requires i in s.workers && s.workers[i] == Worker(ClaimBody(i), true, Holding)
    ensures Runs(ShopOf(n), t', s') && s'.rows.Keys == s.rows.Keys + {Name(i)}
    ensures s' == s.(rows := s'.rows, workers := s.workers[i := Worker(ClaimBody(i), true, Checking)])
  {
    t', s' := DoClaim(ShopOf(n), t, s, i);
    t', s' := DoScreen(ShopOf(n), t', s', i, false, ForRefund);
    assert s'.workers == s.workers[i := Worker(ClaimBody(i), true, Checking)];
  }

  lemma CallForClaim(n: nat, t: ClaimTrace, s: State, i: nat) returns (t': ClaimTrace, s': State)
    requires Runs(ShopOf(n), t, s) && s.ledger == [] && |s.grants| == |s.calls| == i
    requires i in s.workers && s.workers[i] == Worker(ClaimBody(i), true, Checking)
    ensures Runs(ShopOf(n), t', s') && |s'.grants| == i + 1 && s'.workers.Keys == s.workers.Keys
    ensures s'.calls == s.calls + [Call(i, ArgsOf(ClaimBody(i)))] && s'.flying == s.flying + {i}
    ensures s'.queue == s.queue && s'.rows == s.rows && s'.sweep == s.sweep && s'.ledger == s.ledger
  {
    ClaimPasses(n, i);
    t', s' := DoCheck(ShopOf(n), t, s, i);
    t', s' := DoApprove(ShopOf(n), t', s', i, i);
    t', s' := DoIssue(ShopOf(n), t', s', i, i);
  }

  /** One more worker joins before anything is recorded. */
  lemma Join(n: nat, t: ClaimTrace, s: State, i: nat) returns (t': ClaimTrace, s': State)
    requires Runs(ShopOf(n), t, s) && Overlapping(s, i) && i < n
    ensures Runs(ShopOf(n), t', s') && Overlapping(s', i + 1)
  {
    var t1, s1 := ReceiveClaim(n, t, s, i);
    var t2, s2 := TakeClaim(n, t1, s1, i);
    t', s' := CallForClaim(n, t2, s2, i);
  }

  lemma {:induction false} AllJoin(n: nat, i: nat) returns (t: ClaimTrace, s: State)
    requires i <= n
    ensures Runs(ShopOf(n), t, s) && Overlapping(s, i)
  {
    if i == 0 {
      s := Initial();
      t := Trace([s], []);
    } else {
      t, s := AllJoin(n, i - 1);
      t, s := Join(n, t, s, i - 1);
    }
  }

  /** `i` of the `n` calls have been recorded, each for the whole order. */
  ghost predicate Landed(s: State, n: nat, i: nat) {
    && |s.grants| == n && |s.calls| == n && |s.ledger| == i && OrderTotal(s.ledger, ORDER) == i * 100
    && (forall j | 0 <= j < i :: s.ledger[j].id == j && s.ledger[j].requestId == Name(j))
    && (forall c | 0 <= c < n :: s.calls[c].args == ArgsOf(ClaimBody(c)))
    && (forall c | i <= c < n :: c in s.flying)
  }

  lemma {:induction false} AllLand(n: nat, i: nat) returns (t: ClaimTrace, s: State)
    requires i <= n
    ensures Runs(ShopOf(n), t, s) && Landed(s, n, i)
  {
    if i == 0 {
      t, s := AllJoin(n, n);
    } else {
      var s0;
      t, s0 := AllLand(n, i - 1);
      var c := i - 1;
      assert forall j | 0 <= j < c :: |s0.ledger[j].requestId| != |Name(c)|;
      t, s := DoLand(ShopOf(n), t, s0, c);
      CentsIdempotent(100);
      assert FromCents(100) == 1.0;
      TotalAfterAppend(s0.ledger, NewRow(s0.calls[c].args, c, 0), ORDER);
    }
  }

  lemma {:induction false} AttemptsAtMost(s: State, o: string, n: nat)
    requires n <= |s.grants|
    ensures Exposure.Attempts(s, o, n) <= n
  {
    if n > 0 {
      AttemptsAtMost(s, o, n - 1);
    }
  }

  lemma {:induction false} GrantsGrow(k: Config, ss: seq<State>, acts: seq<Action>, m: nat, n: nat)
    requires IsRun(k, ss, acts) && m <= n <= |acts|
    ensures |ss[m].grants| <= |ss[n].grants|
  {
    if m < n {
      GrantsGrow(k, ss, acts, m, n - 1);
      assert StepAt(k, ss, acts, n - 1);
      RefundSafety.GrantsStep(k, ss[n - 1], acts[n - 1], ss[n]);
    }
  }

  /**
   For every `w`, a run with never more than `w` outstanding attempts refunds the order `w` times over:
   all `w` checks read the ledger before any of their refunds is recorded.
   */
  lemma OverRefundBoundIsReached(w: nat) returns (k: Config, ss: seq<State>, acts: seq<Action>)
    requires w > 0
    ensures ConfigOk(k) && IsRun(k, ss, acts) && ORDER in k.orders && k.orders[ORDER].cents > 0
    ensures |ss[|acts|].grants| == w
    ensures forall i | 0 <= i <= |acts| :: Exposure.OutstandingAttempts(ss[i], ORDER) <= w
    ensures OrderTotal(ss[|acts|].ledger, ORDER) == w * k.orders[ORDER].cents
  {
    var t, s := AllLand(w, w);
    k, ss, acts := ShopOf(w), t.ss, t.acts;
    assert 0 in k.workers;
    forall i | 0 <= i <= |acts| ensures Exposure.OutstandingAttempts(ss[i], ORDER) <= w {
      AttemptsAtMost(ss[i], ORDER, |ss[i].grants|);
      GrantsGrow(k, ss, acts, i, |acts|);
    }
  }
}

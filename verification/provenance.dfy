/**
 Where messages and refunds come from, over every run: a message is never made up or multiplied, and a ledger row
 is, field by field, what a published claim asked for.
 */
module Provenance {
  import opened Options
  import opened Counting
  import opened RefundLedger
  import opened Money
  import opened Protocol
  import opened RefundSafety
  import opened Exposure
  import Evidence

  // ----- What the environment may do -----

  /** A claim can be published, and a queued message delivered to any free worker, whatever else is going on. */
  lemma MessagesCanCome(k: Config, s: State, b: Body, w: nat)
    ensures Enabled(k, s, Publish(b))
    ensures w in k.workers && w !in s.workers && b in s.queue ==> Enabled(k, s, Deliver(w, b))
  {
  }

  /** A worker can crash at any point, lose its channel, fail before its claim, and fail after it. */
  lemma WorkersCanFail(k: Config, s: State, w: nat)
    requires w in s.workers
    ensures Enabled(k, s, Crash(w))
    ensures s.workers[w].owns ==> Enabled(k, s, ChannelLost(w))
    ensures s.workers[w].phase == Holding ==> Enabled(k, s, ClaimError(w))
    ensures s.workers[w].phase != Holding && s.workers[w].phase != Written ==> Enabled(k, s, Fail(w))
  {
  }

  /** A flying call can be lost at any point, and land at any point if the boundary admits its arguments. */
  lemma CallsCanLand(k: Config, s: State, c: nat, id: nat, now: int)
    requires c in s.flying
    ensures Enabled(k, s, Lose(c))
    ensures c < |s.calls| && (forall i | 0 <= i < |s.ledger| :: s.ledger[i].id != id)
            && s.calls[c].args.requestId != "" && s.calls[c].args.orderId != ""
            && 0.0 < s.calls[c].args.amount <= k.maxAmount && s.calls[c].args.currency in ["USD", "EUR", "GBP"]
            ==> Enabled(k, s, Land(c, id, now))
  {
  }

  /** A sweep can take any rows in progress, republish them in any order, and stop at any point. */
  lemma SweepsCanStrike(k: Config, s: State, ids: set<string>, id: string)
    ensures s.sweep == Resting && ids != {} && (forall i | i in ids :: i in s.rows && s.rows[i].status == Processing)
            ==> Enabled(k, s, SweepSelect(ids))
    ensures s.sweep.Sweeping? ==> Enabled(k, s, SweepAbort)
    ensures s.sweep.Sweeping? && s.sweep.published == s.sweep.taken ==> Enabled(k, s, SweepCommit)
    ensures s.sweep.Sweeping? && id in s.sweep.taken && id !in s.sweep.published && id in s.rows ==>
              Enabled(k, s, SweepPublish(id))
  {
  }

  /** A crash takes the worker, and only the worker; what it still owned goes back to the queue. */
  lemma CrashTakesTheWorkerOnly(k: Config, s: State, w: nat)
    requires w in s.workers
    ensures var s' := Next(k, s, Crash(w)); var v := s.workers[w];
            s' == s.(workers := s.workers - {w}, queue := s.queue + if v.owns then multiset{v.body} else multiset{})
  {
    assert s.queue + multiset{} == s.queue;
  }

  // ----- Every message is one that was published -----

  ghost predicate WasPublished(acts: seq<Action>, n: nat, b: Body) {
    exists j :: 0 <= j < n && j < |acts| && acts[j] == Publish(b)
  }

  ghost predicate AllPublished(s: State, acts: seq<Action>, n: nat) {
    && (forall b | b in s.queue :: WasPublished(acts, n, b))
    && (forall w | w in s.workers :: WasPublished(acts, n, s.workers[w].body))
    && (forall id | id in s.rows :: WasPublished(acts, n, s.rows[id].payload))
    && (forall g | 0 <= g < |s.grants| :: WasPublished(acts, n, s.grants[g].body))
  }

  lemma PublishedLater(acts: seq<Action>, n: nat, b: Body)
    requires WasPublished(acts, n, b)
    ensures WasPublished(acts, n + 1, b)
  {
  }

  lemma QueuePublished(k: Config, s: State, acts: seq<Action>, n: nat, s': State, b: Body)
    requires n < |acts| && Enabled(k, s, acts[n]) && s' == Next(k, s, acts[n]) && AllPublished(s, acts, n)
    requires b in s'.queue
    ensures WasPublished(acts, n + 1, b)
  {
    if acts[n] != Publish(b) {
      assert b in s.queue || (exists w :: w in s.workers && b == s.workers[w].body)
          || (exists id :: id in s.rows && b == s.rows[id].payload);
      PublishedLater(acts, n, b);
    }
  }

  lemma WorkerPublished(k: Config, s: State, acts: seq<Action>, n: nat, s': State, w: nat)
    requires n < |acts| && Enabled(k, s, acts[n]) && s' == Next(k, s, acts[n]) && AllPublished(s, acts, n)
    requires w in s'.workers
    ensures WasPublished(acts, n + 1, s'.workers[w].body)
  {
    if w in s.workers {
      BodyKept(k, s, acts[n], w, s');
    }
    PublishedLater(acts, n, s'.workers[w].body);
  }

  lemma RowPublished(k: Config, s: State, acts: seq<Action>, n: nat, s': State, id: string)
    requires n < |acts| && Enabled(k, s, acts[n]) && s' == Next(k, s, acts[n]) && AllPublished(s, acts, n)
    requires id in s'.rows
    ensures WasPublished(acts, n + 1, s'.rows[id].payload)
  {
    if acts[n].Claim? && id == Id(s, acts[n].w) {
      PublishedLater(acts, n, s.workers[acts[n].w].body);
    } else {
      PayloadKept(k, s, acts[n], s', id);
      PublishedLater(acts, n, s.rows[id].payload);
    }
  }

  lemma PayloadKept(k: Config, s: State, a: Action, s': State, id: string)
    requires Enabled(k, s, a) && s' == Next(k, s, a) && id in s'.rows && !(a.Claim? && id == Id(s, a.w))
    ensures id in s.rows && s'.rows[id].payload == s.rows[id].payload
  {
  }

  lemma AllPublishedStep(k: Config, s: State, acts: seq<Action>, n: nat, s': State)
    requires n < |acts| && Enabled(k, s, acts[n]) && s' == Next(k, s, acts[n]) && AllPublished(s, acts, n)
    ensures AllPublished(s', acts, n + 1)
  {
    forall b | b in s'.queue ensures WasPublished(acts, n + 1, b) { QueuePublished(k, s, acts, n, s', b); }
    forall w | w in s'.workers ensures WasPublished(acts, n + 1, s'.workers[w].body) {
      WorkerPublished(k, s, acts, n, s', w);
    }
    forall id | id in s'.rows ensures WasPublished(acts, n + 1, s'.rows[id].payload) {
      RowPublished(k, s, acts, n, s', id);
    }
    GrantsStep(k, s, acts[n], s');
    forall g | 0 <= g < |s'.grants| ensures WasPublished(acts, n + 1, s'.grants[g].body) {
      if g == |s.grants| {
        PublishedLater(acts, n, s.workers[acts[n].w].body);
      } else {
        PublishedLater(acts, n, s.grants[g].body);
      }
    }
  }

  /** Over every run, whatever is queued, worked on, stored or checked is a body that was published before. */
  lemma {:induction false} EveryBodyWasPublished(k: Config, ss: seq<State>, acts: seq<Action>, n: nat)
    requires IsRun(k, ss, acts) && n <= |acts|
    ensures AllPublished(ss[n], acts, n)
  {
    if n > 0 {
      EveryBodyWasPublished(k, ss, acts, n - 1);
      assert StepAt(k, ss, acts, n - 1);
      AllPublishedStep(k, ss[n - 1], acts, n - 1, ss[n]);
    }
  }

  // ----- Every refund is what its claim asked for -----

  /** What the boundary demands of the arguments of a refund, written out. */
  ghost predicate Admissible(k: Config, args: RefundArgs) {
    && args.requestId != "" && args.orderId != ""
    && 0.0 < args.amount <= k.maxAmount && args.currency in ["USD", "EUR", "GBP"]
  }

  ghost predicate ReportsAdmitted(k: Config, s: State) {
    forall c | c in s.reports :: c < |s.calls| && Admissible(k, s.calls[c].args)
  }

  lemma ReportsAdmittedStep(k: Config, s: State, a: Action, s': State)
    requires ReportsAdmitted(k, s) && Enabled(k, s, a) && s' == Next(k, s, a)
    ensures ReportsAdmitted(k, s')
  {
    assert s.calls <= s'.calls;
    forall c | c in s'.reports ensures c < |s'.calls| && Admissible(k, s'.calls[c].args) {
      if a.Land? && a.call == c {
        assert s'.calls[c] == s.calls[c];
      } else {
        assert c in s.reports && s'.calls[c] == s.calls[c];
      }
    }
  }

  lemma {:induction false} ReportsAdmittedRun(k: Config, ss: seq<State>, acts: seq<Action>, n: nat)
    requires IsRun(k, ss, acts) && n <= |acts|
    ensures ReportsAdmitted(k, ss[n])
  {
    if n > 0 {
      ReportsAdmittedRun(k, ss, acts, n - 1);
      assert StepAt(k, ss, acts, n - 1);
      ReportsAdmittedStep(k, ss[n - 1], acts[n - 1], ss[n]);
    }
  }

  /**
   Every row of the ledger, field by field: some published claim, checked (`g`) and approved, has the row's request
   and order, its amount to the cent, and its currency, US dollars where it names none; all of them non-empty, the
   amount positive and within the tool's limit.
   */
  lemma EveryRefundIsItsClaim(k: Config, ss: seq<State>, acts: seq<Action>, n: nat, x: RefundLedger.Refund)
    returns (g: nat, body: Body)
    requires IsRun(k, ss, acts) && n <= |acts| && x in ss[n].ledger
    ensures exists j :: 0 <= j < n && acts[j] == Publish(body)
    ensures g < |ss[n].grants| && g in ss[n].approved && ss[n].grants[g].body == body
    ensures ss[n].grants[g].snapshot <= ss[n].ledger && Verified(k, ss[n].grants[g].snapshot, body)
    ensures x.requestId == body.requestId != "" && x.orderId == body.orderId != ""
    ensures x.cents == Cents(body.amount) && 0.0 < body.amount <= k.maxAmount
    ensures x.currency == (if body.currency == "" then "USD" else body.currency) && x.currency in ["USD", "EUR", "GBP"]
  {
    var s := ss[n];
    PipelineInvRun(k, ss, acts, n);
    CallsInvRun(k, ss, acts, n);
    ReportsAdmittedRun(k, ss, acts, n);
    EveryBodyWasPublished(k, ss, acts, n);
    ExecutedOnce(s, x);
    var c: nat :| ExecutedBy(s, c, x);
    assert CallInv(s, c) && Admissible(k, s.calls[c].args);
    g := s.calls[c].grant;
    body := s.grants[g].body;
    assert GrantInv(k, s, g) && WasPublished(acts, n, body);
    CallIsItsClaim(s, c, body, x);
  }

  lemma CallIsItsClaim(s: State, c: nat, body: Body, x: RefundLedger.Refund)
    requires ExecutedBy(s, c, x) && s.calls[c].args == ArgsOf(body)
    ensures x.requestId == body.requestId == s.calls[c].args.requestId
    ensures x.orderId == body.orderId == s.calls[c].args.orderId
    ensures x.cents == Cents(body.amount) && body.amount == s.calls[c].args.amount
    ensures x.currency == (if body.currency == "" then "USD" else body.currency) == s.calls[c].args.currency
  {
  }

  /** What it takes to pass the worker's check, on the claim, the orders and the ledger, with 100 refunds listed. */
  lemma VerifiedExactlyWhen(k: Config, ledger: seq<RefundLedger.Refund>, body: Body)
    ensures var currency := if body.currency == "" then "USD" else body.currency;
            Verified(k, ledger, body) <==>
            && body.userId != ""
            && body.orderId in k.orders
            && k.orders[body.orderId].userId == body.userId
            && k.orders[body.orderId].currency == currency
            && |set i: nat | i < |ledger| && ledger[i].orderId in k.orders
                             && k.orders[ledger[i].orderId].userId == body.userId| <= 100
            && (forall i | 0 <= i < |ledger| && ledger[i].orderId == body.orderId
                           && ledger[i].requestId != body.requestId :: ledger[i].currency == currency)
            && (var left := k.orders[body.orderId].cents - OrderTotalExcept(ledger, body.orderId, body.requestId);
                Cents(body.amount) <= if left > 0 then left else 0)
            && currency in k.limits.ratesToUsd
            && Converted(body.amount, k.limits.ratesToUsd[currency]) <= Cents(k.limits.thresholdUsd)
  {
    Evidence.PassesExactlyWhen(ClaimOf(body), ledger, k.orders, 100, k.limits);
  }

  // ----- No message is made up, lost or multiplied -----

  /** The deliveries of a body that the broker still counts as a worker's. */
  ghost function Deliveries(s: State, b: Body): set<nat> {
    set w | w in s.workers && s.workers[w].owns && s.workers[w].body == b
  }

  /** How often the body is queued or delivered and not settled. */
  ghost function Copies(s: State, b: Body): nat {
    s.queue[b] + |Deliveries(s, b)|
  }

  /** The gateway or the sweeper sends the body. */
  ghost predicate Sends(s: State, a: Action, b: Body) {
    a == Publish(b) || (a.SweepPublish? && a.requestId in s.rows && s.rows[a.requestId].payload == b)
  }

  /** A worker acks or nacks a delivery of the body that is still its. */
  ghost predicate Settles(s: State, a: Action, b: Body) {
    && (a.DropEmpty? || a.Discard? || a.ClaimError? || a.WriteMissing? || a.Fail? || a.Settle?)
    && a.w in Deliveries(s, b)
  }

  /** A worker's delivery comes with its message, and goes with its settling, its channel or its process. */
  lemma DeliveryMoves(k: Config, s: State, a: Action, w: nat, b: Body, s': State)
    requires Enabled(k, s, a) && s' == Next(k, s, a) && (a.Deliver? || Leaves(a) || a.ChannelLost?)
    ensures w in Deliveries(s', b) <==>
            if a.w != w then w in Deliveries(s, b) else a.Deliver? && a.body == b
  {
  }

  lemma DeliveriesKept(k: Config, s: State, a: Action, b: Body, s': State)
    requires Enabled(k, s, a) && s' == Next(k, s, a) && !(a.Deliver? || Leaves(a) || a.ChannelLost?)
    ensures Deliveries(s', b) == Deliveries(s, b)
  {
    forall w: nat ensures w in Deliveries(s', b) <==> w in Deliveries(s, b) {
      if w in s.workers {
        BodyKept(k, s, a, w, s');
        assert s'.workers[w].owns == s.workers[w].owns;
      }
    }
  }

  lemma DeliveriesStep(k: Config, s: State, a: Action, b: Body, s': State)
    requires Enabled(k, s, a) && s' == Next(k, s, a)
    ensures Deliveries(s', b) ==
            if a.Deliver? && a.body == b then Deliveries(s, b) + {a.w}
            else if Leaves(a) || a.ChannelLost? then Deliveries(s, b) - {a.w}
            else Deliveries(s, b)
  {
    if a.Deliver? || Leaves(a) || a.ChannelLost? {
      forall w: nat { DeliveryMoves(k, s, a, w, b, s'); }
      Replace(Deliveries(s, b), Deliveries(s', b), a.w, a.Deliver? && a.body == b);
      assert a.Deliver? ==> a.w !in Deliveries(s, b);
    } else {
      DeliveriesKept(k, s, a, b, s');
    }
  }

  lemma Replace(before: set<nat>, after: set<nat>, w: nat, present: bool)
    requires forall v: nat :: v in after <==> if v != w then v in before else present
    ensures after == if present then before + {w} else before - {w}
  {
  }

  lemma QueueStep(k: Config, s: State, a: Action, b: Body, s': State)
    requires Enabled(k, s, a) && s' == Next(k, s, a)
    ensures s'.queue[b] == s.queue[b] + (if Sends(s, a, b) then 1 else 0)
                           - (if a.Deliver? && a.body == b then 1 else 0)
                           + (if (a.Crash? || a.ChannelLost?) && a.w in Deliveries(s, b) then 1 else 0)
  {
  }

  /** Each step adds the copies it sends and takes the ones it settles; delivering and requeueing only move them. */
  lemma CopiesStep(k: Config, s: State, a: Action, b: Body, s': State)
    requires Enabled(k, s, a) && s' == Next(k, s, a)
    ensures Copies(s', b) + (if Settles(s, a, b) then 1 else 0) == Copies(s, b) + (if Sends(s, a, b) then 1 else 0)
  {
    DeliveriesStep(k, s, a, b, s');
    QueueStep(k, s, a, b, s');
    if a.Deliver? {
      assert a.w !in Deliveries(s, b);
    }
  }

  ghost function SentBefore(ss: seq<State>, acts: seq<Action>, n: nat, b: Body): set<nat>
    requires n <= |acts| <= |ss|
  {
    set j: nat | j < n && Sends(ss[j], acts[j], b)
  }

  ghost function SettledBefore(ss: seq<State>, acts: seq<Action>, n: nat, b: Body): set<nat>
    requires n <= |acts| <= |ss|
  {
    set j: nat | j < n && Settles(ss[j], acts[j], b)
  }

  /** Messages are conserved: what was sent of a body is what was settled and what is still there. */
  lemma {:induction false} MessagesAreConserved(k: Config, ss: seq<State>, acts: seq<Action>, n: nat, b: Body)
    requires IsRun(k, ss, acts) && n <= |acts|
    ensures |SentBefore(ss, acts, n, b)| == |SettledBefore(ss, acts, n, b)| + Copies(ss[n], b)
  {
    if n == 0 {
      assert SentBefore(ss, acts, 0, b) == {} == SettledBefore(ss, acts, 0, b);
      assert Deliveries(ss[0], b) == {};
    } else {
      var i := n - 1;
      MessagesAreConserved(k, ss, acts, i, b);
      CopiesStepOfRun(k, ss, acts, i, b);
      OneMoreSent(ss, acts, i, b);
      OneMoreSettled(ss, acts, i, b);
    }
  }

  lemma OneMoreSent(ss: seq<State>, acts: seq<Action>, i: nat, b: Body)
    requires i < |acts| <= |ss|
    ensures |SentBefore(ss, acts, i + 1, b)|
            == |SentBefore(ss, acts, i, b)| + (if Sends(ss[i], acts[i], b) then 1 else 0)
  {
    OneMore(SentBefore(ss, acts, i, b), SentBefore(ss, acts, i + 1, b), i, Sends(ss[i], acts[i], b));
  }

  lemma OneMoreSettled(ss: seq<State>, acts: seq<Action>, i: nat, b: Body)
    requires i < |acts| <= |ss|
    ensures |SettledBefore(ss, acts, i + 1, b)|
            == |SettledBefore(ss, acts, i, b)| + (if Settles(ss[i], acts[i], b) then 1 else 0)
  {
    OneMore(SettledBefore(ss, acts, i, b), SettledBefore(ss, acts, i + 1, b), i, Settles(ss[i], acts[i], b));
  }

  lemma CopiesStepOfRun(k: Config, ss: seq<State>, acts: seq<Action>, i: nat, b: Body)
    requires IsRun(k, ss, acts) && i < |acts|
    ensures Copies(ss[i + 1], b) + (if Settles(ss[i], acts[i], b) then 1 else 0)
            == Copies(ss[i], b) + (if Sends(ss[i], acts[i], b) then 1 else 0)
  {
    assert StepAt(k, ss, acts, i);
    CopiesStep(k, ss[i], acts[i], b, ss[i + 1]);
  }

  // ----- What is counted as outstanding -----

  lemma {:induction false} AttemptsAre(s: State, o: string, n: nat)
    requires n <= |s.grants|
    ensures Attempts(s, o, n) == |set g: nat | g < n && Outstanding(s, o, g)|
  {
    var all := set g: nat | g < n && Outstanding(s, o, g);
    if n == 0 {
      assert all == {};
    } else {
      AttemptsAre(s, o, n - 1);
      var earlier := set g: nat | g < n - 1 && Outstanding(s, o, g);
      assert all == earlier + (if Outstanding(s, o, n - 1) then {n - 1} else {});
    }
  }

  /**
   The number of outstanding attempts on an order: the passed checks of claims on it that have no ledger row yet and
   that a worker is still judging or executing, or that a flying call was made for.
   */
  lemma OutstandingAttemptsAre(s: State, o: string)
    ensures OutstandingAttempts(s, o) ==
            |set g: nat | g < |s.grants| && s.grants[g].body.orderId == o
               && (forall i | 0 <= i < |s.ledger| :: s.ledger[i].requestId != s.grants[g].body.requestId)
               && ((exists w :: w in s.workers
                                && (s.workers[w].phase == Judging(Some(g))
                                    || (s.workers[w].phase.Calling? && s.workers[w].phase.grant == g)))
                   || (exists c :: c in s.flying && 0 <= c < |s.calls| && s.calls[c].grant == g))|
  {
    AttemptsAre(s, o, |s.grants|);
    var all := set g: nat | g < |s.grants| && s.grants[g].body.orderId == o
               && (forall i | 0 <= i < |s.ledger| :: s.ledger[i].requestId != s.grants[g].body.requestId)
               && ((exists w :: w in s.workers
                                && (s.workers[w].phase == Judging(Some(g))
                                    || (s.workers[w].phase.Calling? && s.workers[w].phase.grant == g)))
                   || (exists c :: c in s.flying && 0 <= c < |s.calls| && s.calls[c].grant == g));
    forall g: nat ensures g in all <==> g < |s.grants| && Outstanding(s, o, g) {
      if g < |s.grants| {
        OutstandingMeans(s, o, g);
      }
    }
    assert all == set g: nat | g < |s.grants| && Outstanding(s, o, g);
  }

  lemma OutstandingMeans(s: State, o: string, g: nat)
    requires g < |s.grants|
    ensures Outstanding(s, o, g) <==>
            && s.grants[g].body.orderId == o
            && (forall i | 0 <= i < |s.ledger| :: s.ledger[i].requestId != s.grants[g].body.requestId)
            && ((exists w :: w in s.workers
                             && (s.workers[w].phase == Judging(Some(g))
                                 || (s.workers[w].phase.Calling? && s.workers[w].phase.grant == g)))
                || (exists c :: c in s.flying && 0 <= c < |s.calls| && s.calls[c].grant == g))
  {
  }
}

/** Sums of natural numbers over the entries of a finite map. */
module MapSums {
  ghost function Sum<K>(m: map<K, nat>): nat {
    if m == map[] then 0 else var k :| k in m; m[k] + Sum(m - {k})
  }

  lemma {:induction false} SumSplit<K>(m: map<K, nat>, k: K)
    requires k in m
    ensures Sum(m) == m[k] + Sum(m - {k})
    decreases |m|
  {
    var j :| j in m && Sum(m) == m[j] + Sum(m - {j});
    if j != k {
      assert |(m - {j}).Keys| < |m.Keys|;
      assert |(m - {k}).Keys| < |m.Keys|;
      SumSplit(m - {j}, k);
      SumSplit(m - {k}, j);
      assert m - {j} - {k} == m - {k} - {j};
    }
  }

  lemma {:induction false} SumAtMost<K>(m: map<K, nat>, m': map<K, nat>)
    requires m'.Keys <= m.Keys
    requires forall k | k in m' :: m'[k] <= m[k]
    ensures Sum(m') <= Sum(m)
    decreases |m|
  {
    if m.Keys != {} {
      var k :| k in m.Keys;
      SumSplit(m, k);
      assert |(m - {k}).Keys| < |m.Keys|;
      SumAtMost(m - {k}, m' - {k});
      if k in m' {
        SumSplit(m', k);
      } else {
        assert m' - {k} == m';
      }
    } else {
      assert m' == m;
    }
  }

  /** An entry that shrinks or goes away takes the difference out of the sum. */
  lemma SumDrops<K>(m: map<K, nat>, m': map<K, nat>, k: K)
    requires m'.Keys <= m.Keys
    requires forall j | j in m' :: m'[j] <= m[j]
    requires k in m
    ensures Sum(m') + m[k] <= Sum(m) + (if k in m' then m'[k] else 0)
  {
    SumSplit(m, k);
    SumAtMost(m - {k}, m' - {k});
    if k in m' {
      SumSplit(m', k);
    } else {
      assert m' - {k} == m';
    }
  }

  lemma SumAdds<K>(m: map<K, nat>, k: K, v: nat)
    requires k !in m
    ensures Sum(m[k := v]) == Sum(m) + v
  {
    SumSplit(m[k := v], k);
    assert m[k := v] - {k} == m;
  }
}

/**
 Once faults stop, the system drains: a measure falls with every step, so every run of fault-free steps
 is finite, and where it ends every accepted request has a decided row.
 */
module Draining {
  import opened Options
  import opened Protocol
  import opened MapSums
  import opened Delivery
  import opened RefundSafety

  /** A step that is not a fault and brings no new work. */
  ghost predicate Healthy(s: State, a: Action) {
    && !a.Publish? && !a.ClaimError? && !a.Fail? && !a.Crash? && !a.ChannelLost? && !a.SweepAbort?
    && Undropped(s, a) && OwnerlessSweep(s, a)
  }

  // ----- The measure -----

  /** What one queued message may still take, attempts included. */
  function MessageWork(k: Config): nat { 8 + 4 * k.maxRetries }

  function PhaseWork(k: Config, p: Phase): nat {
    match p
    case Holding => 7 + 4 * k.maxRetries
    case Claimed => 6 + 4 * k.maxRetries
    case Checking => 5 + 4 * k.maxRetries
    case Judging(_) => 4 + 4 * k.maxRetries
    case Calling(_, tries, None) => if tries < k.maxRetries then 3 + 4 * (k.maxRetries - tries) else 3
    case Calling(_, tries, Some(_)) => if tries < k.maxRetries then 1 + 4 * (k.maxRetries - tries) else 5
    case Finishing(_, _) => 2
    case Written => 1
  }

  ghost predicate Owned(s: State, id: string) {
    exists w :: w in s.workers && OwnsRow(s.workers[w]) && Id(s, w) == id
  }

  /**
   An orphaned row has a whole message ahead of it, and its sweep; so has a row that a sweep holds already, even if
   a live worker answers for it.
   */
  ghost function RowWork(k: Config, s: State, id: string): nat
    requires id in s.rows
  {
    if s.rows[id].status != Processing then 0
    else if id in Published(s) then 1
    else if id in Taken(s) then MessageWork(k) + 2
    else if Owned(s, id) then 0
    else MessageWork(k) + 3
  }

  ghost function WorkerWorks(k: Config, s: State): map<nat, nat> {
    map w | w in s.workers :: PhaseWork(k, s.workers[w].phase)
  }

  ghost function RowWorks(k: Config, s: State): map<string, nat> {
    map id | id in s.rows :: RowWork(k, s, id)
  }

  ghost function Work(k: Config, s: State): nat {
    Sum(WorkerWorks(k, s)) + Sum(RowWorks(k, s)) + |s.queue| * MessageWork(k) + |s.flying|
  }

  // ----- Each step makes progress -----

  ghost predicate SweepsSome(s: State) {
    s.sweep.Sweeping? ==> s.sweep.taken != {}
  }

  ghost predicate DrainInv(k: Config, s: State) {
    SweepInv(s) && PipelineInv(k, s) && CallsInv(s) && SweepsSome(s)
  }

  /** The steps of a busy worker. */
  predicate IsWorkerStep(a: Action) {
    !a.Publish? && !a.Deliver? && !a.Land? && !a.Lose?
    && !a.SweepSelect? && !a.SweepPublish? && !a.SweepCommit? && !a.SweepAbort?
  }

  lemma WorkerStepWork(k: Config, s: State, a: Action, s': State)
    requires Enabled(k, s, a) && Healthy(s, a) && IsWorkerStep(a) && s' == Next(k, s, a)
    ensures Sum(WorkerWorks(k, s')) + (if a.Issue? then 2 else 1) <= Sum(WorkerWorks(k, s))
  {
    PhaseStep(k, s, a, s');
    SumDrops(WorkerWorks(k, s), WorkerWorks(k, s'), a.w);
  }

  lemma PhaseStep(k: Config, s: State, a: Action, s': State)
    requires Enabled(k, s, a) && Healthy(s, a) && IsWorkerStep(a) && s' == Next(k, s, a)
    ensures a.w in s.workers && s'.workers.Keys <= s.workers.Keys
    ensures forall w | w in s'.workers && w != a.w :: s'.workers[w] == s.workers[w]
    ensures (if a.w in s'.workers then PhaseWork(k, s'.workers[a.w].phase) else 0)
            + (if a.Issue? then 2 else 1) <= PhaseWork(k, s.workers[a.w].phase)
  {
  }

  lemma OtherStepKeepsOwner(k: Config, s: State, a: Action, w: nat, s': State)
    requires Enabled(k, s, a) && Healthy(s, a) && s' == Next(k, s, a)
    requires w in s.workers && OwnsRow(s.workers[w]) && !(IsWorkerStep(a) && a.w == w)
    ensures w in s'.workers && OwnsRow(s'.workers[w])
  {
    assert !a.Deliver? || a.w != w;
  }

  lemma OwnStepKeepsOwner(k: Config, s: State, a: Action, s': State)
    requires Enabled(k, s, a) && Healthy(s, a) && s' == Next(k, s, a) && IsWorkerStep(a)
    requires OwnsRow(s.workers[a.w])
    ensures a.Write? || a.WriteMissing? || (a.w in s'.workers && OwnsRow(s'.workers[a.w]))
  {
    assert a.Judge? ==> OwnsRow(s'.workers[a.w]);
  }

  lemma WrittenIsDecided(k: Config, s: State, a: Action, s': State)
    requires Enabled(k, s, a) && s' == Next(k, s, a) && a.Write? && WorkerInv(s, s.workers[a.w])
    ensures Decided(s', Id(s, a.w))
  {
  }

  /** A live owner answers for its row until the row is decided or gone. */
  lemma OwnerStays(k: Config, s: State, a: Action, w: nat, s': State)
    requires Enabled(k, s, a) && Healthy(s, a) && s' == Next(k, s, a)
    requires w in s.workers && OwnsRow(s.workers[w]) && WorkerInv(s, s.workers[w])
    ensures (w in s'.workers && OwnsRow(s'.workers[w]) && s'.workers[w].body == s.workers[w].body)
            || Decided(s', Id(s, w)) || Id(s, w) !in s'.rows
  {
    if IsWorkerStep(a) && a.w == w {
      OwnStepKeepsOwner(k, s, a, s');
      if a.Write? {
        WrittenIsDecided(k, s, a, s');
      }
    } else {
      OtherStepKeepsOwner(k, s, a, w, s');
    }
    if w in s'.workers {
      BodyKept(k, s, a, w, s');
    }
  }

  lemma OwnedStep(k: Config, s: State, a: Action, id: string, s': State)
    requires DrainInv(k, s) && Enabled(k, s, a) && Healthy(s, a) && s' == Next(k, s, a)
    requires Owned(s, id) && id in s'.rows && s'.rows[id].status == Processing
    ensures Owned(s', id)
  {
    var w :| w in s.workers && OwnsRow(s.workers[w]) && Id(s, w) == id;
    assert WorkerInv(s, s.workers[w]);
    OwnerStays(k, s, a, w, s');
  }

  lemma RowStep(k: Config, s: State, a: Action, id: string, s': State)
    requires DrainInv(k, s) && Enabled(k, s, a) && Healthy(s, a) && s' == Next(k, s, a)
    requires id in s.rows && id in s'.rows
    ensures RowWork(k, s', id) <= RowWork(k, s, id)
  {
    assert a.Write? ==> WorkerInv(s, s.workers[a.w]);
    RowKept(k, s, a, id, s');
    RowInSweep(k, s, a, id, s');
    if s'.rows[id].status == Processing && Owned(s, id) {
      OwnedStep(k, s, a, id, s');
    }
  }

  /** A row in progress was in progress. */
  lemma RowKept(k: Config, s: State, a: Action, id: string, s': State)
    requires Enabled(k, s, a) && s' == Next(k, s, a) && (a.Write? ==> WorkerInv(s, s.workers[a.w]))
    requires id in s.rows && id in s'.rows
    ensures s'.rows[id].status == Processing ==> s.rows[id].status == Processing
  {
    if a.Write? {
      WrittenIsDecided(k, s, a, s');
    }
  }

  /** A row only moves on in its sweep, and is not taken from a live owner. */
  lemma RowInSweep(k: Config, s: State, a: Action, id: string, s': State)
    requires SweepInv(s) && Enabled(k, s, a) && Healthy(s, a) && s' == Next(k, s, a)
    requires id in s.rows && id in s'.rows
    ensures id in Taken(s) ==> id in Taken(s')
    ensures id in Published(s) ==> id in Published(s')
    ensures id in Taken(s') && id !in Taken(s) ==> !Owned(s, id)
    ensures Published(s') <= Taken(s')
  {
  }

  lemma RowsFall(k: Config, s: State, a: Action, s': State)
    requires DrainInv(k, s) && Enabled(k, s, a) && Healthy(s, a) && s' == Next(k, s, a)
    ensures forall id | id in s.rows && id in s'.rows :: RowWork(k, s', id) <= RowWork(k, s, id)
  {
    forall id | id in s.rows && id in s'.rows ensures RowWork(k, s', id) <= RowWork(k, s, id) {
      RowStep(k, s, a, id, s');
    }
  }

  /** The only row that a step adds is the claimed one, which has its owner. */
  lemma NewRowIsOwned(k: Config, s: State, a: Action, s': State)
    requires Enabled(k, s, a) && s' == Next(k, s, a)
    ensures a.Claim? ==> s'.rows.Keys == s.rows.Keys + {Id(s, a.w)} && Owned(s', Id(s, a.w))
    ensures !a.Claim? ==> s'.rows.Keys <= s.rows.Keys
  {
    if a.Claim? {
      assert a.w in s'.workers && OwnsRow(s'.workers[a.w]) && Id(s', a.w) == Id(s, a.w);
    }
  }

  lemma RowsStep(k: Config, s: State, a: Action, s': State)
    requires DrainInv(k, s) && Enabled(k, s, a) && Healthy(s, a) && s' == Next(k, s, a)
    ensures Sum(RowWorks(k, s')) <= Sum(RowWorks(k, s))
  {
    var m, m' := RowWorks(k, s), RowWorks(k, s');
    RowsFall(k, s, a, s');
    NewRowIsOwned(k, s, a, s');
    if a.Claim? {
      var id := Id(s, a.w);
      SumAtMost(m, m' - {id});
      SumSplit(m', id);
    } else {
      SumAtMost(m, m');
    }
  }

  lemma SweepStepWork(k: Config, s: State, a: Action, s': State)
    requires DrainInv(k, s) && Enabled(k, s, a) && Healthy(s, a) && s' == Next(k, s, a)
    requires a.SweepSelect? || a.SweepPublish? || a.SweepCommit?
    ensures Sum(RowWorks(k, s')) + (if a.SweepPublish? then MessageWork(k) + 1 else 1)
            <= Sum(RowWorks(k, s))
  {
    var m, m' := RowWorks(k, s), RowWorks(k, s');
    RowsFall(k, s, a, s');
    var id :| if a.SweepSelect? then id in a.requestIds
              else if a.SweepPublish? then id == a.requestId else id in s.sweep.taken;
    assert id in s.rows && s.rows[id].status == Processing;
    if a.SweepSelect? {
      OwnerlessRow(s, a, id);
    }
    SumDrops(m, m', id);
  }

  /** No live worker answers for a row that a fault-free sweep takes. */
  lemma OwnerlessRow(s: State, a: Action, id: string)
    requires OwnerlessSweep(s, a) && a.SweepSelect? && id in a.requestIds
    ensures !Owned(s, id)
  {
  }

  lemma QueueWork(k: Config, n: int)
    ensures (n + 1) * MessageWork(k) == n * MessageWork(k) + MessageWork(k)
  {
  }

  lemma DeliverWork(k: Config, s: State, a: Action, s': State)
    requires Enabled(k, s, a) && a.Deliver? && s' == Next(k, s, a)
    ensures Sum(WorkerWorks(k, s')) + |s'.queue| * MessageWork(k)
            < Sum(WorkerWorks(k, s)) + |s.queue| * MessageWork(k)
  {
    assert |s'.queue| == |s.queue| - 1;
    SumAdds(WorkerWorks(k, s), a.w, PhaseWork(k, Holding));
    assert WorkerWorks(k, s') == WorkerWorks(k, s)[a.w := PhaseWork(k, Holding)];
    QueueWork(k, |s'.queue|);
  }

  lemma OtherWorkers(k: Config, s: State, a: Action, s': State)
    requires Enabled(k, s, a) && Healthy(s, a) && s' == Next(k, s, a) && !a.Deliver? && !IsWorkerStep(a)
    ensures WorkerWorks(k, s') == WorkerWorks(k, s)
  {
    assert s'.workers == s.workers;
  }

  lemma QueueAndCalls(k: Config, s: State, a: Action, s': State)
    requires Enabled(k, s, a) && Healthy(s, a) && s' == Next(k, s, a) && !a.Deliver?
    ensures |s'.queue| == |s.queue| + (if a.SweepPublish? then 1 else 0)
    ensures |s'.flying| <= |s.flying| + (if a.Issue? then 1 else if a.Land? || a.Lose? then -1 else 0)
  {
  }

  lemma WorkFalls(k: Config, s: State, a: Action, s': State)
    requires DrainInv(k, s) && Enabled(k, s, a) && Healthy(s, a) && s' == Next(k, s, a)
    ensures Work(k, s') < Work(k, s)
  {
    RowsStep(k, s, a, s');
    if a.Deliver? {
      DeliverWork(k, s, a, s');
      assert s'.flying == s.flying;
    } else {
      QueueAndCalls(k, s, a, s');
      QueueWork(k, |s.queue|);
      if IsWorkerStep(a) {
        WorkerStepWork(k, s, a, s');
      } else {
        OtherWorkers(k, s, a, s');
      }
      if a.SweepSelect? || a.SweepPublish? || a.SweepCommit? {
        SweepStepWork(k, s, a, s');
      }
    }
  }

  // ----- Where it ends -----

  /** The fault-free step that a busy worker can always take. */
  function NextOf(k: Config, s: State, w: nat): Action
    requires At(s, w)
  {
    match s.workers[w].phase
    case Holding =>
      if Id(s, w) == "" then DropEmpty(w) else if Id(s, w) in s.rows then Discard(w) else Claim(w)
    case Claimed => Screen(w, false, ForRefund)
    case Checking => Check(w, Verified(k, s.ledger, s.workers[w].body))
    case Judging(_) => Judge(w, true, ForRefund)
    case Calling(_, tries, None) => if tries < k.maxRetries then Issue(w) else GiveUp(w)
    case Calling(_, _, Some(_)) => AttemptFailed(w, false)
    case Finishing(_, _) => if Id(s, w) in s.rows then Write(w) else WriteMissing(w)
    case Written => Settle(w)
  }

  ghost predicate Drained(k: Config, s: State) {
    forall a | Enabled(k, s, a) :: !Healthy(s, a)
  }

  lemma BusyWorkerCanMove(k: Config, s: State, w: nat)
    requires s.sweep == Resting && w in s.workers
    ensures Enabled(k, s, NextOf(k, s, w)) && Healthy(s, NextOf(k, s, w))
  {
  }

  lemma SweepCanMove(k: Config, s: State) returns (a: Action)
    requires SweepInv(s) && s.sweep.Sweeping?
    ensures Enabled(k, s, a) && Healthy(s, a)
  {
    if s.sweep.published == s.sweep.taken {
      a := SweepCommit;
    } else {
      var id :| id in s.sweep.taken && id !in s.sweep.published;
      a := SweepPublish(id);
    }
  }

  /** Nothing is left to do only where nothing is queued, held, or in progress. */
  lemma DrainedIsIdle(k: Config, s: State)
    requires ConfigOk(k) && SweepInv(s) && Drained(k, s)
    ensures s.sweep == Resting && s.workers == map[] && s.queue == multiset{}
    ensures forall id | id in s.rows :: s.rows[id].status != Processing
  {
    if s.sweep.Sweeping? {
      var a := SweepCanMove(k, s);
    }
    forall w ensures w !in s.workers {
      if w in s.workers {
        BusyWorkerCanMove(k, s, w);
      }
    }
    forall b ensures b !in s.queue {
      var w :| w in k.workers;
      assert !Enabled(k, s, Deliver(w, b));
    }
    forall id | id in s.rows ensures s.rows[id].status != Processing {
      assert !Enabled(k, s, SweepSelect({id}));
    }
  }

  lemma {:induction false} SweepsSomeRun(k: Config, ss: seq<State>, acts: seq<Action>, n: nat)
    requires IsRun(k, ss, acts) && n <= |acts|
    ensures SweepsSome(ss[n])
  {
    if n > 0 {
      SweepsSomeRun(k, ss, acts, n - 1);
      assert StepAt(k, ss, acts, n - 1);
      SweepsSomeStep(k, ss[n - 1], acts[n - 1]);
    }
  }

  lemma SweepsSomeStep(k: Config, s: State, a: Action)
    requires SweepsSome(s) && Enabled(k, s, a)
    ensures SweepsSome(Next(k, s, a))
  {
  }

  lemma HealthyStepOfRun(k: Config, ss: seq<State>, acts: seq<Action>, i: nat)
    requires IsRun(k, ss, acts) && i < |acts| && Healthy(ss[i], acts[i])
    ensures Work(k, ss[i + 1]) < Work(k, ss[i])
  {
    SweepInvRun(k, ss, acts, i);
    PipelineInvRun(k, ss, acts, i);
    CallsInvRun(k, ss, acts, i);
    SweepsSomeRun(k, ss, acts, i);
    assert StepAt(k, ss, acts, i);
    WorkFalls(k, ss[i], acts[i], ss[i + 1]);
  }

  /** Every fault-free step of a run uses up some of the work that was left when the faults stopped. */
  lemma {:induction false} FaultFreeRunsAreFinite(k: Config, ss: seq<State>, acts: seq<Action>, m: nat, n: nat)
    requires IsRun(k, ss, acts) && m <= n <= |acts|
    requires forall i | m <= i < n :: Healthy(ss[i], acts[i])
    ensures Work(k, ss[n]) + (n - m) <= Work(k, ss[m])
  {
    if m < n {
      FaultFreeRunsAreFinite(k, ss, acts, m, n - 1);
      HealthyStepOfRun(k, ss, acts, n - 1);
    }
  }

  // ----- Which requests end with a decision -----

  /** Delivered and not yet past its claim, even if the broker has the message back already. */
  ghost predicate Held(s: State, id: string) {
    exists w :: w in s.workers && s.workers[w].phase == Holding && Id(s, w) == id
  }

  /** Something of the request is left. */
  ghost predicate Alive(s: State, id: string) {
    id in s.rows || InQueue(s, id) || Held(s, id)
  }

  /** A sweep deletes the row, and the message that it republished for it has been consumed. */
  ghost predicate Buries(s: State, a: Action, id: string) {
    a.SweepCommit? && id in Taken(s) && !InQueue(s, id) && !Held(s, id)
  }

  lemma QueuedBefore(k: Config, s: State, a: Action, id: string, s': State)
    requires RowsMatch(s) && Enabled(k, s, a) && Healthy(s, a) && s' == Next(k, s, a) && InQueue(s', id)
    ensures InQueue(s, id) || id in s.rows
  {
    var b :| b in s'.queue && b.requestId == id;
    assert b in s.queue || (a.SweepPublish? && b == s.rows[a.requestId].payload);
  }

  lemma HeldFromBefore(k: Config, s: State, a: Action, id: string, s': State)
    requires Enabled(k, s, a) && Healthy(s, a) && s' == Next(k, s, a) && Held(s', id)
    ensures Held(s, id) || InQueue(s, id)
  {
    var w :| w in s'.workers && s'.workers[w].phase == Holding && Id(s', w) == id;
    if a.Deliver? && a.w == w {
      assert a.body in s.queue;
    } else {
      StillHeld(k, s, a, w, s');
    }
  }

  lemma StillHeld(k: Config, s: State, a: Action, w: nat, s': State)
    requires Enabled(k, s, a) && Healthy(s, a) && s' == Next(k, s, a) && !(a.Deliver? && a.w == w)
    requires w in s'.workers && s'.workers[w].phase == Holding
    ensures w in s.workers && s.workers[w] == s'.workers[w]
  {
    assert a.Judge? ==> s'.workers[a.w].phase != Holding;
  }

  lemma DeadStaysDead(k: Config, s: State, a: Action, id: string, s': State)
    requires RowsMatch(s) && Enabled(k, s, a) && Healthy(s, a) && s' == Next(k, s, a) && !Alive(s, id)
    ensures !Alive(s', id)
  {
    if InQueue(s', id) {
      QueuedBefore(k, s, a, id, s');
    }
    if Held(s', id) {
      HeldFromBefore(k, s, a, id, s');
    }
    NewRowIsOwned(k, s, a, s');
    assert a.Claim? ==> Held(s, Id(s, a.w));
  }

  lemma QueuedOn(k: Config, s: State, a: Action, id: string, s': State)
    requires Enabled(k, s, a) && Healthy(s, a) && s' == Next(k, s, a) && InQueue(s, id)
    ensures InQueue(s', id) || Held(s', id)
  {
    var b :| b in s.queue && b.requestId == id;
    if b !in s'.queue {
      assert a.Deliver? && s'.workers[a.w].phase == Holding && Id(s', a.w) == id;
    }
  }

  lemma HeldOn(k: Config, s: State, a: Action, id: string, s': State)
    requires Enabled(k, s, a) && Healthy(s, a) && s' == Next(k, s, a) && Held(s, id) && id != ""
    ensures Held(s', id) || id in s'.rows
  {
    var w :| w in s.workers && s.workers[w].phase == Holding && Id(s, w) == id;
    if w in s'.workers && s'.workers[w] == s.workers[w] {
      assert Held(s', id);
    } else {
      HolderMovesOn(k, s, a, w, s');
    }
  }

  lemma HolderMovesOn(k: Config, s: State, a: Action, w: nat, s': State)
    requires Enabled(k, s, a) && Healthy(s, a) && s' == Next(k, s, a)
    requires w in s.workers && s.workers[w].phase == Holding && Id(s, w) != ""
    requires !(w in s'.workers && s'.workers[w] == s.workers[w])
    ensures (a.Claim? || a.Discard?) && a.w == w && Id(s, w) in s'.rows
  {
  }

  /** Nothing but a burial ends a request, and nothing brings it back. */
  lemma AliveStep(k: Config, s: State, a: Action, id: string, s': State)
    requires RowsMatch(s) && Enabled(k, s, a) && Healthy(s, a) && s' == Next(k, s, a) && id != ""
    ensures Alive(s', id) <==> Alive(s, id) && !Buries(s, a, id)
  {
    if !Alive(s, id) {
      DeadStaysDead(k, s, a, id, s');
    } else if a.SweepCommit? {
      CommitLeaves(k, s, a, id, s');
    } else if InQueue(s, id) {
      QueuedOn(k, s, a, id, s');
    } else if Held(s, id) {
      HeldOn(k, s, a, id, s');
    }
  }

  lemma CommitLeaves(k: Config, s: State, a: Action, id: string, s': State)
    requires Enabled(k, s, a) && s' == Next(k, s, a) && a.SweepCommit?
    ensures InQueue(s', id) <==> InQueue(s, id)
    ensures Held(s', id) <==> Held(s, id)
    ensures id in s'.rows <==> id in s.rows && id !in Taken(s)
  {
    assert s'.workers == s.workers && s'.queue == s.queue;
    assert forall w | w in s.workers :: Id(s', w) == Id(s, w);
  }

  lemma AliveStepOfRun(k: Config, ss: seq<State>, acts: seq<Action>, i: nat, id: string)
    requires IsRun(k, ss, acts) && i < |acts| && Healthy(ss[i], acts[i]) && id != ""
    ensures Alive(ss[i + 1], id) <==> Alive(ss[i], id) && !Buries(ss[i], acts[i], id)
  {
    RowsMatchRun(k, ss, acts, i);
    assert StepAt(k, ss, acts, i);
    AliveStep(k, ss[i], acts[i], id, ss[i + 1]);
  }

  lemma {:induction false} AliveAtTheEnd(k: Config, ss: seq<State>, acts: seq<Action>, m: nat, n: nat, id: string)
    requires IsRun(k, ss, acts) && m <= n <= |acts| && id != ""
    requires forall i | m <= i < n :: Healthy(ss[i], acts[i])
    ensures Alive(ss[n], id) <==> Alive(ss[m], id) && forall i | m <= i < n :: !Buries(ss[i], acts[i], id)
  {
    if m < n {
      AliveAtTheEnd(k, ss, acts, m, n - 1, id);
      AliveStepOfRun(k, ss, acts, n - 1, id);
    }
  }

  /**
   Draining, whatever happened before the last fault: a run of fault-free steps from `m` on takes at most
   `Work(k, ss[m])` of them. Where none is left, the queue is empty, and a request has a decided row if and only if
   something of it was left at `m` and no sweep buried it since.
   */
  lemma DecidedExactlyWhen(k: Config, ss: seq<State>, acts: seq<Action>, m: nat, id: string)
    requires ConfigOk(k) && IsRun(k, ss, acts) && m <= |acts| && id != ""
    requires forall i | m <= i < |acts| :: Healthy(ss[i], acts[i])
    ensures |acts| - m <= Work(k, ss[m])
    ensures Drained(k, ss[|acts|]) ==>
              && ss[|acts|].queue == multiset{}
              && (Decided(ss[|acts|], id) <==>
                    Alive(ss[m], id) && forall i | m <= i < |acts| :: !Buries(ss[i], acts[i], id))
  {
    FaultFreeRunsAreFinite(k, ss, acts, m, |acts|);
    if Drained(k, ss[|acts|]) {
      SweepInvRun(k, ss, acts, |acts|);
      DrainedIsIdle(k, ss[|acts|]);
      AliveAtTheEnd(k, ss, acts, m, |acts|, id);
    }
  }

  /**
   So where no claim was dropped, every accepted request has a decided row in the end, whatever crashes, lost
   channels and sweeps of live workers' rows there were before `m`.
   */
  lemma EveryAcceptedClaimIsDecided(k: Config, ss: seq<State>, acts: seq<Action>, m: nat)
    requires ConfigOk(k) && IsRun(k, ss, acts) && m <= |acts|
    requires forall i | 0 <= i < m :: Undropped(ss[i], acts[i])
    requires forall i | m <= i < |acts| :: Healthy(ss[i], acts[i])
    ensures |acts| - m <= Work(k, ss[m])
    ensures Drained(k, ss[|acts|]) ==>
              && ss[|acts|].queue == multiset{}
              && forall id | id in ss[|acts|].accepted && id != "" :: Decided(ss[|acts|], id)
  {
    FaultFreeRunsAreFinite(k, ss, acts, m, |acts|);
    var s := ss[|acts|];
    if Drained(k, s) {
      SweepInvRun(k, ss, acts, |acts|);
      NoAcceptedClaimIsLost(k, ss, acts, |acts|);
      DrainedIsIdle(k, s);
      forall id | id in s.accepted && id != "" ensures id in s.rows {
        assert Covered(s, id);
      }
    }
  }
}

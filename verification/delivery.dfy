/**
 What happens to an accepted claim, over every run: it is never lost, and (when the sweeper takes only
 rows that no live worker answers for) it has one owner and one outcome.
 */
module Delivery {
  import opened Protocol

  // ----- No accepted claim is lost -----

  /** A message that can still lead to a claim of the request. */
  ghost predicate InQueue(s: State, id: string) {
    exists b :: b in s.queue && b.requestId == id
  }

  /** A delivery not yet past its claim that the broker would requeue. */
  predicate HeldBefore(v: Worker, id: string) {
    v.phase == Holding && v.owns && v.body.requestId == id
  }

  ghost predicate HeldPreClaim(s: State, id: string) {
    exists w :: w in s.workers && HeldBefore(s.workers[w], id)
  }

  ghost predicate Carried(s: State, id: string) {
    InQueue(s, id) || HeldPreClaim(s, id)
  }

  ghost predicate Covered(s: State, id: string) {
    id in s.rows || Carried(s, id)
  }

  /** The worker holds the only message of its request. */
  ghost predicate OnlyCarrier(s: State, w: nat)
    requires At(s, w)
  {
    && s.workers[w].owns
    && !InQueue(s, Id(s, w))
    && forall v | v in s.workers && v != w :: !HeldBefore(s.workers[v], Id(s, w))
  }

  /**
   The two ways in which the code drops a request: a sweep deletes its row after the republished
   message was already consumed, or a pre-claim failure discards the last message of a request that
   has no row. (With an empty id, the delivery is acked without a row.)
   */
  ghost predicate Loses(s: State, a: Action, id: string) {
    match a
    case SweepCommit => s.sweep.Sweeping? && id in s.sweep.taken && !Carried(s, id)
    case ClaimError(w) => At(s, w) && Id(s, w) == id && id !in s.rows && OnlyCarrier(s, w)
    case DropEmpty(w) => At(s, w) && id == "" && id !in s.rows && OnlyCarrier(s, w)
    case _ => false
  }

  ghost predicate RowsMatch(s: State) {
    forall id | id in s.rows :: id != "" && s.rows[id].payload.requestId == id
  }

  lemma RowsMatchStep(k: Config, s: State, a: Action)
    requires RowsMatch(s) && Enabled(k, s, a)
    ensures RowsMatch(Next(k, s, a))
  {
  }

  /** The step takes the request past its claim, or drops its last message. */
  ghost predicate Consumes(s: State, a: Action, id: string) {
    match a
    case Claim(w) => At(s, w) && Id(s, w) == id
    case Discard(w) => At(s, w) && Id(s, w) == id
    case ClaimError(w) => At(s, w) && Id(s, w) == id && OnlyCarrier(s, w)
    case DropEmpty(w) => At(s, w) && Id(s, w) == id && OnlyCarrier(s, w)
    case _ => false
  }

  lemma QueuedStep(k: Config, s: State, a: Action, id: string, s': State)
    requires Enabled(k, s, a) && s' == Next(k, s, a) && InQueue(s, id)
    ensures Carried(s', id)
  {
    var b :| b in s.queue && b.requestId == id;
    if b !in s'.queue {
      assert a.Deliver? && HeldBefore(s'.workers[a.w], id);
    }
  }

  lemma HeldStep(k: Config, s: State, a: Action, id: string, w: nat, s': State)
    requires Enabled(k, s, a) && s' == Next(k, s, a)
    requires w in s.workers && HeldBefore(s.workers[w], id)
    ensures Carried(s', id) || (a.Claim? && a.w == w) || (a.Discard? && a.w == w)
            || (a.ClaimError? && a.w == w) || (a.DropEmpty? && a.w == w)
  {
    if w in s'.workers && s'.workers[w] == s.workers[w] {
      assert HeldPreClaim(s', id);
    } else if a.Crash? || a.ChannelLost? {
      HeldIsRequeued(k, s, a, id, w, s');
    } else {
      HeldMovesOn(k, s, a, id, w, s');
    }
  }

  /** The broker gets back what a worker still owned. */
  lemma HeldIsRequeued(k: Config, s: State, a: Action, id: string, w: nat, s': State)
    requires Enabled(k, s, a) && s' == Next(k, s, a) && (a.Crash? || a.ChannelLost?)
    requires w in s.workers && HeldBefore(s.workers[w], id) && !(w in s'.workers && s'.workers[w] == s.workers[w])
    ensures InQueue(s', id)
  {
    assert a.w == w && s.workers[w].body in s'.queue;
  }

  lemma HeldMovesOn(k: Config, s: State, a: Action, id: string, w: nat, s': State)
    requires Enabled(k, s, a) && s' == Next(k, s, a) && !a.Crash? && !a.ChannelLost?
    requires w in s.workers && HeldBefore(s.workers[w], id) && !(w in s'.workers && s'.workers[w] == s.workers[w])
    ensures (a.Claim? || a.Discard? || a.ClaimError? || a.DropEmpty?) && a.w == w
  {
  }

  /** A carrier survives every step that does not consume its request. */
  lemma CarriedStep(k: Config, s: State, a: Action, id: string, s': State)
    requires Enabled(k, s, a) && s' == Next(k, s, a) && Carried(s, id) && !Consumes(s, a, id)
    ensures Carried(s', id)
  {
    if InQueue(s, id) {
      QueuedStep(k, s, a, id, s');
    } else {
      var w :| w in s.workers && HeldBefore(s.workers[w], id);
      if (a.ClaimError? || a.DropEmpty?) && a.w == w {
        var v :| v in s.workers && v != w && HeldBefore(s.workers[v], id);
        HeldStep(k, s, a, id, v, s');
      } else {
        HeldStep(k, s, a, id, w, s');
      }
    }
  }

  /** Nothing else consumes a request: each step either keeps it covered or is one of the two losses. */
  lemma LostExactlyWhen(k: Config, s: State, a: Action, id: string)
    requires RowsMatch(s) && Covered(s, id) && Enabled(k, s, a)
    ensures Covered(Next(k, s, a), id) <==> !Loses(s, a, id)
  {
    var s' := Next(k, s, a);
    if Loses(s, a, id) {
      NotCarriedAfterLoss(k, s, a, id, s');
    } else if Carried(s, id) && !Consumes(s, a, id) {
      CarriedStep(k, s, a, id, s');
    }
  }

  lemma NotCarriedAfterLoss(k: Config, s: State, a: Action, id: string, s': State)
    requires Enabled(k, s, a) && s' == Next(k, s, a) && Loses(s, a, id)
    ensures !Covered(s', id)
  {
    assert forall b :: b in s'.queue ==> b in s.queue;
    assert forall w | w in s'.workers :: w in s.workers && s'.workers[w] == s.workers[w];
  }

  lemma {:induction false} RowsMatchRun(k: Config, ss: seq<State>, acts: seq<Action>, n: nat)
    requires IsRun(k, ss, acts) && n <= |acts|
    ensures RowsMatch(ss[n])
  {
    if n > 0 {
      RowsMatchRun(k, ss, acts, n - 1);
      assert StepAt(k, ss, acts, n - 1);
      RowsMatchStep(k, ss[n - 1], acts[n - 1]);
    }
  }

  ghost predicate StaysCovered(ss: seq<State>, m: nat, n: nat, id: string)
    requires n < |ss|
  {
    forall j | m <= j <= n :: Covered(ss[j], id)
  }

  ghost predicate NoLoss(ss: seq<State>, acts: seq<Action>, m: nat, n: nat, id: string)
    requires n <= |acts| <= |ss|
  {
    forall j | m <= j < n :: !Loses(ss[j], acts[j], id)
  }

  /** Over every run, a request keeps a row or a message from `m` to `n` if and only if no step in between loses it. */
  lemma {:induction false} CoveredExactlyWhen(k: Config, ss: seq<State>, acts: seq<Action>,
                                              m: nat, n: nat, id: string)
    requires IsRun(k, ss, acts) && m <= n <= |acts| && Covered(ss[m], id)
    ensures StaysCovered(ss, m, n, id) <==> NoLoss(ss, acts, m, n, id)
  {
    if m < n {
      CoveredExactlyWhen(k, ss, acts, m, n - 1, id);
      assert StaysCovered(ss, m, n, id) ==> StaysCovered(ss, m, n - 1, id);
      if StaysCovered(ss, m, n - 1, id) {
        LossAt(k, ss, acts, n - 1, id);
      }
    }
  }

  lemma LossAt(k: Config, ss: seq<State>, acts: seq<Action>, i: nat, id: string)
    requires IsRun(k, ss, acts) && i < |acts| && Covered(ss[i], id)
    ensures Covered(ss[i + 1], id) <==> !Loses(ss[i], acts[i], id)
  {
    RowsMatchRun(k, ss, acts, i);
    assert StepAt(k, ss, acts, i);
    LostExactlyWhen(k, ss[i], acts[i], id);
  }

  /**
   What the no-loss theorem assumes of a step: no republished message is discarded before its sweep
   commits, and the only failures before a claim are crashes, lost channels and duplicate keys.
   */
  ghost predicate Undropped(s: State, a: Action) {
    && !a.ClaimError?
    && (a.Discard? && At(s, a.w) ==> Id(s, a.w) !in Published(s))
  }

  /** The rows of a sweep stay locked, in progress, until it ends. */
  ghost predicate SweepInv(s: State) {
    && Published(s) <= Taken(s)
    && forall id | id in Taken(s) :: id in s.rows && s.rows[id].status == Processing
  }

  lemma SweepInvStep(k: Config, s: State, a: Action, s': State)
    requires SweepInv(s) && Enabled(k, s, a) && s' == Next(k, s, a)
    ensures SweepInv(s')
  {
  }

  ghost predicate DeliveryInv(s: State) {
    && RowsMatch(s)
    && SweepInv(s)
    && (forall id | id in s.accepted && id != "" :: Covered(s, id))
    && (forall id | id in Published(s) :: Carried(s, id))
  }

  lemma DeliveryInvStep(k: Config, s: State, a: Action, s': State)
    requires DeliveryInv(s) && Enabled(k, s, a) && Undropped(s, a) && s' == Next(k, s, a)
    ensures DeliveryInv(s')
  {
    RowsMatchStep(k, s, a);
    SweepInvStep(k, s, a, s');
    forall id | id in s'.accepted && id != "" ensures Covered(s', id) {
      AcceptedStep(k, s, a, id, s');
    }
    forall id | id in Published(s') ensures Carried(s', id) {
      PublishedStep(k, s, a, id, s');
    }
  }

  lemma AcceptedStep(k: Config, s: State, a: Action, id: string, s': State)
    requires DeliveryInv(s) && Enabled(k, s, a) && Undropped(s, a) && s' == Next(k, s, a)
    requires id in s'.accepted && id != ""
    ensures Covered(s', id)
  {
    if id in s.accepted {
      LostExactlyWhen(k, s, a, id);
    } else {
      assert a.body in s'.queue;
    }
  }

  lemma PublishedStep(k: Config, s: State, a: Action, id: string, s': State)
    requires DeliveryInv(s) && Enabled(k, s, a) && Undropped(s, a) && s' == Next(k, s, a)
    requires id in Published(s')
    ensures Carried(s', id)
  {
    if id in Published(s) {
      assert id in s.rows;
      CarriedStep(k, s, a, id, s');
    } else {
      assert s.rows[id].payload in s'.queue;
    }
  }

  /**
   No accepted claim is lost: in every state of every run under the two assumptions, each accepted
   request has a row, a queued message, or a delivered message not yet past its claim.
   */
  lemma {:induction false} NoAcceptedClaimIsLost(k: Config, ss: seq<State>, acts: seq<Action>, n: nat)
    requires IsRun(k, ss, acts) && n <= |acts|
    requires forall i | 0 <= i < n :: Undropped(ss[i], acts[i])
    ensures DeliveryInv(ss[n])
    ensures forall id | id in ss[n].accepted && id != "" :: Covered(ss[n], id)
  {
    if n > 0 {
      NoAcceptedClaimIsLost(k, ss, acts, n - 1);
      assert StepAt(k, ss, acts, n - 1);
      DeliveryInvStep(k, ss[n - 1], acts[n - 1], ss[n]);
    }
  }

  // ----- One owner, one outcome -----

  /** The sweeper takes only rows that no live worker answers for. */
  ghost predicate OwnerlessSweep(s: State, a: Action) {
    a.SweepSelect? ==>
      forall w | w in s.workers && OwnsRow(s.workers[w]) :: Id(s, w) !in a.requestIds
  }

  ghost predicate OwnerHasRow(s: State, w: nat)
    requires w in s.workers
  {
    OwnsRow(s.workers[w]) ==>
      Id(s, w) in s.rows && s.rows[Id(s, w)].status == Processing && Id(s, w) !in Taken(s)
  }

  ghost predicate OneOwner(s: State, v: nat, w: nat)
    requires v in s.workers && w in s.workers
  {
    OwnsRow(s.workers[v]) && OwnsRow(s.workers[w]) && Id(s, v) == Id(s, w) ==> v == w
  }

  /** The sweep takes the row of the request although a live worker answers for it. */
  ghost predicate TakesOwned(s: State, a: Action, id: string) {
    a.SweepSelect? && id in a.requestIds
    && exists w :: w in s.workers && OwnsRow(s.workers[w]) && Id(s, w) == id
  }

  /** Each worker past the claim of a request owns its row, and there is one at most. */
  ghost predicate OwnersOf(s: State, id: string) {
    && SweepInv(s)
    && (forall w | w in s.workers && Id(s, w) == id :: OwnerHasRow(s, w))
    && forall v, w | v in s.workers && w in s.workers && Id(s, v) == id && Id(s, w) == id :: OneOwner(s, v, w)
  }

  /** Who owns a row owned it before, or has just claimed it. */
  lemma OwnerBefore(k: Config, s: State, a: Action, w: nat, s': State)
    requires Enabled(k, s, a) && s' == Next(k, s, a)
    requires w in s'.workers && OwnsRow(s'.workers[w])
    ensures w in s.workers && (OwnsRow(s.workers[w]) || (a == Claim(w) && Id(s, w) !in s.rows))
  {
    assert w in s.workers;
    if s.workers[w].phase.Holding? {
      assert s'.workers[w].phase != s.workers[w].phase;
    }
  }

  lemma OwnerHasRowStep(k: Config, s: State, a: Action, w: nat, s': State)
    requires Enabled(k, s, a) && s' == Next(k, s, a) && w in s'.workers
    requires OwnersOf(s, Id(s', w)) && !TakesOwned(s, a, Id(s', w))
    ensures OwnerHasRow(s', w)
  {
    if OwnsRow(s'.workers[w]) {
      OwnerBefore(k, s, a, w, s');
      BodyKept(k, s, a, w, s');
      assert OwnerHasRow(s, w);
      if a.Write? {
        WriteIsByOwner(k, s, a, w, s');
      }
    }
  }

  lemma WriteIsByOwner(k: Config, s: State, a: Action, w: nat, s': State)
    requires Enabled(k, s, a) && s' == Next(k, s, a) && a.Write?
    requires w in s.workers && w in s'.workers && OwnsRow(s.workers[w]) && OwnsRow(s'.workers[w])
    requires OwnersOf(s, Id(s, w))
    ensures Id(s, a.w) != Id(s, w)
  {
    assert Id(s, a.w) == Id(s, w) ==> OneOwner(s, w, a.w);
  }

  /** A claim finds no row, so no owner; every other step only narrows who owns what. */
  lemma OneOwnerStep(k: Config, s: State, a: Action, v: nat, w: nat, s': State)
    requires Enabled(k, s, a) && s' == Next(k, s, a) && v in s'.workers && w in s'.workers
    requires OwnersOf(s, Id(s', v))
    ensures OneOwner(s', v, w)
  {
    if OwnsRow(s'.workers[v]) && OwnsRow(s'.workers[w]) && Id(s', v) == Id(s', w) {
      OwnerBefore(k, s, a, v, s');
      OwnerBefore(k, s, a, w, s');
      BodyKept(k, s, a, v, s');
      BodyKept(k, s, a, w, s');
      assert OneOwner(s, v, w);
      assert OwnerHasRow(s, v) && OwnerHasRow(s, w);
    }
  }

  lemma OwnersOfStep(k: Config, s: State, a: Action, id: string, s': State)
    requires OwnersOf(s, id) && Enabled(k, s, a) && !TakesOwned(s, a, id) && s' == Next(k, s, a)
    ensures OwnersOf(s', id)
  {
    SweepInvStep(k, s, a, s');
    forall w | w in s'.workers && Id(s', w) == id ensures OwnerHasRow(s', w) { OwnerHasRowStep(k, s, a, w, s'); }
    forall v, w | v in s'.workers && w in s'.workers && Id(s', v) == id && Id(s', w) == id ensures OneOwner(s', v, w) {
      OneOwnerStep(k, s, a, v, w, s');
    }
  }

  lemma {:induction false} OwnersOfRun(k: Config, ss: seq<State>, acts: seq<Action>, n: nat, id: string)
    requires IsRun(k, ss, acts) && n <= |acts|
    requires forall i | 0 <= i < n :: !TakesOwned(ss[i], acts[i], id)
    ensures OwnersOf(ss[n], id)
  {
    if n > 0 {
      OwnersOfRun(k, ss, acts, n - 1, id);
      assert StepAt(k, ss, acts, n - 1);
      OwnersOfStep(k, ss[n - 1], acts[n - 1], id, ss[n]);
    }
  }

  lemma {:induction false} SweepInvRun(k: Config, ss: seq<State>, acts: seq<Action>, n: nat)
    requires IsRun(k, ss, acts) && n <= |acts|
    ensures SweepInv(ss[n])
  {
    if n > 0 {
      SweepInvRun(k, ss, acts, n - 1);
      assert StepAt(k, ss, acts, n - 1);
      SweepInvStep(k, ss[n - 1], acts[n - 1], ss[n]);
    }
  }

  /**
   If no sweep took the request's row from a live owner, it has at most one live worker past its claim, whose
   row is there when it comes to write it.
   */
  lemma SingleOwner(k: Config, ss: seq<State>, acts: seq<Action>, n: nat, w: nat)
    requires IsRun(k, ss, acts) && n <= |acts|
    requires w in ss[n].workers && ss[n].workers[w].phase != Holding && ss[n].workers[w].phase != Written
    requires forall i | 0 <= i < n :: !TakesOwned(ss[i], acts[i], Id(ss[n], w))
    ensures forall v | v in ss[n].workers && ss[n].workers[v].phase != Holding && ss[n].workers[v].phase != Written
                       && ss[n].workers[v].body.requestId == ss[n].workers[w].body.requestId :: v == w
    ensures Id(ss[n], w) in ss[n].rows && ss[n].rows[Id(ss[n], w)].status == Processing
    ensures !Enabled(k, ss[n], WriteMissing(w))
    ensures ss[n].workers[w].phase.Finishing? ==> Enabled(k, ss[n], Write(w))
  {
    OwnersOfRun(k, ss, acts, n, Id(ss[n], w));
    assert OwnerHasRow(ss[n], w);
    assert forall v | v in ss[n].workers && Id(ss[n], v) == Id(ss[n], w) :: OneOwner(ss[n], v, w);
  }

  // ----- When a final outcome changes -----

  predicate Decided(s: State, id: string) {
    id in s.rows && s.rows[id].status != Processing
  }

  /** The final write of one worker goes over a row that already says something else. */
  predicate Overwrites(s: State, a: Action, id: string) {
    && a.Write? && At(s, a.w) && Id(s, a.w) == id && id in s.rows
    && s.workers[a.w].phase.Finishing?
    && (s.workers[a.w].phase.status != s.rows[id].status || s.workers[a.w].phase.execution != s.rows[id].execution)
  }

  /** A step changes a decided row if and only if it overwrites it. */
  lemma OutcomeChangesExactlyWhen(k: Config, s: State, a: Action, id: string)
    requires SweepInv(s) && Enabled(k, s, a) && Decided(s, id)
    ensures id in Next(k, s, a).rows
    ensures Next(k, s, a).rows[id] != s.rows[id] <==> Overwrites(s, a, id)
  {
  }

  ghost predicate Stands(ss: seq<State>, m: nat, n: nat, id: string)
    requires m <= n < |ss| && id in ss[m].rows
  {
    forall j | m <= j <= n :: id in ss[j].rows && ss[j].rows[id] == ss[m].rows[id]
  }

  ghost predicate NoOverwrite(ss: seq<State>, acts: seq<Action>, m: nat, n: nat, id: string)
    requires n <= |acts| <= |ss|
  {
    forall j | m <= j < n :: !Overwrites(ss[j], acts[j], id)
  }

  /** Over every run, a final outcome stands from `m` to `n` if and only if nothing overwrites it in between. */
  lemma {:induction false} OutcomeStandsExactlyWhen(k: Config, ss: seq<State>, acts: seq<Action>,
                                                    m: nat, n: nat, id: string)
    requires IsRun(k, ss, acts) && m <= n <= |acts| && Decided(ss[m], id)
    ensures Stands(ss, m, n, id) <==> NoOverwrite(ss, acts, m, n, id)
  {
    if m < n {
      OutcomeStandsExactlyWhen(k, ss, acts, m, n - 1, id);
      assert Stands(ss, m, n, id) ==> Stands(ss, m, n - 1, id);
      if Stands(ss, m, n - 1, id) {
        SweepInvRun(k, ss, acts, n - 1);
        OverwriteAt(k, ss, acts, n - 1, id);
      }
    }
  }

  lemma OverwriteAt(k: Config, ss: seq<State>, acts: seq<Action>, i: nat, id: string)
    requires IsRun(k, ss, acts) && i < |acts| && SweepInv(ss[i]) && Decided(ss[i], id)
    ensures id in ss[i + 1].rows && (ss[i + 1].rows[id] != ss[i].rows[id] <==> Overwrites(ss[i], acts[i], id))
  {
    assert StepAt(k, ss, acts, i);
    OutcomeChangesExactlyWhen(k, ss[i], acts[i], id);
  }

  lemma DecidedHasNoOwner(s: State, id: string, w: nat)
    requires OwnersOf(s, id) && Decided(s, id) && w in s.workers && Id(s, w) == id
    ensures !OwnsRow(s.workers[w])
  {
    assert OwnerHasRow(s, w);
  }

  /** An overwriter is a worker whose row was swept while it was alive. */
  lemma OverwrittenOnlyAfterSweep(k: Config, ss: seq<State>, acts: seq<Action>, n: nat, id: string)
    requires IsRun(k, ss, acts) && n < |acts| && Decided(ss[n], id) && Overwrites(ss[n], acts[n], id)
    ensures exists j :: 0 <= j < n && TakesOwned(ss[j], acts[j], id)
  {
    if forall j | 0 <= j < n :: !TakesOwned(ss[j], acts[j], id) {
      OwnersOfRun(k, ss, acts, n, id);
      DecidedHasNoOwner(ss[n], id, acts[n].w);
    }
  }

  /** A decided row whose workers own their rows is left alone by every step. */
  lemma DecidedRowStep(k: Config, s: State, a: Action, id: string)
    requires OwnersOf(s, id) && Enabled(k, s, a) && Decided(s, id)
    ensures id in Next(k, s, a).rows && Next(k, s, a).rows[id] == s.rows[id]
  {
    OutcomeChangesExactlyWhen(k, s, a, id);
    if Overwrites(s, a, id) {
      DecidedHasNoOwner(s, id, a.w);
    }
  }

  lemma DecidedRowStays(k: Config, ss: seq<State>, acts: seq<Action>, i: nat, id: string)
    requires IsRun(k, ss, acts) && i < |acts| && OwnersOf(ss[i], id) && Decided(ss[i], id)
    ensures id in ss[i + 1].rows && ss[i + 1].rows[id] == ss[i].rows[id]
  {
    assert StepAt(k, ss, acts, i);
    DecidedRowStep(k, ss[i], acts[i], id);
  }

  /** If no sweep took the request's row from a live owner, its first final status and receipt are its last. */
  lemma {:induction false} OutcomeIsStable(k: Config, ss: seq<State>, acts: seq<Action>, m: nat, n: nat, id: string)
    requires IsRun(k, ss, acts) && m <= n <= |acts| && Decided(ss[m], id)
    requires forall i | 0 <= i < n :: !TakesOwned(ss[i], acts[i], id)
    ensures Stands(ss, m, n, id)
  {
    if m < n {
      OutcomeIsStable(k, ss, acts, m, n - 1, id);
      OwnersOfRun(k, ss, acts, n - 1, id);
      DecidedRowStays(k, ss, acts, n - 1, id);
    }
  }
}

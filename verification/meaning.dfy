/** The conditions that the theorems on runs are about, each written out on the bare state. */
module Meaning {
  import opened Options
  import opened RefundLedger
  import opened Protocol
  import opened Delivery
  import opened Draining

  /** A run starts from nothing: no message, worker, row, refund or call. */
  lemma RunsStartFromNothing(k: Config, ss: seq<State>, acts: seq<Action>)
    requires IsRun(k, ss, acts)
    ensures |ss| == |acts| + 1
    ensures ss[0].queue == multiset{} && ss[0].workers == map[] && ss[0].rows == map[] && ss[0].ledger == []
    ensures ss[0].calls == [] && ss[0].flying == {} && ss[0].reports == map[] && ss[0].sweep == Resting
    ensures ss[0].accepted == {} && ss[0].grants == [] && ss[0].approved == {}
  {
  }

  /** All that is asked of a configuration. */
  lemma ConfigOkIs(k: Config)
    ensures ConfigOk(k) <==> (exists w :: w in k.workers) && forall o | o in k.orders :: k.orders[o].cents >= 0
  {
    if ConfigOk(k) {
      var w :| w in k.workers;
    }
  }

  lemma CoveredIs(s: State, id: string)
    ensures Covered(s, id) <==>
            || id in s.rows
            || (exists b :: b in s.queue && b.requestId == id)
            || (exists w :: w in s.workers && s.workers[w].phase == Holding && s.workers[w].owns
                            && s.workers[w].body.requestId == id)
  {
    if w :| w in s.workers && s.workers[w].phase == Holding && s.workers[w].owns && s.workers[w].body.requestId == id {
      assert HeldBefore(s.workers[w], id);
    }
    if HeldPreClaim(s, id) {
      var w :| w in s.workers && HeldBefore(s.workers[w], id);
    }
  }

  lemma UndroppedIs(k: Config, s: State, a: Action)
    requires Enabled(k, s, a)
    ensures Undropped(s, a) <==>
            && !a.ClaimError?
            && (a.Discard? ==> !(s.sweep.Sweeping? && s.workers[a.w].body.requestId in s.sweep.published))
  {
  }

  lemma TakesOwnedIs(s: State, a: Action, id: string)
    ensures TakesOwned(s, a, id) <==>
            && a.SweepSelect? && id in a.requestIds
            && exists w :: w in s.workers && s.workers[w].phase != Holding && s.workers[w].phase != Written
                           && s.workers[w].body.requestId == id
  {
    if w :| w in s.workers && s.workers[w].phase != Holding && s.workers[w].phase != Written
            && s.workers[w].body.requestId == id {
      assert OwnsRow(s.workers[w]) && Id(s, w) == id;
    }
  }

  /** A fault-free step is any but a new claim, a failure, a crash, a lost channel, and three kinds of bad sweep. */
  lemma HealthyIs(k: Config, s: State, a: Action)
    requires Enabled(k, s, a)
    ensures Healthy(s, a) <==>
            && !a.Publish? && !a.ClaimError? && !a.Fail? && !a.Crash? && !a.ChannelLost? && !a.SweepAbort?
            && (a.Discard? ==> !(s.sweep.Sweeping? && s.workers[a.w].body.requestId in s.sweep.published))
            && (a.SweepSelect? ==>
                  forall w | w in s.workers && s.workers[w].phase != Holding && s.workers[w].phase != Written ::
                    s.workers[w].body.requestId !in a.requestIds)
  {
    UndroppedIs(k, s, a);
    assert a.SweepSelect? ==>
        forall w | w in s.workers :: OwnsRow(s.workers[w]) <==>
          s.workers[w].phase != Holding && s.workers[w].phase != Written;
  }

  lemma AliveIs(s: State, id: string)
    ensures Alive(s, id) <==>
            || id in s.rows
            || (exists b :: b in s.queue && b.requestId == id)
            || (exists w :: w in s.workers && s.workers[w].phase == Holding && s.workers[w].body.requestId == id)
  {
    if w :| w in s.workers && s.workers[w].phase == Holding && s.workers[w].body.requestId == id {
      assert Id(s, w) == id;
    }
  }

  lemma BuriesIs(k: Config, s: State, a: Action, id: string)
    requires Enabled(k, s, a)
    ensures Buries(s, a, id) <==>
            && a == SweepCommit && id in s.sweep.taken
            && (forall b :: b in s.queue ==> b.requestId != id)
            && (forall w | w in s.workers && s.workers[w].phase == Holding :: s.workers[w].body.requestId != id)
  {
    if w :| w in s.workers && s.workers[w].phase == Holding && s.workers[w].body.requestId == id {
      assert Id(s, w) == id;
    }
  }
}

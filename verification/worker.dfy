/**
 The worker's and the sweeper's own code (src/worker/worker.py, src/worker/mcp_client.py,
 src/worker/recovery_sweeper.py), with other processes moving at every await. Every execution is
 shown to be a run of `Protocol`, so all that is proved of runs holds of this code.
 */
module Processes {
  import opened Options
  import opened Counting
  import opened RefundLedger
  import opened Protocol
  import Delivery
  import RefundSafety

  /** What the oracles and the network answer while one message is processed. */
  datatype Oracles = Oracles(
    insertFails: bool,              // the INSERT fails for another reason than a duplicate key
    injection: bool,                // the prompt guard's verdict
    intent: Intent,                 // the Front-Desk's classification
    evidenceAvailable: bool,        // both read tools answered
    llmFails: bool,                 // an exception between the evidence check and the judges
    approve: bool,                  // the judges' verdict
    reclassified: Intent,           // the Front-Desk's second look after a rejection
    answered: nat -> bool,          // the response of an attempt reaches the worker in time
    permanent: nat -> bool)         // a failed attempt was a rejection that no retry can fix

  datatype Outcome =
    | Dropped          // no request id, or a failure before the claim
    | Duplicate        // another delivery owns the request
    | Failed           // an exception after the claim, or no row to write
    | Waiting          // blocked on the row, which a sweep holds locked
    | Decided(status: Status, execution: Option<Receipt>)

  predicate IsSweep(a: Action) {
    a.SweepSelect? || a.SweepPublish? || a.SweepCommit? || a.SweepAbort?
  }

  /** What the gateway, the broker, the tools and the sweeper do. */
  predicate IsSystem(a: Action) {
    a.Publish? || a.Land? || a.Lose? || a.ChannelLost? || IsSweep(a)
  }

  /** The actions that the code of worker `w` performs itself. */
  predicate IsOwn(a: Action, w: nat) {
    !IsSystem(a) && a.w == w
  }

  /** Where worker `w` stands, whatever the broker thinks of its delivery. */
  predicate Stands(s: State, w: nat, body: Body, phase: Phase) {
    w in s.workers && s.workers[w].body == body && s.workers[w].phase == phase
  }

  lemma OthersLeaveItStanding(k: Config, s: State, a: Action, w: nat, body: Body, phase: Phase)
    requires Stands(s, w, body, phase) && Enabled(k, s, a) && !IsOwn(a, w)
    ensures Stands(Next(k, s, a), w, body, phase)
  {
    if IsSystem(a) {
      SystemLeavesItStanding(k, s, a, w, body, phase);
    }
  }

  lemma SystemLeavesItStanding(k: Config, s: State, a: Action, w: nat, body: Body, phase: Phase)
    requires Stands(s, w, body, phase) && Enabled(k, s, a) && IsSystem(a)
    ensures Stands(Next(k, s, a), w, body, phase)
  {
    assert !Moves(a) && !Leaves(a) && !a.Deliver?;
  }

  lemma OthersLeaveTheSweep(k: Config, s: State, a: Action)
    requires Enabled(k, s, a) && !IsSweep(a)
    ensures Next(k, s, a).sweep == s.sweep
  {
  }

  /** What `w` does to the refund tool: start an attempt, and close it with or without its answer. */
  predicate IsToolStep(a: Action, w: nat) {
    a == Issue(w) || Closes(a, w)
  }

  predicate Closes(a: Action, w: nat) {
    a == Receive(w) || (a.AttemptFailed? && a.w == w)
  }

  /** The tool was not called by `w` from `from` on. */
  ghost predicate NoCall(acts: seq<Action>, from: nat, w: nat) {
    forall i | from <= i < |acts| :: !IsToolStep(acts[i], w)
  }

  lemma NoCallJoin(first: seq<Action>, acts: seq<Action>, from: nat, w: nat)
    requires from <= |first| && first <= acts && NoCall(first, from, w) && NoCall(acts, |first|, w)
    ensures NoCall(acts, from, w)
  {
    forall i | from <= i < |acts| ensures !IsToolStep(acts[i], w) {
      if i < |first| {
        assert acts[i] == first[i];
      }
    }
  }

  /**
   Step `i` closes an attempt of `w` as it should: with its receipt if the tool has reported it by then and the
   answer comes through, and otherwise as failed, for good after a rejection that no retry can fix.
   */
  ghost predicate ClosedAt(ss: seq<State>, acts: seq<Action>, i: nat, w: nat, o: Oracles) {
    && i < |acts| && i < |ss| && w in ss[i].workers
    && ss[i].workers[w].phase.Calling? && ss[i].workers[w].phase.call.Some?
    && var p := ss[i].workers[w].phase;
       acts[i] == if o.answered(p.tries) && p.call.value in ss[i].reports then Receive(w)
                  else AttemptFailed(w, o.permanent(p.tries))
  }

  ghost predicate AllClosed(ss: seq<State>, acts: seq<Action>, from: nat, w: nat, o: Oracles) {
    forall i | from <= i < |acts| :: Closes(acts[i], w) ==> ClosedAt(ss, acts, i, w, o)
  }

  lemma AllClosedJoin(ss0: seq<State>, acts0: seq<Action>, ss: seq<State>, acts: seq<Action>,
                      from: nat, w: nat, o: Oracles)
    requires from <= |acts0| && ss0 <= ss && acts0 <= acts
    requires AllClosed(ss0, acts0, from, w, o) && AllClosed(ss, acts, |acts0|, w, o)
    ensures AllClosed(ss, acts, from, w, o)
  {
    forall i | from <= i < |acts| && Closes(acts[i], w) ensures ClosedAt(ss, acts, i, w, o) {
      if i < |acts0| {
        assert acts[i] == acts0[i];
        assert ClosedAt(ss0, acts0, i, w, o);
      }
    }
  }

  /** `w` checked the evidence for `body`; `passed` says whether it was there and held on the ledger of that moment. */
  ghost predicate CheckedAt(k: Config, ss: seq<State>, acts: seq<Action>, i: nat, w: nat, body: Body, o: Oracles,
                            passed: bool) {
    && i < |acts| && i < |ss| && acts[i] == Check(w, passed)
    && (passed <==> o.evidenceAvailable && Verified(k, ss[i].ledger, body))
  }

  ghost predicate Checked(k: Config, ss: seq<State>, acts: seq<Action>, from: nat, w: nat, body: Body, o: Oracles,
                          passed: bool) {
    exists i: nat :: from <= i && CheckedAt(k, ss, acts, i, w, body, o, passed)
  }

  lemma CheckedKept(k: Config, ss0: seq<State>, acts0: seq<Action>, from: nat, ss: seq<State>, acts: seq<Action>,
                    earlier: nat, w: nat, body: Body, o: Oracles, passed: bool)
    requires ss0 <= ss && acts0 <= acts && earlier <= from && Checked(k, ss0, acts0, from, w, body, o, passed)
    ensures Checked(k, ss, acts, earlier, w, body, o, passed)
  {
    var i: nat :| from <= i && CheckedAt(k, ss0, acts0, i, w, body, o, passed);
    assert CheckedAt(k, ss, acts, i, w, body, o, passed);
  }

  /** The claims that get an evidence check: past the guard and the Front-Desk, with something to execute. */
  predicate NeedsCheck(body: Body, o: Oracles) {
    && !(body.claimText != "" && o.injection)
    && (body.claimText == "" || o.intent == ForRefund)
    && body.orderId != "" && body.amount != 0.0
  }

  /** `w` committed this status and execution on the row of `body`. */
  ghost predicate WroteAt(ss: seq<State>, acts: seq<Action>, i: nat, w: nat, body: Body,
                          status: Status, execution: Option<Receipt>) {
    && i + 1 < |ss| && i < |acts| && acts[i] == Write(w)
    && body.requestId in ss[i + 1].rows
    && ss[i + 1].rows[body.requestId].status == status
    && ss[i + 1].rows[body.requestId].execution == execution
  }

  /** The last thing `w` did was to find that its row is gone. */
  ghost predicate FoundNoRow(acts: seq<Action>, w: nat) {
    acts != [] && acts[|acts| - 1] == WriteMissing(w)
  }

  ghost predicate Wrote(ss: seq<State>, acts: seq<Action>, from: nat, w: nat, body: Body,
                        status: Status, execution: Option<Receipt>) {
    exists i: nat :: from <= i && WroteAt(ss, acts, i, w, body, status, execution)
  }

  /** Whatever happens after it, a COMPLETED that some worker wrote shows the ledger's row of its request. */
  lemma WrittenCompletedIsBacked(k: Config, ss: seq<State>, acts: seq<Action>, from: nat, w: nat, body: Body,
                                 execution: Option<Receipt>)
    requires IsRun(k, ss, acts) && Wrote(ss, acts, from, w, body, Completed, execution)
    ensures execution.Some? && Recorded(ss[|acts|].ledger, body.requestId)
    ensures Lookup(ss[|acts|].ledger, body.requestId) == execution.value.refund
  {
    var i: nat :| from <= i && WroteAt(ss, acts, i, w, body, Completed, execution);
    RefundSafety.CompletedIsBacked(k, ss, acts, i + 1, |acts|, body.requestId);
  }

  /**
   The status that the answers justify. `verified` says whether the evidence check passed; the code never
   reaches the judges with a failed one.
   */
  ghost predicate Justified(body: Body, o: Oracles, verified: bool, status: Status, execution: Option<Receipt>) {
    var blocked := body.claimText != "" && o.injection;
    var asksRefund := body.claimText == "" || o.intent == ForRefund;
    var executable := body.orderId != "" && body.amount != 0.0;
    var judged := !blocked && asksRefund && (executable ==> verified);
    && status != Processing
    && (status == BlockedMaliciousPrompt <==> blocked)
    && (status == NeedsClarification <==>
          || (!blocked && !asksRefund && o.intent == Clarify)
          || (judged && !o.approve && o.reclassified == Clarify))
    && (status == Completed || status == ExecutionFailed <==> judged && o.approve && executable)
    && (status == Completed <==> execution.Some?)
  }

  /** How often `a` was performed from `from` on. */
  ghost function Occurrences(acts: seq<Action>, from: nat, a: Action): nat
    requires from <= |acts|
  {
    if |acts| == from then 0
    else Occurrences(acts[..|acts| - 1], from, a) + (if acts[|acts| - 1] == a then 1 else 0)
  }

  /** It is the number of positions, counted from there, that hold the action. */
  lemma {:induction false} OccurrencesAre(acts: seq<Action>, from: nat, a: Action)
    requires from <= |acts|
    ensures Occurrences(acts, from, a) == |Positions(acts[from..], (x: Action) => x == a)|
  {
    var p := (x: Action) => x == a;
    if |acts| == from {
      NoPositions(p);
    } else {
      OccurrencesAre(acts[..|acts| - 1], from, a);
      PositionsSnoc(acts[from..], p);
      assert acts[from..][..|acts| - from - 1] == acts[..|acts| - 1][from..];
    }
  }

  lemma OccurrencesAppend(acts: seq<Action>, b: Action, from: nat, a: Action)
    requires from <= |acts|
    ensures Occurrences(acts + [b], from, a) == Occurrences(acts, from, a) + (if b == a then 1 else 0)
  {
    assert (acts + [b])[..|acts|] == acts;
  }

  lemma {:induction false} OccurrencesKept(before: seq<Action>, acts: seq<Action>, from: nat, a: Action)
    requires from <= |before| && before <= acts
    requires forall i | |before| <= i < |acts| :: acts[i] != a
    ensures Occurrences(acts, from, a) == Occurrences(before, from, a)
  {
    if |before| < |acts| {
      OccurrencesKept(before, acts[..|acts| - 1], from, a);
    } else {
      assert acts == before;
    }
  }

  lemma {:induction false} OccurrencesSplit(before: seq<Action>, acts: seq<Action>, from: nat, a: Action)
    requires from <= |before| && before <= acts
    ensures Occurrences(acts, from, a) == Occurrences(before, from, a) + Occurrences(acts, |before|, a)
  {
    if |before| < |acts| {
      OccurrencesSplit(before, acts[..|acts| - 1], from, a);
    } else {
      assert acts == before;
    }
  }

  /** How often the payload of the request was republished from `from` on. */
  ghost function Publications(acts: seq<Action>, from: nat, id: string): nat
    requires from <= |acts|
  {
    Occurrences(acts, from, SweepPublish(id))
  }

  lemma PublishedOnceMore(before: seq<Action>, published: seq<Action>, acts: seq<Action>, from: nat,
                          id: string, j: string)
    requires from <= |before| && published == before + [SweepPublish(id)] && published <= acts
    requires forall i | |published| <= i < |acts| :: !IsSweep(acts[i])
    ensures Publications(acts, from, j) == Publications(before, from, j) + (if j == id then 1 else 0)
  {
    OccurrencesAppend(before, SweepPublish(id), from, SweepPublish(j));
    OccurrencesKept(published, acts, from, SweepPublish(j));
  }

  lemma OneLess(all: set<string>, done: set<string>, id: string)
    requires id in all && id !in done
    ensures |all - (done + {id})| < |all - done|
  {
    assert all - (done + {id}) == all - done - {id};
  }

  /** How often `w` called the tool from `from` on. */
  ghost function Calls(acts: seq<Action>, from: nat, w: nat): nat
    requires from <= |acts|
  {
    Occurrences(acts, from, Issue(w))
  }

  /** How often `w` got an answer of the tool from `from` on. */
  ghost function Answers(acts: seq<Action>, from: nat, w: nat): nat
    requires from <= |acts|
  {
    Occurrences(acts, from, Receive(w))
  }

  lemma CallsAfterNone(before: seq<Action>, acts: seq<Action>, from: nat, w: nat)
    requires from <= |before| && before <= acts && NoCall(before, from, w)
    ensures Calls(acts, from, w) == Calls(acts, |before|, w)
    ensures Answers(acts, from, w) == Answers(acts, |before|, w)
  {
    OccurrencesKept(before[..from], before, from, Issue(w));
    OccurrencesKept(before[..from], before, from, Receive(w));
    OccurrencesSplit(before, acts, from, Issue(w));
    OccurrencesSplit(before, acts, from, Receive(w));
  }

  lemma NoCallsAtEnd(before: seq<Action>, acts: seq<Action>, from: nat, w: nat)
    requires from <= |before| && before <= acts && NoCall(acts, |before|, w)
    ensures Calls(acts, from, w) == Calls(before, from, w)
    ensures Answers(acts, from, w) == Answers(before, from, w)
  {
    OccurrencesKept(before, acts, from, Issue(w));
    OccurrencesKept(before, acts, from, Receive(w));
  }

  /** What is known of the tool's use after steps without any is known from their start. */
  lemma ToolUseFrom(ss0: seq<State>, before: seq<Action>, ss: seq<State>, acts: seq<Action>,
                    from: nat, w: nat, o: Oracles)
    requires from <= |before| && ss0 <= ss && before <= acts
    requires NoCall(before, from, w) && AllClosed(ss, acts, |before|, w, o)
    ensures NoCall(acts, |before|, w) ==> NoCall(acts, from, w)
    ensures Calls(acts, from, w) == Calls(acts, |before|, w)
    ensures Answers(acts, from, w) == Answers(acts, |before|, w)
    ensures AllClosed(ss, acts, from, w, o)
  {
    if NoCall(acts, |before|, w) {
      NoCallJoin(before, acts, from, w);
    }
    CallsAfterNone(before, acts, from, w);
    AllClosedJoin(ss0, before, ss, acts, from, w, o);
  }

  lemma CallsAppend(acts: seq<Action>, a: Action, from: nat, w: nat)
    requires from <= |acts|
    ensures Calls(acts + [a], from, w) == Calls(acts, from, w) + (if a == Issue(w) then 1 else 0)
    ensures Answers(acts + [a], from, w) == Answers(acts, from, w) + (if a == Receive(w) then 1 else 0)
  {
    OccurrencesAppend(acts, a, from, Issue(w));
    OccurrencesAppend(acts, a, from, Receive(w));
  }

  /** One call, the steps of the others while it is out, and its closing. */
  lemma OneAttempt(before: seq<Action>, issued: seq<Action>, waited: seq<Action>, ss: seq<State>, acts: seq<Action>,
                   w: nat, o: Oracles)
    requires issued == before + [Issue(w)] && issued <= waited && NoCall(waited, |issued|, w)
    requires |acts| == |waited| + 1 && waited <= acts && ClosedAt(ss, acts, |waited|, w, o)
    ensures Calls(acts, |before|, w) == 1
    ensures Answers(acts, |before|, w) == if acts[|waited|] == Receive(w) then 1 else 0
    ensures AllClosed(ss, acts, |before|, w, o)
  {
    CallsAppend(before, Issue(w), |before|, w);
    NoCallsAtEnd(issued, waited, |before|, w);
    CallsAppend(waited, acts[|waited|], |before|, w);
    assert acts == waited + [acts[|waited|]];
    forall i | |before| <= i < |waited| ensures !Closes(acts[i], w) {
      assert acts[i] == waited[i];
      if i == |before| {
        assert waited[i] == issued[i];
      }
    }
  }

  /** The attempts that are made from `attempt` on when none is answered: up to the first permanent rejection. */
  function AttemptsMade(permanent: nat -> bool, attempt: nat, max: nat): nat
    decreases max - attempt
  {
    if attempt >= max then 0
    else if permanent(attempt) then 1
    else 1 + AttemptsMade(permanent, attempt + 1, max)
  }

  /** They are the attempts before the first permanent rejection and that one, or all that are allowed. */
  lemma {:induction false} AttemptsMadeAre(permanent: nat -> bool, attempt: nat, max: nat)
    requires attempt <= max
    ensures var n := attempt + AttemptsMade(permanent, attempt, max);
            && n <= max && (n == max || (n > attempt && permanent(n - 1)))
            && forall i | attempt <= i < n - 1 :: !permanent(i)
    decreases max - attempt
  {
    if attempt < max && !permanent(attempt) {
      AttemptsMadeAre(permanent, attempt + 1, max);
    }
  }

  /** How many calls the tool got and how many were answered, given what the worker wrote. */
  predicate CallsMatch(k: Config, o: Oracles, status: Status, calls: nat, answers: nat) {
    if status == Completed then
      1 <= calls <= AttemptsMade(o.permanent, 0, k.maxRetries) && o.answered(calls - 1) && answers == 1
    else if status == ExecutionFailed then calls == AttemptsMade(o.permanent, 0, k.maxRetries) && answers == 0
    else calls == 0 && answers == 0
  }

  /** The language model cannot be set up, for a claim that the guard lets through. */
  predicate Throws(body: Body, o: Oracles) {
    o.llmFails && !(body.claimText != "" && o.injection)
  }

  /** What the flags of the decision are worth in each case. */
  ghost predicate IsDecision(body: Body, o: Oracles, grant: Option<nat>, frontDesk: Option<Intent>, approved: bool) {
    var judged := body.Executable() ==> grant.Some?;
    && (approved <==> judged && o.approve)
    && frontDesk == if judged && !o.approve && o.reclassified != ForRefund then Some(o.reclassified) else None
  }

  /** Where the worker stands in the protocol when its flags are these. */
  function AfterDecision(body: Body, grant: Option<nat>, frontDesk: Option<Intent>, approved: bool): Phase {
    if approved && grant.Some? then Calling(grant.value, 0, None)
    else Finishing(if frontDesk == Some(Clarify) then NeedsClarification else PendingHumanReview, None)
  }

  function FinalStatus(executes: bool, frontDesk: Option<Intent>, execution: Option<Receipt>): Status {
    if executes then if execution.Some? then Completed else ExecutionFailed
    else if frontDesk == Some(Clarify) then NeedsClarification else PendingHumanReview
  }

  /** The state after the moves of everyone but `w`, as far as they are possible in turn. */
  function After(k: Config, s: State, moves: seq<Action>, w: nat): State
    decreases |moves|
  {
    if moves == [] then s
    else
      var before, a := After(k, s, moves[..|moves| - 1], w), moves[|moves| - 1];
      if Enabled(k, before, a) && !IsOwn(a, w) then Next(k, before, a) else before
  }

  /** The same for everyone but the sweeper. */
  function AfterWorkers(k: Config, s: State, moves: seq<Action>): State
    decreases |moves|
  {
    if moves == [] then s
    else
      var before, a := AfterWorkers(k, s, moves[..|moves| - 1]), moves[|moves| - 1];
      if Enabled(k, before, a) && !IsSweep(a) then Next(k, before, a) else before
  }

  /** What is not the worker's own to do: everything but its own steps, and what befalls its channel. */
  lemma OwnIs(a: Action, w: nat)
    ensures IsOwn(a, w) <==>
            && (a.Deliver? || a.DropEmpty? || a.Claim? || a.Discard? || a.ClaimError? || a.Screen? || a.Check?
                || a.Judge? || a.Issue? || a.Receive? || a.AttemptFailed? || a.GiveUp? || a.Write? || a.WriteMissing?
                || a.Fail? || a.Settle? || a.Crash?)
            && a.w == w
    ensures IsSweep(a) <==> a.SweepSelect? || a.SweepPublish? || a.SweepCommit? || a.SweepAbort?
  {
  }

  class Cluster {
    const k: Config
    /** What the other processes do at each await. */
    const others: nat -> seq<Action>
    var s: State
    var awaits: nat
    ghost var ss: seq<State>
    ghost var acts: seq<Action>

    ghost predicate Valid()
      reads this
    {
      IsRun(k, ss, acts) && ss[|acts|] == s
    }

    constructor (k: Config, others: nat -> seq<Action>)
      ensures Valid() && this.k == k && this.others == others && s == Initial()
    {
      this.k, this.others := k, others;
      s, awaits := Initial(), 0;
      ss, acts := [Initial()], [];
    }

    method Perform(a: Action)
      requires Valid() && Enabled(k, s, a)
      modifies this
      ensures Valid() && s == Next(k, old(s), a) && awaits == old(awaits)
      ensures acts == old(acts) + [a] && ss == old(ss) + [s]
    {
      RunExtend(k, ss, acts, a);
      s := Next(k, s, a);
      ss, acts := ss + [s], acts + [a];
    }

    /** The run so far is kept, and extended by steps that are not the worker's own. */
    ghost predicate ExtendedByOthers(ss0: seq<State>, acts0: seq<Action>, w: nat)
      reads this
    {
      && ss0 <= ss && acts0 <= acts
      && forall i | |acts0| <= i < |acts| :: !IsOwn(acts[i], w)
    }

    /** An await in worker `w`: any number of steps of everyone else. */
    method Await(w: nat, body: Body, phase: Phase)
      requires Valid() && Stands(s, w, body, phase)
      modifies this
      ensures Valid() && Stands(s, w, body, phase)
      ensures ExtendedByOthers(old(ss), old(acts), w)
      ensures s == After(k, old(s), others(old(awaits)), w) && awaits == old(awaits) + 1
    {
      var moves := others(awaits);
      for i := 0 to |moves|
        invariant Valid() && Stands(s, w, body, phase) && awaits == old(awaits)
        invariant ExtendedByOthers(old(ss), old(acts), w)
        invariant s == After(k, old(s), moves[..i], w)
      {
        assert moves[..i + 1][..i] == moves[..i];
        if Enabled(k, s, moves[i]) && !IsOwn(moves[i], w) {
          OthersLeaveItStanding(k, s, moves[i], w, body, phase);
          Perform(moves[i]);
        }
      }
      assert moves[..|moves|] == moves;
      awaits := awaits + 1;
    }

    /** An await in the sweeper. */
    method AwaitSweeping()
      requires Valid()
      modifies this
      ensures Valid() && s.sweep == old(s).sweep
      ensures old(ss) <= ss && old(acts) <= acts
      ensures forall i | |old(acts)| <= i < |acts| :: !IsSweep(acts[i])
      ensures s == AfterWorkers(k, old(s), others(old(awaits))) && awaits == old(awaits) + 1
    {
      var moves := others(awaits);
      for i := 0 to |moves|
        invariant Valid() && s.sweep == old(s).sweep && awaits == old(awaits)
        invariant s == AfterWorkers(k, old(s), moves[..i])
        invariant old(ss) <= ss && old(acts) <= acts
        invariant forall j | |old(acts)| <= j < |acts| :: !IsSweep(acts[j])
      {
        assert moves[..i + 1][..i] == moves[..i];
        if Enabled(k, s, moves[i]) && !IsSweep(moves[i]) {
          OthersLeaveTheSweep(k, s, moves[i]);
          Perform(moves[i]);
        }
      }
      assert moves[..|moves|] == moves;
      awaits := awaits + 1;
    }

    // ----- src/worker/worker.py and src/worker/mcp_client.py -----

    /** Execute the approved refund: retry until an answer, a permanent rejection, or the last attempt. */
    method ExecuteRefundViaMcp(w: nat, body: Body, g: nat, o: Oracles) returns (execution: Option<Receipt>)
      requires Valid() && Stands(s, w, body, Calling(g, 0, None))
      modifies this
      ensures Valid() && old(ss) <= ss && old(acts) <= acts
      ensures Stands(s, w, body, if execution.Some? then Finishing(Completed, execution)
                                 else Finishing(ExecutionFailed, None))
      ensures CallsMatch(k, o, if execution.Some? then Completed else ExecutionFailed,
                         Calls(acts, |old(acts)|, w), Answers(acts, |old(acts)|, w))
      ensures AllClosed(ss, acts, |old(acts)|, w, o)
    {
      var attempt := 0;
      while attempt < k.maxRetries
        invariant Valid() && old(ss) <= ss && old(acts) <= acts
        invariant Stands(s, w, body, Calling(g, attempt, None))
        invariant attempt < k.maxRetries ==> Calls(acts, |old(acts)|, w) == attempt
        invariant Answers(acts, |old(acts)|, w) == 0 && AllClosed(ss, acts, |old(acts)|, w, o)
        invariant Calls(acts, |old(acts)|, w) + AttemptsMade(o.permanent, attempt, k.maxRetries)
                  == AttemptsMade(o.permanent, 0, k.maxRetries)
      {
        execution := NextAttempt(w, body, g, attempt, o, |old(acts)|);
        if execution.Some? {
          return;
        }
        attempt := if o.permanent(attempt) then k.maxRetries else attempt + 1;
      }
      GiveUpCalling(w, body, g, attempt, o, |old(acts)|);
      return None;
    }

    /** The backoff before every attempt but the first, and the attempt, counted from `start` on. */
    method NextAttempt(w: nat, body: Body, g: nat, attempt: nat, o: Oracles, ghost start: nat)
      returns (execution: Option<Receipt>)
      requires Valid() && Stands(s, w, body, Calling(g, attempt, None)) && attempt < k.maxRetries
      requires start <= |acts| && AllClosed(ss, acts, start, w, o)
      modifies this
      ensures Valid() && old(ss) <= ss && old(acts) <= acts
      ensures Stands(s, w, body,
                     if execution.Some? then Finishing(Completed, execution)
                     else Calling(g, if o.permanent(attempt) then k.maxRetries else attempt + 1, None))
      ensures Calls(acts, start, w) == old(Calls(acts, start, w)) + 1
      ensures Answers(acts, start, w) == old(Answers(acts, start, w)) + (if execution.Some? then 1 else 0)
      ensures execution.Some? ==> o.answered(attempt)
      ensures AllClosed(ss, acts, start, w, o)
    {
      if attempt > 0 {
        Await(w, body, Calling(g, attempt, None));
      }
      ghost var waitedStates, waited := ss, acts;
      AllClosedJoin(old(ss), old(acts), ss, acts, start, w, o);
      NoCallsAtEnd(old(acts), waited, start, w);
      execution := CallOnce(w, body, g, attempt, o);
      OccurrencesSplit(waited, acts, start, Issue(w));
      OccurrencesSplit(waited, acts, start, Receive(w));
      AllClosedJoin(waitedStates, waited, ss, acts, start, w, o);
    }

    /** One attempt: the tool may execute it, lose it, or execute it long after the worker moved on. */
    method CallOnce(w: nat, body: Body, g: nat, attempt: nat, o: Oracles) returns (execution: Option<Receipt>)
      requires Valid() && Stands(s, w, body, Calling(g, attempt, None)) && attempt < k.maxRetries
      modifies this
      ensures Valid() && old(ss) <= ss && old(acts) <= acts
      ensures Stands(s, w, body,
                     if execution.Some? then Finishing(Completed, execution)
                     else Calling(g, if o.permanent(attempt) then k.maxRetries else attempt + 1, None))
      ensures Calls(acts, |old(acts)|, w) == 1
      ensures Answers(acts, |old(acts)|, w) == if execution.Some? then 1 else 0
      ensures AllClosed(ss, acts, |old(acts)|, w, o)
      ensures execution == if o.answered(attempt) && old(|s.calls|) in s.reports
                           then Some(s.reports[old(|s.calls|)]) else None
    {
      var call := IssueAndWait(w, body, g, attempt);
      ghost var waited := acts;
      execution := CloseAttempt(w, body, g, attempt, call, o);
      OneAttempt(old(acts), old(acts) + [Issue(w)], waited, ss, acts, w, o);
    }

    method IssueAndWait(w: nat, body: Body, g: nat, attempt: nat) returns (call: nat)
      requires Valid() && Stands(s, w, body, Calling(g, attempt, None)) && attempt < k.maxRetries
      modifies this
      ensures Valid() && old(ss) <= ss && old(acts) + [Issue(w)] <= acts && NoCall(acts, |old(acts)| + 1, w)
      ensures Stands(s, w, body, Calling(g, attempt, Some(call))) && call == old(|s.calls|)
    {
      call := IssueAttempt(w, body, g, attempt);
      Await(w, body, Calling(g, attempt, Some(call)));
    }

    method IssueAttempt(w: nat, body: Body, g: nat, attempt: nat) returns (call: nat)
      requires Valid() && Stands(s, w, body, Calling(g, attempt, None)) && attempt < k.maxRetries
      modifies this
      ensures Valid() && ss == old(ss) + [s] && acts == old(acts) + [Issue(w)]
      ensures Stands(s, w, body, Calling(g, attempt, Some(call))) && call == old(|s.calls|)
    {
      call := |s.calls|;
      Perform(Issue(w));
    }

    method CloseAttempt(w: nat, body: Body, g: nat, attempt: nat, call: nat, o: Oracles)
      returns (execution: Option<Receipt>)
      requires Valid() && Stands(s, w, body, Calling(g, attempt, Some(call)))
      modifies this
      ensures Valid() && ss == old(ss) + [s] && s.reports == old(s).reports
      ensures acts == old(acts) + [if execution.Some? then Receive(w) else AttemptFailed(w, o.permanent(attempt))]
      ensures execution == if o.answered(attempt) && call in s.reports then Some(s.reports[call]) else None
      ensures ClosedAt(ss, acts, |old(acts)|, w, o)
      ensures Stands(s, w, body,
                     if execution.Some? then Finishing(Completed, execution)
                     else Calling(g, if o.permanent(attempt) then k.maxRetries else attempt + 1, None))
    {
      if call in s.reports && o.answered(attempt) {
        execution := Some(s.reports[call]);
        Perform(Receive(w));
      } else {
        execution := None;
        Perform(AttemptFailed(w, o.permanent(attempt)));
      }
    }

    /** No attempt is left. */
    method GiveUpCalling(w: nat, body: Body, g: nat, attempt: nat, o: Oracles, ghost start: nat)
      requires Valid() && Stands(s, w, body, Calling(g, attempt, None)) && attempt >= k.maxRetries
      requires start <= |acts| && AllClosed(ss, acts, start, w, o)
      modifies this
      ensures Valid() && old(ss) <= ss && old(acts) <= acts
      ensures Stands(s, w, body, Finishing(ExecutionFailed, None))
      ensures Calls(acts, start, w) == old(Calls(acts, start, w))
      ensures Answers(acts, start, w) == old(Answers(acts, start, w))
      ensures AllClosed(ss, acts, start, w, o)
    {
      Perform(GiveUp(w));
      CallsAppend(old(acts), GiveUp(w), start, w);
      AllClosedJoin(old(ss), old(acts), ss, acts, start, w, o);
    }

    /** Step 1: the INSERT that claims the request. */
    method ClaimRequest(w: nat, body: Body, o: Oracles) returns (refused: Option<Outcome>)
      requires Valid() && Stands(s, w, body, Holding)
      modifies this
      ensures Valid() && old(ss) <= ss && old(acts) <= acts && NoCall(acts, |old(acts)|, w)
      ensures refused.None? ==> Stands(s, w, body, Claimed) && acts == old(acts) + [Claim(w)]
      ensures refused.Some? ==> w !in s.workers
      ensures body.requestId == "" <==> acts == old(acts) + [DropEmpty(w)]
      ensures refused == Some(Duplicate) <==> acts == old(acts) + [Discard(w)]
      ensures refused == if body.requestId == "" || o.insertFails then Some(Dropped)
                         else if body.requestId in old(s).rows then Some(Duplicate) else None
    {
      if body.requestId == "" {
        Perform(DropEmpty(w));
        assert acts[|acts| - 1] == DropEmpty(w);
        return Some(Dropped);
      }
      if o.insertFails {
        Perform(ClaimError(w));
        assert acts[|acts| - 1] == ClaimError(w);
        return Some(Dropped);
      }
      if body.requestId in s.rows {
        Perform(Discard(w));
        assert acts[|acts| - 1] == Discard(w);
        return Some(Duplicate);
      }
      Perform(Claim(w));
      assert acts[|acts| - 1] == Claim(w);
      return None;
    }

    /** Step 2.6: the evidence check. */
    method CheckEvidence(w: nat, body: Body, o: Oracles) returns (failed: bool, g: nat)
      requires Valid() && Stands(s, w, body, Checking)
      modifies this
      ensures Valid() && old(ss) <= ss && old(acts) <= acts && NoCall(acts, |old(acts)|, w)
      ensures failed <==> !(o.evidenceAvailable && Verified(k, old(s).ledger, body))
      ensures failed ==> Stands(s, w, body, Finishing(PendingHumanReview, None))
      ensures !failed ==> Stands(s, w, body, Judging(Some(g)))
      ensures Checked(k, ss, acts, |old(acts)|, w, body, o, !failed)
    {
      g := |s.grants|;
      failed := !(o.evidenceAvailable && Verified(k, s.ledger, body));
      Perform(Check(w, !failed));
      assert CheckedAt(k, ss, acts, |old(acts)|, w, body, o, !failed);
    }

    /** Step 5 and the settling of the message. */
    method WriteOutcome(w: nat, body: Body, status: Status, execution: Option<Receipt>)
      returns (outcome: Outcome)
      requires Valid() && Stands(s, w, body, Finishing(status, execution))
      modifies this
      ensures Valid() && old(ss) <= ss && old(acts) <= acts && NoCall(acts, |old(acts)|, w)
      ensures outcome == Decided(status, execution) || outcome == Failed || outcome == Waiting
      ensures outcome == Failed ==> FoundNoRow(acts, w)
      ensures outcome == Decided(status, execution) ==> Wrote(ss, acts, |old(acts)|, w, body, status, execution)
      ensures outcome == Waiting <==> w in s.workers
      ensures outcome == Waiting ==> s.workers[w].phase.Finishing? && body.requestId in Taken(s)
    {
      Await(w, body, Finishing(status, execution));
      ghost var from := acts;
      if body.requestId in Taken(s) && body.requestId in s.rows {
        outcome := Waiting;
      } else if body.requestId !in s.rows {
        RowIsMissing(w);
        outcome := Failed;
      } else {
        CommitAndSettle(w, body, status, execution);
        outcome := Decided(status, execution);
      }
      NoCallJoin(from, acts, |old(acts)|, w);
    }

    method RowIsMissing(w: nat)
      requires Valid() && w in s.workers && s.workers[w].phase.Finishing? && Id(s, w) !in s.rows
      modifies this
      ensures Valid() && old(ss) <= ss && acts == old(acts) + [WriteMissing(w)] && NoCall(acts, |old(acts)|, w)
      ensures w !in s.workers
    {
      Perform(WriteMissing(w));
    }

    method CommitAndSettle(w: nat, body: Body, status: Status, execution: Option<Receipt>)
      requires Valid() && Stands(s, w, body, Finishing(status, execution))
      requires body.requestId in s.rows && body.requestId !in Taken(s)
      modifies this
      ensures Valid() && old(ss) <= ss && old(acts) <= acts && NoCall(acts, |old(acts)|, w)
      ensures Wrote(ss, acts, |old(acts)|, w, body, status, execution) && w !in s.workers
    {
      CommitStatus(w, body, status, execution);
      ghost var written := acts;
      SettleMessage(w, body);
      assert WroteAt(ss, acts, |old(acts)|, w, body, status, execution);
      NoCallJoin(written, acts, |old(acts)|, w);
    }

    method CommitStatus(w: nat, body: Body, status: Status, execution: Option<Receipt>)
      requires Valid() && Stands(s, w, body, Finishing(status, execution))
      requires body.requestId in s.rows && body.requestId !in Taken(s)
      modifies this
      ensures Valid() && old(ss) <= ss && acts == old(acts) + [Write(w)]
      ensures Stands(s, w, body, Written) && WroteAt(ss, acts, |old(acts)|, w, body, status, execution)
    {
      Perform(Write(w));
    }

    method SettleMessage(w: nat, body: Body)
      requires Valid() && Stands(s, w, body, Written)
      modifies this
      ensures Valid() && old(ss) <= ss && old(acts) <= acts && NoCall(acts, |old(acts)|, w)
      ensures w !in s.workers
    {
      Await(w, body, Written);
      Perform(Settle(w));
    }

    /** Steps 2 and 2.55: the guard and the Front-Desk. */
    method ScreenClaim(w: nat, body: Body, o: Oracles)
      requires Valid() && Stands(s, w, body, Claimed)
      modifies this
      ensures Valid() && old(ss) <= ss && old(acts) <= acts && NoCall(acts, |old(acts)|, w)
      ensures Stands(s, w, body, AfterScreen(body, o.injection, o.intent))
    {
      Await(w, body, Claimed);
      Perform(Screen(w, o.injection, o.intent));
    }

    /** Steps 3 and 3.5: the judges, and the Front-Desk's second look after a rejection. */
    method JudgeClaim(w: nat, body: Body, grant: Option<nat>, o: Oracles)
      requires Valid() && Stands(s, w, body, Judging(grant))
      modifies this
      ensures Valid() && old(ss) <= ss && old(acts) <= acts && NoCall(acts, |old(acts)|, w)
      ensures Stands(s, w, body, AfterJudge(grant, o.approve, o.reclassified))
    {
      Await(w, body, Judging(grant));
      Perform(Judge(w, o.approve, o.reclassified));
    }

    /** The `except` around it all: nack without requeue. */
    method FailMessage(w: nat)
      requires Valid() && w in s.workers && OwnsRow(s.workers[w])
      modifies this
      ensures Valid() && old(ss) <= ss && old(acts) <= acts && NoCall(acts, |old(acts)|, w)
      ensures w !in s.workers
    {
      Perform(Fail(w));
    }

    /** Step 2.6, guarded by the claim having something to execute. */
    method VerifyIfExecutable(w: nat, body: Body, o: Oracles) returns (evidenceFailed: bool, grant: Option<nat>)
      requires Valid()
      requires Stands(s, w, body, if body.Executable() then Checking else Judging(None))
      modifies this
      ensures Valid() && old(ss) <= ss && old(acts) <= acts && NoCall(acts, |old(acts)|, w)
      ensures evidenceFailed <==> body.Executable() && grant.None?
      ensures grant.Some? ==> body.Executable()
      ensures body.Executable() ==> Checked(k, ss, acts, |old(acts)|, w, body, o, grant.Some?)
      ensures Stands(s, w, body, if evidenceFailed then Finishing(PendingHumanReview, None) else Judging(grant))
    {
      evidenceFailed, grant := false, None;
      if body.Executable() {
        Await(w, body, Checking);
        ghost var awaited := acts;
        var g;
        evidenceFailed, g := CheckEvidence(w, body, o);
        grant := if evidenceFailed then None else Some(g);
        NoCallJoin(awaited, acts, |old(acts)|, w);
        CheckedKept(k, ss, acts, |awaited|, ss, acts, |old(acts)|, w, body, o, grant.Some?);
      }
    }

    /** Steps 2.6 to 3.5, for a claim that asks for a refund: up to the judges' decision. */
    method DecideRefund(w: nat, body: Body, o: Oracles)
      returns (failed: bool, frontDesk: Option<Intent>, grant: Option<nat>, approved: bool)
      requires Valid()
      requires Stands(s, w, body, if body.Executable() then Checking else Judging(None))
      modifies this
      ensures Valid() && old(ss) <= ss && old(acts) <= acts && NoCall(acts, |old(acts)|, w)
      ensures failed <==> o.llmFails
      ensures failed ==> w !in s.workers
      ensures grant.Some? ==> body.Executable()
      ensures body.Executable() ==> Checked(k, ss, acts, |old(acts)|, w, body, o, grant.Some?)
      ensures !failed ==> Stands(s, w, body, AfterDecision(body, grant, frontDesk, approved))
      ensures !failed ==> IsDecision(body, o, grant, frontDesk, approved)
    {
      var evidenceFailed;
      evidenceFailed, grant := VerifyIfExecutable(w, body, o);
      ghost var states, checked := ss, acts;
      failed, frontDesk, approved := JudgeIfVerified(w, body, evidenceFailed, grant, o);
      NoCallJoin(checked, acts, |old(acts)|, w);
      if body.Executable() {
        CheckedKept(k, states, checked, |old(acts)|, ss, acts, |old(acts)|, w, body, o, grant.Some?);
      }
    }

    method JudgeIfVerified(w: nat, body: Body, evidenceFailed: bool, grant: Option<nat>, o: Oracles)
      returns (failed: bool, frontDesk: Option<Intent>, approved: bool)
      requires Valid() && (evidenceFailed <==> body.Executable() && grant.None?)
      requires Stands(s, w, body, if evidenceFailed then Finishing(PendingHumanReview, None) else Judging(grant))
      modifies this
      ensures Valid() && old(ss) <= ss && old(acts) <= acts && NoCall(acts, |old(acts)|, w)
      ensures failed <==> o.llmFails
      ensures failed ==> w !in s.workers
      ensures !failed ==> Stands(s, w, body, AfterDecision(body, grant, frontDesk, approved))
      ensures !failed ==> IsDecision(body, o, grant, frontDesk, approved)
    {
      failed, frontDesk, approved := false, None, false;
      if o.llmFails {
        FailMessage(w);
        failed := true;
      } else if !evidenceFailed {
        JudgeClaim(w, body, grant, o);
        approved := o.approve;
        if !approved && o.reclassified != ForRefund {
          frontDesk := Some(o.reclassified);
        }
      }
    }

    /** Steps 4 and 5: execute what was approved, then write the final status. */
    method FinishClaim(w: nat, body: Body, o: Oracles,
                       frontDesk: Option<Intent>, grant: Option<nat>, approved: bool)
      returns (outcome: Outcome)
      requires Valid() && Stands(s, w, body, AfterDecision(body, grant, frontDesk, approved))
      requires grant.Some? ==> body.Executable()
      requires approved && body.Executable() ==> grant.Some?
      modifies this
      ensures Valid() && old(ss) <= ss && old(acts) <= acts
      ensures !(approved && grant.Some?) ==> NoCall(acts, |old(acts)|, w)
      ensures AllClosed(ss, acts, |old(acts)|, w, o)
      ensures outcome == Waiting <==> w in s.workers
      ensures outcome == Waiting ==> s.workers[w].phase.Finishing? && body.requestId in Taken(s)
      ensures outcome != Duplicate && outcome != Dropped
      ensures outcome == Failed ==> FoundNoRow(acts, w)
      ensures outcome.Decided? ==>
                && Wrote(ss, acts, |old(acts)|, w, body, outcome.status, outcome.execution)
                && CallsMatch(k, o, outcome.status, Calls(acts, |old(acts)|, w), Answers(acts, |old(acts)|, w))
                && outcome.status == FinalStatus(approved && grant.Some?, frontDesk, outcome.execution)
                && (outcome.execution.Some? ==> approved && grant.Some?)
    {
      var finalStatus := if frontDesk == Some(Clarify) then NeedsClarification else PendingHumanReview;
      var execution := None;
      if approved && body.Executable() {
        execution := ExecuteRefundViaMcp(w, body, grant.value, o);
        finalStatus := if execution.Some? then Completed else ExecutionFailed;
      }
      ghost var states, executed := ss, acts;
      outcome := WriteOutcome(w, body, finalStatus, execution);
      NoCallsAtEnd(executed, acts, |old(acts)|, w);
      AllClosedJoin(states, executed, ss, acts, |old(acts)|, w, o);
      assert outcome.Decided? ==> Wrote(ss, acts, |old(acts)|, w, body, finalStatus, execution);
    }

    /**
     `process_message`, from a delivery to its end. The refund tool is called only after this message's own
     evidence check passed and the judges approved; the status that is written is the one that the answers
     justify; and it is written together with the receipt it claims.
     */
    method ProcessMessage(w: nat, body: Body, o: Oracles) returns (outcome: Outcome, verified: bool)
      requires Valid() && Stands(s, w, body, Holding)
      modifies this
      ensures Valid() && old(ss) <= ss && old(acts) <= acts
      ensures outcome == Waiting <==> w in s.workers
      ensures outcome == Waiting ==> s.workers[w].phase.Finishing? && body.requestId in Taken(s)
      ensures outcome == Dropped <==> body.requestId == "" || o.insertFails
      ensures outcome == Duplicate <==> body.requestId != "" && !o.insertFails && body.requestId in old(s).rows
      ensures outcome == Failed ==> Throws(body, o) || FoundNoRow(acts, w)
      ensures Throws(body, o) ==> !outcome.Decided? && outcome != Waiting
      ensures verified ==> NeedsCheck(body, o)
      ensures NeedsCheck(body, o) && outcome != Dropped && outcome != Duplicate ==>
                Checked(k, ss, acts, |old(acts)|, w, body, o, verified)
      ensures outcome == Dropped || outcome == Duplicate ==> !verified
      ensures !NoCall(acts, |old(acts)|, w) ==> verified && o.approve
      ensures AllClosed(ss, acts, |old(acts)|, w, o)
      ensures outcome.Decided? ==>
                && Justified(body, o, verified, outcome.status, outcome.execution)
                && CallsMatch(k, o, outcome.status, Calls(acts, |old(acts)|, w), Answers(acts, |old(acts)|, w))
                && Wrote(ss, acts, |old(acts)|, w, body, outcome.status, outcome.execution)
    {
      var refused := ClaimRequest(w, body, o);
      if refused.Some? {
        return refused.value, false;
      }
      ghost var claimed, claimedStates := acts, ss;
      outcome, verified := ProcessClaim(w, body, o);
      ToolUseFrom(claimedStates, claimed, ss, acts, |old(acts)|, w, o);
      if NeedsCheck(body, o) {
        CheckedKept(k, ss, acts, |claimed|, ss, acts, |old(acts)|, w, body, o, verified);
      }
    }

    /** Everything after the claim. */
    method ProcessClaim(w: nat, body: Body, o: Oracles) returns (outcome: Outcome, verified: bool)
      requires Valid() && Stands(s, w, body, Claimed)
      modifies this
      ensures Valid() && old(ss) <= ss && old(acts) <= acts
      ensures outcome == Waiting <==> w in s.workers
      ensures outcome == Waiting ==> s.workers[w].phase.Finishing? && body.requestId in Taken(s)
      ensures outcome != Duplicate && outcome != Dropped
      ensures outcome == Failed ==> Throws(body, o) || FoundNoRow(acts, w)
      ensures Throws(body, o) ==> outcome == Failed
      ensures verified ==> NeedsCheck(body, o)
      ensures NeedsCheck(body, o) ==> Checked(k, ss, acts, |old(acts)|, w, body, o, verified)
      ensures !NoCall(acts, |old(acts)|, w) ==> verified && o.approve
      ensures AllClosed(ss, acts, |old(acts)|, w, o)
      ensures outcome.Decided? ==>
                && Justified(body, o, verified, outcome.status, outcome.execution)
                && CallsMatch(k, o, outcome.status, Calls(acts, |old(acts)|, w), Answers(acts, |old(acts)|, w))
                && Wrote(ss, acts, |old(acts)|, w, body, outcome.status, outcome.execution)
    {
      ScreenClaim(w, body, o);
      ghost var states, screened := ss, acts;
      if body.claimText != "" && o.injection {
        outcome := WriteOutcome(w, body, BlockedMaliciousPrompt, None);
        verified := false;
        NoCallsAtEnd(screened, acts, |screened|, w);
      } else {
        outcome, verified := ProcessScreened(w, body, o);
      }
      ToolUseFrom(states, screened, ss, acts, |old(acts)|, w, o);
      if NeedsCheck(body, o) {
        CheckedKept(k, ss, acts, |screened|, ss, acts, |old(acts)|, w, body, o, verified);
      }
    }

    /** Everything after the guard let the claim through. */
    method ProcessScreened(w: nat, body: Body, o: Oracles) returns (outcome: Outcome, verified: bool)
      requires Valid() && !(body.claimText != "" && o.injection)
      requires Stands(s, w, body, AfterScreen(body, o.injection, o.intent))
      modifies this
      ensures Valid() && old(ss) <= ss && old(acts) <= acts
      ensures outcome == Waiting <==> w in s.workers
      ensures outcome == Waiting ==> s.workers[w].phase.Finishing? && body.requestId in Taken(s)
      ensures outcome != Duplicate && outcome != Dropped
      ensures outcome == Failed ==> Throws(body, o) || FoundNoRow(acts, w)
      ensures Throws(body, o) ==> outcome == Failed
      ensures verified ==> NeedsCheck(body, o)
      ensures NeedsCheck(body, o) ==> Checked(k, ss, acts, |old(acts)|, w, body, o, verified)
      ensures !NoCall(acts, |old(acts)|, w) ==> verified && o.approve
      ensures AllClosed(ss, acts, |old(acts)|, w, o)
      ensures outcome.Decided? ==>
                && Justified(body, o, verified, outcome.status, outcome.execution)
                && CallsMatch(k, o, outcome.status, Calls(acts, |old(acts)|, w), Answers(acts, |old(acts)|, w))
                && Wrote(ss, acts, |old(acts)|, w, body, outcome.status, outcome.execution)
    {
      verified := false;
      var frontDesk := if body.claimText != "" && o.intent != ForRefund then Some(o.intent) else None;
      var failed, approved, grant := o.llmFails, false, None;
      if frontDesk.None? {
        failed, frontDesk, grant, approved := DecideRefund(w, body, o);
        verified := grant.Some?;
      } else if failed {
        FailMessage(w);
      }
      if failed {
        return Failed, verified;
      }
      ghost var states, decided := ss, acts;
      outcome := FinishClaim(w, body, o, frontDesk, grant, approved);
      ToolUseFrom(states, decided, ss, acts, |old(acts)|, w, o);
      if NeedsCheck(body, o) {
        CheckedKept(k, states, decided, |old(acts)|, ss, acts, |old(acts)|, w, body, o, verified);
      }
    }

    // ----- src/worker/recovery_sweeper.py -----

    /** From `from` on, the requests of `done` were republished once each, the other swept ones not yet. */
    ghost predicate SweepProgress(from: nat, swept: set<string>, done: set<string>)
      reads this
    {
      && from <= |acts| && s.sweep == Sweeping(swept, done) && done <= swept
      && forall id | id in swept :: Publications(acts, from, id) == if id in done then 1 else 0
    }

    /**
     `run_sweep`, where `stale` are the requests whose row was not updated in time. It takes exactly the stale
     rows in progress, publishes the payload of each once, and ends with all of them deleted.
     */
    method RunSweep(stale: set<string>) returns (swept: set<string>)
      requires Valid() && s.sweep == Resting
      modifies this
      ensures Valid() && old(ss) <= ss && old(acts) <= acts && s.sweep == Resting
      ensures swept == set id | id in stale && id in old(s).rows && old(s).rows[id].status == Processing
      ensures swept == {} ==> acts == old(acts)
      ensures forall id | id in swept :: id !in s.rows && Publications(acts, |old(acts)|, id) == 1
    {
      swept := set id | id in stale && id in s.rows && s.rows[id].status == Processing;
      if swept == {} {
        return;
      }
      SelectZombies(swept);
      PublishZombies(|old(acts)|, swept);
      CommitSweep(|old(acts)|, swept);
    }

    /** The loop over the rows. */
    method PublishZombies(ghost from: nat, swept: set<string>)
      requires Valid() && SweepProgress(from, swept, {})
      modifies this
      ensures Valid() && old(ss) <= ss && old(acts) <= acts && SweepProgress(from, swept, swept)
    {
      var done := {};
      while done < swept
        invariant Valid() && old(ss) <= ss && old(acts) <= acts && done <= swept
        invariant SweepProgress(from, swept, done)
        decreases |swept - done|
      {
        var id :| id in swept && id !in done;
        OneLess(swept, done, id);
        PublishZombie(from, swept, done, id);
        done := done + {id};
      }
      assert done == swept;
    }

    method SelectZombies(swept: set<string>)
      requires Valid() && s.sweep == Resting && swept != {}
      requires forall id | id in swept :: id in s.rows && s.rows[id].status == Processing
      modifies this
      ensures Valid() && old(ss) <= ss && old(acts) <= acts && SweepProgress(|old(acts)|, swept, {})
    {
      ghost var from := |acts|;
      Perform(SweepSelect(swept));
      forall id | id in swept ensures Publications(acts, from, id) == 0 {
        OccurrencesAppend(old(acts), SweepSelect(swept), from, SweepPublish(id));
      }
    }

    /** One iteration: mark the row, publish its payload; then everyone else moves. */
    method PublishZombie(ghost from: nat, swept: set<string>, done: set<string>, id: string)
      requires Valid() && SweepProgress(from, swept, done) && id in swept && id !in done
      modifies this
      ensures Valid() && old(ss) <= ss && old(acts) <= acts && SweepProgress(from, swept, done + {id})
    {
      Republish(swept, done, id);
      ghost var published := acts;
      AwaitSweeping();
      forall j | j in swept
        ensures Publications(acts, from, j) == Publications(old(acts), from, j) + (if j == id then 1 else 0)
      {
        PublishedOnceMore(old(acts), published, acts, from, id, j);
      }
    }

    method Republish(swept: set<string>, done: set<string>, id: string)
      requires Valid() && s.sweep == Sweeping(swept, done) && id in swept && id !in done
      modifies this
      ensures Valid() && old(ss) <= ss && acts == old(acts) + [SweepPublish(id)]
      ensures s.sweep == Sweeping(swept, done + {id})
    {
      Delivery.SweepInvRun(k, ss, acts, |acts|);
      Perform(SweepPublish(id));
    }

    method CommitSweep(ghost from: nat, swept: set<string>)
      requires Valid() && SweepProgress(from, swept, swept)
      modifies this
      ensures Valid() && old(ss) <= ss && old(acts) <= acts && s.sweep == Resting
      ensures forall id | id in swept :: id !in s.rows && Publications(acts, from, id) == 1
    {
      Perform(SweepCommit);
      forall id | id in swept ensures Publications(acts, from, id) == 1 {
        OccurrencesAppend(old(acts), SweepCommit, from, SweepPublish(id));
      }
    }
  }
}

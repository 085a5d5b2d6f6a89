/**
 A client that keeps retrying (src/mcp_server/security/rate_limiter.py): every audited attempt counts, so
 what decides an attempt is when the attempt `limit` places before it was made, never what became of it.
 */
module Retries {
  import opened Options
  import opened Boundary

  // ----- Attempts one after the other -----

  /** The audit row of one attempt, decided on the log that it finds. */
  function Attempt(log: seq<AuditRow>, clientId: string, tool: string, limit: nat, now: int): AuditRow {
    AuditRow(clientId, Some(tool),
             if IsRateLimited(log, clientId, tool, limit, now) then DeniedRateLimited else Allowed, now)
  }

  /** The log after attempts at the given times. */
  function Replay(log: seq<AuditRow>, clientId: string, tool: string, limit: nat, times: seq<int>): seq<AuditRow> {
    if times == [] then log
    else
      var before := Replay(log, clientId, tool, limit, times[..|times| - 1]);
      before + [Attempt(before, clientId, tool, limit, times[|times| - 1])]
  }

  /** The same if all of them are denied. */
  function AfterDenials(log: seq<AuditRow>, clientId: string, tool: string, times: seq<int>): seq<AuditRow> {
    if times == [] then log
    else AfterDenials(log, clientId, tool, times[..|times| - 1])
         + [AuditRow(clientId, Some(tool), DeniedRateLimited, times[|times| - 1])]
  }

  function Times(rows: seq<AuditRow>): (times: seq<int>)
    ensures |times| == |rows| && forall i | 0 <= i < |rows| :: times[i] == rows[i].at
  {
    if rows == [] then [] else Times(rows[..|rows| - 1]) + [rows[|rows| - 1].at]
  }

  /** When the audited attempts of the key were made. */
  function KeyTimes(log: seq<AuditRow>, clientId: string, tool: string): seq<int> {
    Times(KeyRows(log, clientId, tool))
  }

  ghost predicate Sorted(times: seq<int>) {
    forall i, j | 0 <= i < j < |times| :: times[i] <= times[j]
  }

  /**
   The attempt `limit` places before attempt `i` of `times` was made, and no more than a minute earlier. The
   attempts before `times` were made at `earlier`.
   */
  predicate Recent(earlier: seq<int>, times: seq<int>, i: nat, limit: nat)
    requires i < |times|
  {
    var all, at := earlier + times, |earlier| + i;
    limit <= at && all[at] - all[at - limit] <= 60_000_000
  }

  lemma KeyTimesSnoc(log: seq<AuditRow>, row: AuditRow, clientId: string, tool: string)
    requires OfTheKey(row, clientId, tool)
    ensures KeyTimes(log + [row], clientId, tool) == KeyTimes(log, clientId, tool) + [row.at]
  {
    KeyRowsSnoc(log, row, clientId, tool);
  }

  lemma {:induction false} ReplayTimes(log: seq<AuditRow>, clientId: string, tool: string, limit: nat, times: seq<int>)
    ensures KeyTimes(Replay(log, clientId, tool, limit, times), clientId, tool) == KeyTimes(log, clientId, tool) + times
    ensures |Replay(log, clientId, tool, limit, times)| == |log| + |times|
  {
    if times != [] {
      var init, now := times[..|times| - 1], times[|times| - 1];
      var before := Replay(log, clientId, tool, limit, init);
      ReplayTimes(log, clientId, tool, limit, init);
      KeyTimesSnoc(before, Attempt(before, clientId, tool, limit, now), clientId, tool);
      assert times == init + [now];
    }
  }

  lemma {:induction false} ReplayPrefix(log: seq<AuditRow>, clientId: string, tool: string, limit: nat,
                                        times: seq<int>, n: nat)
    requires n <= |times|
    ensures Replay(log, clientId, tool, limit, times[..n]) <= Replay(log, clientId, tool, limit, times)
  {
    if n < |times| {
      var init := times[..|times| - 1];
      ReplayPrefix(log, clientId, tool, limit, init, n);
      assert init[..n] == times[..n];
    } else {
      assert times[..n] == times;
    }
  }

  /** Whether an attempt is limited, in terms of when the earlier ones were made. */
  lemma LimitedByTimes(log: seq<AuditRow>, clientId: string, tool: string, limit: nat, now: int)
    requires limit > 0 && Sorted(KeyTimes(log, clientId, tool))
    ensures IsRateLimited(log, clientId, tool, limit, now)
            <==> Recent(KeyTimes(log, clientId, tool), [now], 0, limit)
  {
    var rows, times := KeyRows(log, clientId, tool), KeyTimes(log, clientId, tool);
    assert forall i | 0 <= i < |rows| :: rows[i].at == times[i];
    assert InOrder(rows);
    LimitedIff(log, clientId, tool, limit, now);
  }

  lemma RecentOfPrefix(earlier: seq<int>, times: seq<int>, i: nat, limit: nat)
    requires i < |times|
    ensures Recent(earlier, times[..i + 1], i, limit) <==> Recent(earlier, times, i, limit)
    ensures Recent(earlier + times[..i], [times[i]], 0, limit) <==> Recent(earlier, times, i, limit)
  {
    assert earlier + times[..i] + [times[i]] == (earlier + times)[..|earlier| + i + 1];
    assert earlier + times[..i + 1] == (earlier + times)[..|earlier| + i + 1];
  }

  lemma LastAttempt(log: seq<AuditRow>, clientId: string, tool: string, limit: nat, times: seq<int>)
    requires limit > 0 && times != [] && Sorted(KeyTimes(log, clientId, tool) + times)
    ensures var init, now := times[..|times| - 1], times[|times| - 1];
            IsRateLimited(Replay(log, clientId, tool, limit, init), clientId, tool, limit, now)
            <==> Recent(KeyTimes(log, clientId, tool), times, |times| - 1, limit)
  {
    var earlier, init, now := KeyTimes(log, clientId, tool), times[..|times| - 1], times[|times| - 1];
    ReplayTimes(log, clientId, tool, limit, init);
    assert forall j | 0 <= j < |earlier + init| :: (earlier + init)[j] == (earlier + times)[j];
    LimitedByTimes(Replay(log, clientId, tool, limit, init), clientId, tool, limit, now);
    RecentOfPrefix(earlier, times, |times| - 1, limit);
  }

  /**
   What becomes of each attempt is decided by the times alone: attempt `i` is admitted if and only if the
   attempt `limit` places before it, whatever became of that one, is more than a minute old or was never made.
   */
  lemma AttemptDecidedByTimes(log: seq<AuditRow>, clientId: string, tool: string, limit: nat, times: seq<int>, i: nat)
    requires limit > 0 && Sorted(KeyTimes(log, clientId, tool) + times) && i < |times|
    ensures |Replay(log, clientId, tool, limit, times)| == |log| + |times|
    ensures Replay(log, clientId, tool, limit, times)[|log| + i].decision
            == if Recent(KeyTimes(log, clientId, tool), times, i, limit) then DeniedRateLimited else Allowed
  {
    var earlier, made := KeyTimes(log, clientId, tool), times[..i + 1];
    assert earlier + made == (earlier + times)[..|earlier| + i + 1];
    LastAttempt(log, clientId, tool, limit, made);
    RecentOfPrefix(earlier, times, i, limit);
    ReplayTimes(log, clientId, tool, limit, times);
    ReplayTimes(log, clientId, tool, limit, made[..i]);
    ReplayPrefix(log, clientId, tool, limit, times, i + 1);
  }

  ghost predicate AllRecent(earlier: seq<int>, times: seq<int>, limit: nat) {
    forall i: nat | i < |times| :: Recent(earlier, times, i, limit)
  }

  lemma AllRecentSnoc(earlier: seq<int>, times: seq<int>, limit: nat)
    requires times != []
    ensures AllRecent(earlier, times, limit) <==>
            AllRecent(earlier, times[..|times| - 1], limit) && Recent(earlier, times, |times| - 1, limit)
  {
    var init := times[..|times| - 1];
    forall i: nat | i < |init| ensures Recent(earlier, init, i, limit) <==> Recent(earlier, times, i, limit) {
      RecentOfPrefix(earlier, init, i, limit);
      RecentOfPrefix(earlier, times, i, limit);
      assert init[..i + 1] == times[..i + 1];
    }
  }

  /**
   Denials sustain denial: a client that keeps retrying is denied every single time, however long it goes on, if
   and only if each of its attempts comes within a minute of the attempt `limit` places before it.
   */
  lemma {:induction false} DenialsSustainDenial(log: seq<AuditRow>, clientId: string, tool: string, limit: nat,
                                                times: seq<int>)
    requires limit > 0 && Sorted(KeyTimes(log, clientId, tool) + times)
    ensures Replay(log, clientId, tool, limit, times) == AfterDenials(log, clientId, tool, times)
            <==> AllRecent(KeyTimes(log, clientId, tool), times, limit)
  {
    if times != [] {
      var earlier, init, now := KeyTimes(log, clientId, tool), times[..|times| - 1], times[|times| - 1];
      assert earlier + init == (earlier + times)[..|earlier| + |init|];
      DenialsSustainDenial(log, clientId, tool, limit, init);
      LastAttempt(log, clientId, tool, limit, times);
      AllRecentSnoc(earlier, times, limit);
      var replayed, denied := Replay(log, clientId, tool, limit, init), AfterDenials(log, clientId, tool, init);
      var x, y := Attempt(replayed, clientId, tool, limit, now), AuditRow(clientId, Some(tool), DeniedRateLimited, now);
      SnocEqual(replayed, x, denied, y);
    }
  }

  lemma SnocEqual<T>(a: seq<T>, x: T, b: seq<T>, y: T)
    ensures a + [x] == b + [y] <==> a == b && x == y
  {
    if a + [x] == b + [y] {
      assert a == (a + [x])[..|a + [x]| - 1] == b;
      assert x == (a + [x])[|a|];
    }
  }

  /** Denied attempts add no admission to any window. */
  lemma {:induction false} DenialsAdmitNothing(log: seq<AuditRow>, clientId: string, tool: string, times: seq<int>,
                                               from: int)
    ensures AllowedIn(AfterDenials(log, clientId, tool, times), clientId, tool, from)
            == AllowedIn(log, clientId, tool, from)
  {
    if times != [] {
      var before := AfterDenials(log, clientId, tool, times[..|times| - 1]);
      DenialsAdmitNothing(log, clientId, tool, times[..|times| - 1], from);
      assert AfterDenials(log, clientId, tool, times)[..|before|] == before;
    }
  }

  // ----- Retries at a steady pace -----

  lemma {:induction false} GapsAddUp(times: seq<int>, i: nat, n: nat, gap: int)
    requires n <= i < |times|
    requires forall j | i - n <= j < i :: times[j + 1] - times[j] <= gap
    ensures times[i] - times[i - n] <= n * gap
  {
    if n > 0 {
      GapsAddUp(times, i, n - 1, gap);
      assert times[i - n + 1] - times[i - n] <= gap;
      assert n * gap == (n - 1) * gap + gap;
    }
  }

  /**
   A client that has made `limit` attempts and never pauses for longer than a `limit`-th of a minute between two
   attempts is never admitted again, whatever became of its first attempts.
   */
  lemma SteadyRetriesAreNeverAdmitted(log: seq<AuditRow>, clientId: string, tool: string, limit: nat,
                                      times: seq<int>, gap: int, from: int)
    requires limit > 0 && Sorted(KeyTimes(log, clientId, tool) + times)
    requires limit <= |KeyTimes(log, clientId, tool)| && limit * gap <= 60_000_000
    requires var all, earlier := KeyTimes(log, clientId, tool) + times, |KeyTimes(log, clientId, tool)|;
             forall j | earlier - limit <= j < |all| - 1 :: all[j + 1] - all[j] <= gap
    ensures var replayed := Replay(log, clientId, tool, limit, times);
            && replayed == AfterDenials(log, clientId, tool, times)
            && AllowedIn(replayed, clientId, tool, from) == AllowedIn(log, clientId, tool, from)
  {
    var earlier := KeyTimes(log, clientId, tool);
    forall i: nat | i < |times| ensures Recent(earlier, times, i, limit) {
      GapsAddUp(earlier + times, |earlier| + i, limit, gap);
    }
    DenialsSustainDenial(log, clientId, tool, limit, times);
    DenialsAdmitNothing(log, clientId, tool, times, from);
  }

  // ----- The same in every run, with other requests in parallel -----

  function Stamp(a: Action): Option<int> {
    match a
    case Count(_, _, now) => Some(now)
    case Insert(_, at) => Some(at)
    case Deny(row) => Some(row.at)
    case _ => None
  }

  /** Whatever is stamped from step `n` on is stamped at `time` or later. */
  ghost predicate StampedAfter(acts: seq<Action>, n: nat, time: int) {
    forall j | n <= j < |acts| :: Stamp(acts[j]).Some? ==> time <= Stamp(acts[j]).value
  }

  ghost predicate OneClock(acts: seq<Action>) {
    forall i | 0 <= i < |acts| :: Stamp(acts[i]).Some? ==> StampedAfter(acts, i, Stamp(acts[i]).value)
  }

  ghost predicate OrderInv(s: State, acts: seq<Action>, n: nat) {
    InOrder(s.log) && forall i | 0 <= i < |s.log| :: StampedAfter(acts, n, s.log[i].at)
  }

  lemma OrderInvStep(b: Config, s: State, acts: seq<Action>, n: nat, s': State)
    requires n < |acts| && Enabled(b, s, acts[n]) && s' == Next(b, s, acts[n])
    requires OneClock(acts) && OrderInv(s, acts, n)
    ensures OrderInv(s', acts, n + 1)
  {
    forall i | 0 <= i < |s'.log| ensures StampedAfter(acts, n + 1, s'.log[i].at) {
      assert i < |s.log| ==> StampedAfter(acts, n, s.log[i].at);
      assert i == |s.log| ==> StampedAfter(acts, n, Stamp(acts[n]).value);
    }
  }

  lemma {:induction false} LogInOrder(b: Config, ss: seq<State>, acts: seq<Action>, n: nat)
    requires IsRun(b, ss, acts) && n <= |acts| && OneClock(acts)
    ensures OrderInv(ss[n], acts, n)
  {
    if n > 0 {
      LogInOrder(b, ss, acts, n - 1);
      assert StepAt(b, ss, acts, n - 1);
      OrderInvStep(b, ss[n - 1], acts, n - 1, ss[n]);
    }
  }

  lemma {:induction false} LogGrows(b: Config, ss: seq<State>, acts: seq<Action>, m: nat, n: nat)
    requires IsRun(b, ss, acts) && m <= n <= |acts|
    ensures ss[m].log <= ss[n].log
  {
    if m < n {
      LogGrows(b, ss, acts, m, n - 1);
      assert StepAt(b, ss, acts, n - 1);
    }
  }

  /** The request counted a log of at least `since` rows, and the rows after that, up to `end`, came later. */
  ghost predicate CountedSince(s: State, p: Pending, since: nat, end: nat) {
    since <= p.seen <= end <= |s.log| && forall j | p.seen <= j < end :: p.counted <= s.log[j].at
  }

  ghost predicate PendingSince(s: State, acts: seq<Action>, n: nat, since: nat, clientId: string, tool: string) {
    forall req | req in s.pending && SameKey(s.pending[req].call, clientId, tool) ::
      CountedSince(s, s.pending[req], since, |s.log|) && StampedAfter(acts, n, s.pending[req].counted)
  }

  ghost predicate AdmittedSince(s: State, since: nat, clientId: string, tool: string) {
    forall i | since <= i < |s.notes| && s.notes[i].Admission? && SameKey(s.notes[i].pending.call, clientId, tool) ::
      CountedSince(s, s.notes[i].pending, since, i + 1)
  }

  ghost predicate SinceInv(s: State, acts: seq<Action>, n: nat, since: nat, clientId: string, tool: string) {
    && since <= |s.log| == |s.notes|
    && PendingSince(s, acts, n, since, clientId, tool)
    && AdmittedSince(s, since, clientId, tool)
  }

  lemma PendingSinceStep(b: Config, s: State, acts: seq<Action>, n: nat, s': State,
                         since: nat, clientId: string, tool: string)
    requires n < |acts| && Enabled(b, s, acts[n]) && s' == Next(b, s, acts[n]) && OneClock(acts)
    requires SinceInv(s, acts, n, since, clientId, tool)
    ensures PendingSince(s', acts, n + 1, since, clientId, tool)
  {
    forall req | req in s'.pending && SameKey(s'.pending[req].call, clientId, tool)
      ensures CountedSince(s', s'.pending[req], since, |s'.log|) && StampedAfter(acts, n + 1, s'.pending[req].counted)
    {
      if req in s.pending && s'.pending[req] == s.pending[req] {
        assert CountedSince(s, s.pending[req], since, |s.log|) && StampedAfter(acts, n, s.pending[req].counted);
      } else {
        assert StampedAfter(acts, n, Stamp(acts[n]).value);
      }
    }
  }

  lemma AdmittedSinceStep(b: Config, s: State, acts: seq<Action>, n: nat, s': State,
                          since: nat, clientId: string, tool: string)
    requires n < |acts| && Enabled(b, s, acts[n]) && s' == Next(b, s, acts[n]) && OneClock(acts)
    requires SinceInv(s, acts, n, since, clientId, tool)
    ensures |s'.log| == |s'.notes| && AdmittedSince(s', since, clientId, tool)
  {
    forall i | since <= i < |s'.log| && s'.notes[i].Admission? && SameKey(s'.notes[i].pending.call, clientId, tool)
      ensures CountedSince(s', s'.notes[i].pending, since, i + 1)
    {
      if i < |s.log| {
        assert CountedSince(s, s.notes[i].pending, since, i + 1);
      } else {
        var req := acts[n].req;
        assert CountedSince(s, s.pending[req], since, |s.log|) && StampedAfter(acts, n, s.pending[req].counted);
      }
    }
  }

  /** From a state with nothing of the key pending, every request of the key counts what was logged until then. */
  lemma {:induction false} SinceInvRun(b: Config, ss: seq<State>, acts: seq<Action>, m: nat, n: nat,
                                       clientId: string, tool: string)
    requires IsRun(b, ss, acts) && m <= n <= |acts| && OneClock(acts) && PendingFor(ss[m], clientId, tool) == {}
    ensures SinceInv(ss[n], acts, n, |ss[m].log|, clientId, tool)
  {
    if m < n {
      SinceInvRun(b, ss, acts, m, n - 1, clientId, tool);
      assert StepAt(b, ss, acts, n - 1);
      PendingSinceStep(b, ss[n - 1], acts, n - 1, ss[n], |ss[m].log|, clientId, tool);
      AdmittedSinceStep(b, ss[n - 1], acts, n - 1, ss[n], |ss[m].log|, clientId, tool);
      LogGrows(b, ss, acts, m, n);
    } else {
      RunInv(b, ss, acts, n);
      forall req | req in ss[n].pending ensures !SameKey(ss[n].pending[req].call, clientId, tool) {
        assert req !in PendingFor(ss[n], clientId, tool);
      }
    }
  }

  lemma {:induction false} KeyRowsOfPrefix(log: seq<AuditRow>, n: nat, clientId: string, tool: string)
    requires n <= |log|
    ensures KeyRows(log[..n], clientId, tool) <= KeyRows(log, clientId, tool)
  {
    if n < |log| {
      var init := log[..|log| - 1];
      KeyRowsOfPrefix(init, n, clientId, tool);
      assert init[..n] == log[..n];
    } else {
      assert log[..n] == log;
    }
  }

  lemma KeyTimesOfPrefix(log: seq<AuditRow>, n: nat, clientId: string, tool: string)
    requires n <= |log|
    ensures KeyTimes(log[..n], clientId, tool) <= KeyTimes(log, clientId, tool)
  {
    KeyRowsOfPrefix(log, n, clientId, tool);
  }

  lemma {:induction false} KeyTimesSorted(log: seq<AuditRow>, clientId: string, tool: string)
    requires InOrder(log)
    ensures Sorted(KeyTimes(log, clientId, tool))
    ensures forall i | 0 <= i < |KeyTimes(log, clientId, tool)| :: KeyTimes(log, clientId, tool)[i] <= log[|log| - 1].at
  {
    if log != [] {
      var init, row := log[..|log| - 1], log[|log| - 1];
      KeyTimesSorted(init, clientId, tool);
      var before := KeyTimes(init, clientId, tool);
      assert log == init + [row];
      KeyRowsSnoc(init, row, clientId, tool);
      assert KeyTimes(log, clientId, tool) == if OfTheKey(row, clientId, tool) then before + [row.at] else before;
      assert forall i | 0 <= i < |before| :: before[i] <= row.at;
    }
  }

  lemma KeyTimesNext(log: seq<AuditRow>, n: nat, clientId: string, tool: string)
    requires n < |log|
    ensures KeyTimes(log[..n + 1], clientId, tool)
            == KeyTimes(log[..n], clientId, tool) + if OfTheKey(log[n], clientId, tool) then [log[n].at] else []
  {
    assert log[..n + 1] == log[..n] + [log[n]];
    KeyRowsSnoc(log[..n], log[n], clientId, tool);
  }

  /** The first attempt of the key after the rows up to `seen`. */
  lemma {:induction false} NextAttempt(log: seq<AuditRow>, seen: nat, i: nat, clientId: string, tool: string)
    returns (j: nat)
    requires seen <= i < |log| && OfTheKey(log[i], clientId, tool)
    ensures seen <= j <= i
    ensures var q := |KeyTimes(log[..seen], clientId, tool)|;
            q < |KeyTimes(log, clientId, tool)| && KeyTimes(log, clientId, tool)[q] == log[j].at
    decreases i - seen
  {
    KeyTimesNext(log, seen, clientId, tool);
    if OfTheKey(log[seen], clientId, tool) {
      j := seen;
      KeyTimesOfPrefix(log, seen + 1, clientId, tool);
    } else {
      j := NextAttempt(log, seen + 1, i, clientId, tool);
    }
  }

  /** The audited attempts of the key after the first `since` rows, each recent in the sense above. */
  ghost predicate KeepsTrying(log: seq<AuditRow>, since: nat, clientId: string, tool: string, limit: nat) {
    && since <= |log|
    && var earlier, all := KeyTimes(log[..since], clientId, tool), KeyTimes(log, clientId, tool);
       |earlier| <= |all| && AllRecent(earlier, all[|earlier|..], limit)
  }

  /** A request that counted after `since` was limited then, because the next attempt was still recent. */
  lemma CountWasLimited(log: seq<AuditRow>, since: nat, p: Pending, i: nat, clientId: string, tool: string, limit: nat)
    requires limit > 0 && InOrder(log) && since <= p.seen <= i < |log| && OfTheKey(log[i], clientId, tool)
    requires KeepsTrying(log, since, clientId, tool, limit)
    requires forall j | p.seen <= j <= i :: p.counted <= log[j].at
    ensures IsRateLimited(log[..p.seen], clientId, tool, limit, p.counted)
  {
    var earlier, seen, all :=
      KeyTimes(log[..since], clientId, tool), KeyTimes(log[..p.seen], clientId, tool), KeyTimes(log, clientId, tool);
    var j := NextAttempt(log, p.seen, i, clientId, tool);
    assert log[..p.seen][..since] == log[..since];
    KeyTimesOfPrefix(log[..p.seen], since, clientId, tool);
    KeyTimesOfPrefix(log, p.seen, clientId, tool);
    KeyTimesOfPrefix(log, since, clientId, tool);
    assert earlier + all[|earlier|..] == all;
    assert Recent(earlier, all[|earlier|..], |seen| - |earlier|, limit);
    KeyTimesSorted(log[..p.seen], clientId, tool);
    LimitedByTimes(log[..p.seen], clientId, tool, limit, p.counted);
    assert all[|seen|] - all[|seen| - limit] <= WINDOW && all[|seen|] >= p.counted;
  }

  ghost predicate NoneAdmitted(log: seq<AuditRow>, since: nat, clientId: string, tool: string) {
    forall i | since <= i < |log| && OfTheKey(log[i], clientId, tool) :: log[i].decision != Allowed
  }

  /**
   Over every run on one clock, whatever other requests do in parallel: once nothing of the key is pending, a client
   whose audited attempts each come within a minute of the attempt `limit` places before gets no further admission.
   */
  lemma RetriesAreNeverAdmitted(b: Config, ss: seq<State>, acts: seq<Action>, m: nat, n: nat,
                                clientId: string, tool: string)
    requires IsRun(b, ss, acts) && m <= n <= |acts| && OneClock(acts)
    requires b.limit > 0 && PendingFor(ss[m], clientId, tool) == {}
    requires KeepsTrying(ss[n].log, |ss[m].log|, clientId, tool, b.limit)
    ensures NoneAdmitted(ss[n].log, |ss[m].log|, clientId, tool)
  {
    var s, since := ss[n], |ss[m].log|;
    RunInv(b, ss, acts, n);
    LogInOrder(b, ss, acts, n);
    SinceInvRun(b, ss, acts, m, n, clientId, tool);
    forall i | since <= i < |s.log| && OfTheKey(s.log[i], clientId, tool) ensures s.log[i].decision != Allowed {
      assert RowInv(b, s, i);
      if s.notes[i].Admission? {
        var p := s.notes[i].pending;
        assert CountedSince(s, p, since, i + 1);
        CountWasLimited(s.log, since, p, i, clientId, tool, b.limit);
        assert false;
      }
    }
  }

  lemma {:induction false} NothingMoreInWindow(log: seq<AuditRow>, since: nat, n: nat, clientId: string, tool: string,
                                               from: int)
    requires since <= n <= |log| && NoneAdmitted(log, since, clientId, tool)
    ensures AllowedIn(log[..n], clientId, tool, from) == AllowedIn(log[..since], clientId, tool, from)
  {
    if since < n {
      NothingMoreInWindow(log, since, n - 1, clientId, tool, from);
      AllowedInAt(log, n - 1, clientId, tool, from);
    }
  }

  ghost predicate NoneForwarded(s: State, since: nat, clientId: string, tool: string) {
    && (forall req | req in s.admitted :: !SameKey(s.admitted[req], clientId, tool))
    && (forall i | since <= i < |s.forwarded| :: !SameKey(s.forwarded[i].1, clientId, tool))
  }

  lemma {:induction false} ForwardedOnlyIfAdmitted(b: Config, ss: seq<State>, acts: seq<Action>, m: nat, t: nat, n: nat,
                                                   clientId: string, tool: string)
    requires IsRun(b, ss, acts) && m <= t <= n <= |acts|
    requires NoneAdmitted(ss[n].log, |ss[m].log|, clientId, tool)
    requires NoneForwarded(ss[m], |ss[m].forwarded|, clientId, tool)
    ensures NoneForwarded(ss[t], |ss[m].forwarded|, clientId, tool)
  {
    if m < t {
      ForwardedOnlyIfAdmitted(b, ss, acts, m, t - 1, n, clientId, tool);
      assert StepAt(b, ss, acts, t - 1);
      LogGrows(b, ss, acts, m, t - 1);
      LogGrows(b, ss, acts, t, n);
      assert acts[t - 1].Insert? ==> ss[n].log[|ss[t - 1].log|] == ss[t].log[|ss[t - 1].log|];
    }
  }

  /** So its admissions in every window stay as they were, and no call of its is ever forwarded again. */
  lemma RetriesAreNeverForwarded(b: Config, ss: seq<State>, acts: seq<Action>, m: nat, n: nat,
                                 clientId: string, tool: string, from: int)
    requires IsRun(b, ss, acts) && m <= n <= |acts| && OneClock(acts)
    requires b.limit > 0 && PendingFor(ss[m], clientId, tool) == {}
    requires forall req | req in ss[m].admitted :: !SameKey(ss[m].admitted[req], clientId, tool)
    requires KeepsTrying(ss[n].log, |ss[m].log|, clientId, tool, b.limit)
    ensures AllowedIn(ss[n].log, clientId, tool, from) == AllowedIn(ss[m].log, clientId, tool, from)
    ensures forall i | |ss[m].forwarded| <= i < |ss[n].forwarded| :: !SameKey(ss[n].forwarded[i].1, clientId, tool)
  {
    RetriesAreNeverAdmitted(b, ss, acts, m, n, clientId, tool);
    ForwardedOnlyIfAdmitted(b, ss, acts, m, n, n, clientId, tool);
    LogGrows(b, ss, acts, m, n);
    NothingMoreInWindow(ss[n].log, |ss[m].log|, |ss[n].log|, clientId, tool, from);
    assert ss[n].log[..|ss[n].log|] == ss[n].log && ss[n].log[..|ss[m].log|] == ss[m].log;
  }
}

/**
 The security boundary in front of the MCP tools (src/mcp_server/security/): an append-only audit log
 that doubles as a sliding-window rate limiter, with fail-closed writes.

 Requests interleave freely: one action is one database statement, or the call that is forwarded. Times
 are whole microseconds of one clock.
 */
module Boundary {
  import opened Options
  import opened Counting

  datatype Decision = Allowed | DeniedUnauthenticated | DeniedUnauthorized | DeniedValidation | DeniedRateLimited

  datatype AuditRow = AuditRow(clientId: string, tool: Option<string>, decision: Decision, at: int)

  datatype ClientRecord = ClientRecord(clientId: string, tokenHash: string, allowedTools: set<string>)

  /** The registry, the limit, and the argument schemas (a tool without one is not validated). */
  datatype Config = Config(
    registry: seq<ClientRecord>, hash: string -> string, limit: int,
    schemas: set<string>, valid: (string, string) -> bool)

  const WINDOW: int := 60_000_000

  // ----- The rate limiter -----

  predicate Counts(row: AuditRow, clientId: string, tool: string, now: int) {
    row.clientId == clientId && row.tool == Some(tool) && row.at >= now - WINDOW
  }

  function CountRows(log: seq<AuditRow>, clientId: string, tool: string, now: int): nat {
    if log == [] then 0
    else CountRows(log[..|log| - 1], clientId, tool, now)
         + (if Counts(log[|log| - 1], clientId, tool, now) then 1 else 0)
  }

  /** `is_rate_limited`: every row counts, whatever its decision. */
  predicate IsRateLimited(log: seq<AuditRow>, clientId: string, tool: string, limit: int, now: int) {
    CountRows(log, clientId, tool, now) >= limit
  }

  // ----- Requests in parallel -----

  datatype Call = Call(token: string, client: ClientRecord, tool: string, args: string)

  /** A request between its count and its audit row; `seen` is how much of the log it counted. */
  datatype Pending = Pending(call: Call, counted: int, seen: nat)

  /** An ALLOWED row's request, and the requests that were pending beside it when it was inserted. */
  datatype Note = NoNote | Admission(req: nat, pending: Pending, peers: set<nat>)

  datatype State = State(
    log: seq<AuditRow>,
    pending: map<nat, Pending>,
    admitted: map<nat, Call>,       // audited, not forwarded yet
    forwarded: seq<(nat, Call)>,
    used: set<nat>,                 // request numbers given out
    notes: seq<Note>)               // history: one note for each audit row

  datatype Action =
    | Count(req: nat, call: Call, now: int)
    | Insert(req: nat, at: int)     // the ALLOWED row is committed
    | Forward(req: nat)
    | Abandon(req: nat)             // rejected, failed, or cut off after its count
    | CutOff(req: nat)              // failed or cut off after its audit row
    | Deny(row: AuditRow)           // best-effort audit of a denial

  predicate Authorized(b: Config, call: Call) {
    && call.client in b.registry
    && b.hash(call.token) == call.client.tokenHash
    && call.tool in call.client.allowedTools
  }

  predicate Enabled(b: Config, s: State, a: Action) {
    match a
    case Count(req, call, now) =>
      && req !in s.used && Authorized(b, call)
      && !IsRateLimited(s.log, call.client.clientId, call.tool, b.limit, now)
    case Insert(req, at) =>
      && req in s.pending && s.pending[req].counted <= at
      && (s.pending[req].call.tool in b.schemas ==> b.valid(s.pending[req].call.tool, s.pending[req].call.args))
    case Forward(req) => req in s.admitted
    case Abandon(req) => req in s.pending
    case CutOff(req) => req in s.admitted
    case Deny(row) => row.decision != Allowed
  }

  predicate SameKey(call: Call, clientId: string, tool: string) {
    call.client.clientId == clientId && call.tool == tool
  }

  function PendingFor(s: State, clientId: string, tool: string): set<nat> {
    set req | req in s.pending && SameKey(s.pending[req].call, clientId, tool)
  }

  function Next(b: Config, s: State, a: Action): State
    requires Enabled(b, s, a)
  {
    match a
    case Count(req, call, now) =>
      s.(used := s.used + {req}, pending := s.pending[req := Pending(call, now, |s.log|)])
    case Insert(req, at) =>
      var p := s.pending[req];
      var (clientId, tool) := (p.call.client.clientId, p.call.tool);
      s.(log := s.log + [AuditRow(clientId, Some(tool), Allowed, at)],
         notes := s.notes + [Admission(req, p, PendingFor(s, clientId, tool))],
         pending := s.pending - {req}, admitted := s.admitted[req := p.call])
    case Forward(req) =>
      s.(forwarded := s.forwarded + [(req, s.admitted[req])], admitted := s.admitted - {req})
    case Abandon(req) => s.(pending := s.pending - {req})
    case CutOff(req) => s.(admitted := s.admitted - {req})
    case Deny(row) => s.(log := s.log + [row], notes := s.notes + [NoNote])
  }

  function Initial(): State { State([], map[], map[], [], {}, []) }

  ghost predicate IsRun(b: Config, ss: seq<State>, acts: seq<Action>) {
    && |ss| == |acts| + 1 && ss[0] == Initial()
    && forall i: nat | i < |acts| :: StepAt(b, ss, acts, i)
  }

  ghost predicate StepAt(b: Config, ss: seq<State>, acts: seq<Action>, i: nat) {
    i < |acts| && i + 1 < |ss| && Enabled(b, ss[i], acts[i]) && ss[i + 1] == Next(b, ss[i], acts[i])
  }

  lemma RunExtend(b: Config, ss: seq<State>, acts: seq<Action>, a: Action)
    requires IsRun(b, ss, acts) && Enabled(b, ss[|acts|], a)
    ensures IsRun(b, ss + [Next(b, ss[|acts|], a)], acts + [a])
  {
    var ss', acts' := ss + [Next(b, ss[|acts|], a)], acts + [a];
    forall i: nat | i < |acts'| ensures StepAt(b, ss', acts', i) {
      if i < |acts| {
        assert StepAt(b, ss, acts, i);
        assert ss'[i] == ss[i] && ss'[i + 1] == ss[i + 1] && acts'[i] == acts[i];
      }
    }
  }

  // ----- What the log records about each admitted request -----

  ghost predicate PendingInv(b: Config, s: State, p: Pending) {
    && p.seen <= |s.log| && Authorized(b, p.call)
    && !IsRateLimited(s.log[..p.seen], p.call.client.clientId, p.call.tool, b.limit, p.counted)
  }

  ghost predicate RowInv(b: Config, s: State, i: nat)
    requires i < |s.log| == |s.notes|
  {
    && (s.log[i].decision == Allowed <==> s.notes[i].Admission?)
    && (s.notes[i].Admission? ==>
          var n := s.notes[i]; var p := n.pending;
          && PendingInv(b, s, p) && p.seen <= i && p.counted <= s.log[i].at
          && s.log[i].clientId == p.call.client.clientId && s.log[i].tool == Some(p.call.tool)
          && (p.call.tool in b.schemas ==> b.valid(p.call.tool, p.call.args))
          && n.req in n.peers && n.req in s.used && n.req !in s.pending)
  }

  /** Row `i` was inserted while request `req`, which had already counted, was pending beside it. */
  ghost predicate Beside(s: State, i: nat, req: nat, p: Pending)
    requires i < |s.notes|
  {
    s.notes[i].Admission? && p.seen <= i
    && SameKey(p.call, s.notes[i].pending.call.client.clientId, s.notes[i].pending.call.tool)
    ==> req in s.notes[i].peers
  }

  ghost predicate LogInv(b: Config, s: State) {
    && |s.log| == |s.notes|
    && (forall i | 0 <= i < |s.log| :: RowInv(b, s, i))
    && (forall req | req in s.pending :: req in s.used && PendingInv(b, s, s.pending[req]))
  }

  ghost predicate PeersInv(s: State) {
    && (forall i, req | 0 <= i < |s.notes| && req in s.pending :: Beside(s, i, req, s.pending[req]))
    && (forall i, j | 0 <= i < j < |s.notes| && s.notes[j].Admission? ::
          s.notes[i].Admission? ==>
            s.notes[i].req != s.notes[j].req && Beside(s, i, s.notes[j].req, s.notes[j].pending))
  }

  lemma RowInvStep(b: Config, s: State, a: Action, i: nat, s': State)
    requires LogInv(b, s) && Enabled(b, s, a) && s' == Next(b, s, a) && i < |s'.log| == |s'.notes|
    ensures RowInv(b, s', i)
  {
    assert s.log <= s'.log;
    if i < |s.log| {
      assert RowInv(b, s, i);
      if s.notes[i].Admission? {
        assert s'.log[..s.notes[i].pending.seen] == s.log[..s.notes[i].pending.seen];
      }
    } else if a.Insert? {
      var p := s.pending[a.req];
      assert PendingInv(b, s, p);
      assert s'.log[..p.seen] == s.log[..p.seen];
    }
  }

  lemma LogInvStep(b: Config, s: State, a: Action, s': State)
    requires LogInv(b, s) && Enabled(b, s, a) && s' == Next(b, s, a)
    ensures LogInv(b, s')
  {
    forall i | 0 <= i < |s'.log| ensures RowInv(b, s', i) { RowInvStep(b, s, a, i, s'); }
    forall req | req in s'.pending ensures req in s'.used && PendingInv(b, s', s'.pending[req]) {
      if req in s.pending {
        var p := s.pending[req];
        assert PendingInv(b, s, p) && s'.pending[req] == p;
        assert s'.log[..p.seen] == s.log[..p.seen];
      } else {
        assert s'.log[..|s.log|] == s.log;
      }
    }
  }

  lemma PeersInvStep(b: Config, s: State, a: Action, s': State)
    requires LogInv(b, s) && PeersInv(s) && Enabled(b, s, a) && s' == Next(b, s, a)
    ensures PeersInv(s')
  {
    forall i, req | 0 <= i < |s'.notes| && req in s'.pending ensures Beside(s', i, req, s'.pending[req]) {
      if i < |s.notes| && req in s.pending {
        assert Beside(s, i, req, s.pending[req]);
      }
    }
    forall i, j | 0 <= i < j < |s'.notes| && s'.notes[j].Admission? && s'.notes[i].Admission?
      ensures s'.notes[i].req != s'.notes[j].req && Beside(s', i, s'.notes[j].req, s'.notes[j].pending)
    {
      assert RowInv(b, s, i);
      if j < |s.notes| {
        assert Beside(s, i, s.notes[j].req, s.notes[j].pending);
      } else {
        assert Beside(s, i, a.req, s.pending[a.req]);
      }
    }
  }

  lemma {:induction false} RunInv(b: Config, ss: seq<State>, acts: seq<Action>, n: nat)
    requires IsRun(b, ss, acts) && n <= |acts|
    ensures LogInv(b, ss[n]) && PeersInv(ss[n])
  {
    if n > 0 {
      RunInv(b, ss, acts, n - 1);
      assert StepAt(b, ss, acts, n - 1);
      LogInvStep(b, ss[n - 1], acts[n - 1], ss[n]);
      PeersInvStep(b, ss[n - 1], acts[n - 1], ss[n]);
    }
  }

  /** No more than `k` requests of the key are ever between their count and their audit row. */
  ghost predicate AtMostPending(ss: seq<State>, clientId: string, tool: string, k: nat) {
    forall i | 0 <= i < |ss| :: |PendingFor(ss[i], clientId, tool)| <= k
  }

  ghost predicate FewPeers(s: State, clientId: string, tool: string, k: nat) {
    forall i | 0 <= i < |s.notes| && s.notes[i].Admission? && SameKey(s.notes[i].pending.call, clientId, tool) ::
      |s.notes[i].peers| <= k
  }

  lemma FewPeersStep(b: Config, s: State, a: Action, clientId: string, tool: string, k: nat, s': State)
    requires Enabled(b, s, a) && s' == Next(b, s, a)
    requires FewPeers(s, clientId, tool, k) && |PendingFor(s, clientId, tool)| <= k
    ensures FewPeers(s', clientId, tool, k)
  {
  }

  lemma {:induction false} PeersBounded(b: Config, ss: seq<State>, acts: seq<Action>, n: nat,
                                        clientId: string, tool: string, k: nat)
    requires IsRun(b, ss, acts) && n <= |acts| && AtMostPending(ss, clientId, tool, k)
    ensures FewPeers(ss[n], clientId, tool, k)
  {
    if n > 0 {
      PeersBounded(b, ss, acts, n - 1, clientId, tool, k);
      assert StepAt(b, ss, acts, n - 1);
      FewPeersStep(b, ss[n - 1], acts[n - 1], clientId, tool, k, ss[n]);
    }
  }

  // ----- The window bound -----

  predicate InWindow(row: AuditRow, clientId: string, tool: string, from: int) {
    row.clientId == clientId && row.tool == Some(tool) && row.decision == Allowed
    && from <= row.at <= from + WINDOW
  }

  /** The calls admitted in the closed window of one minute that starts at `from`. */
  function AllowedIn(log: seq<AuditRow>, clientId: string, tool: string, from: int): nat {
    if log == [] then 0
    else AllowedIn(log[..|log| - 1], clientId, tool, from)
         + (if InWindow(log[|log| - 1], clientId, tool, from) then 1 else 0)
  }

  lemma AllowedInAt(log: seq<AuditRow>, n: nat, clientId: string, tool: string, from: int)
    requires n < |log|
    ensures AllowedIn(log[..n + 1], clientId, tool, from)
            == AllowedIn(log[..n], clientId, tool, from) + (if InWindow(log[n], clientId, tool, from) then 1 else 0)
  {
    assert log[..n + 1][..n] == log[..n];
  }

  /** The row that makes the window hold `m` admissions. */
  lemma {:induction false} FindNth(log: seq<AuditRow>, n: nat, clientId: string, tool: string, from: int, m: nat)
    returns (p: nat)
    requires n <= |log| && m < AllowedIn(log[..n], clientId, tool, from)
    ensures p < n && InWindow(log[p], clientId, tool, from) && AllowedIn(log[..p], clientId, tool, from) == m
    decreases n
  {
    AllowedInAt(log, n - 1, clientId, tool, from);
    if m < AllowedIn(log[..n - 1], clientId, tool, from) {
      p := FindNth(log, n - 1, clientId, tool, from, m);
    } else {
      p := n - 1;
    }
  }

  /** A request that counts within a minute of the window's end counts all of its admissions so far. */
  lemma {:induction false} AdmissionsAreCounted(log: seq<AuditRow>, clientId: string, tool: string, from: int, now: int)
    requires now <= from + WINDOW
    ensures AllowedIn(log, clientId, tool, from) <= CountRows(log, clientId, tool, now)
  {
    if log != [] {
      AdmissionsAreCounted(log[..|log| - 1], clientId, tool, from, now);
    }
  }

  lemma {:induction false} AllowedInMonotone(log: seq<AuditRow>, m: nat, n: nat, clientId: string, tool: string,
                                             from: int)
    requires m <= n <= |log|
    ensures AllowedIn(log[..m], clientId, tool, from) <= AllowedIn(log[..n], clientId, tool, from)
  {
    if m < n {
      AllowedInMonotone(log, m, n - 1, clientId, tool, from);
      AllowedInAt(log, n - 1, clientId, tool, from);
    }
  }

  /** One of the rows from `p` up to `n` admits request `req` in the window. */
  ghost predicate AdmittedBetween(s: State, p: nat, n: nat, clientId: string, tool: string, from: int, req: nat)
    requires n <= |s.log| && n <= |s.notes|
  {
    exists j :: p <= j < n && InWindow(s.log[j], clientId, tool, from)
                && s.notes[j].Admission? && s.notes[j].req == req
  }

  lemma RequestAdmittedOnce(b: Config, s: State, p: nat, n: nat,
                            clientId: string, tool: string, from: int, reqs: set<nat>)
    requires LogInv(b, s) && PeersInv(s) && n < |s.log| && InWindow(s.log[n], clientId, tool, from)
    requires forall r | r in reqs :: AdmittedBetween(s, p, n, clientId, tool, from, r)
    ensures s.notes[n].Admission? && s.notes[n].req !in reqs
  {
    assert RowInv(b, s, n);
  }

  /** The requests admitted in the window by the rows from `p` up to `n`: one for each row. */
  lemma {:induction false} AdmittedRequests(b: Config, s: State, p: nat, n: nat,
                                            clientId: string, tool: string, from: int)
    returns (reqs: set<nat>)
    requires LogInv(b, s) && PeersInv(s) && p <= n <= |s.log|
    ensures |reqs| == AllowedIn(s.log[..n], clientId, tool, from) - AllowedIn(s.log[..p], clientId, tool, from)
    ensures forall r | r in reqs :: AdmittedBetween(s, p, n, clientId, tool, from, r)
    decreases n
  {
    if p == n {
      reqs := {};
    } else {
      reqs := AdmittedRequests(b, s, p, n - 1, clientId, tool, from);
      AllowedInAt(s.log, n - 1, clientId, tool, from);
      if InWindow(s.log[n - 1], clientId, tool, from) {
        RequestAdmittedOnce(b, s, p, n - 1, clientId, tool, from, reqs);
        reqs := reqs + {s.notes[n - 1].req};
        assert AdmittedBetween(s, p, n, clientId, tool, from, s.notes[n - 1].req);
      }
    }
  }

  /** Everything the window admits after it is full was already pending when it filled up. */
  lemma LateAdmissionWasPending(b: Config, s: State, p: nat, j: nat, clientId: string, tool: string, from: int)
    requires LogInv(b, s) && PeersInv(s) && p <= j < |s.log|
    requires InWindow(s.log[p], clientId, tool, from) && InWindow(s.log[j], clientId, tool, from)
    requires AllowedIn(s.log[..p], clientId, tool, from) == b.limit - 1
    ensures s.notes[p].Admission? && s.notes[j].Admission? && s.notes[j].req in s.notes[p].peers
  {
    assert RowInv(b, s, p) && RowInv(b, s, j);
    if p < j {
      var q := s.notes[j].pending;
      if q.seen > p {
        AllowedInAt(s.log, p, clientId, tool, from);
        AllowedInMonotone(s.log, p + 1, q.seen, clientId, tool, from);
        AdmissionsAreCounted(s.log[..q.seen], clientId, tool, from, q.counted);
        assert false;
      }
      assert Beside(s, p, s.notes[j].req, q);
    }
  }

  /**
   The window bound: for one client and tool, any closed minute admits at most `limit + k - 1` calls when
   at most `k` requests are ever between their count and their audit row, so at most `limit` when requests
   are handled one at a time.
   */
  lemma WindowBound(b: Config, ss: seq<State>, acts: seq<Action>, clientId: string, tool: string, k: nat, from: int)
    requires IsRun(b, ss, acts) && AtMostPending(ss, clientId, tool, k) && k > 0
    ensures AllowedIn(ss[|acts|].log, clientId, tool, from) <= if b.limit > 0 then b.limit + k - 1 else 0
  {
    var s := ss[|acts|];
    RunInv(b, ss, acts, |acts|);
    PeersBounded(b, ss, acts, |acts|, clientId, tool, k);
    var n := |s.log|;
    assert s.log[..n] == s.log;
    if b.limit > 0 && AllowedIn(s.log, clientId, tool, from) >= b.limit {
      var p := FindNth(s.log, n, clientId, tool, from, b.limit - 1);
      WindowBoundFrom(b, s, p, clientId, tool, k, from);
    } else if b.limit <= 0 {
      NothingAdmitted(b, s, n, clientId, tool, from);
    }
  }

  lemma WindowBoundFrom(b: Config, s: State, p: nat, clientId: string, tool: string, k: nat, from: int)
    requires LogInv(b, s) && PeersInv(s) && FewPeers(s, clientId, tool, k)
    requires p < |s.log| && InWindow(s.log[p], clientId, tool, from)
    requires AllowedIn(s.log[..p], clientId, tool, from) == b.limit - 1
    ensures AllowedIn(s.log, clientId, tool, from) <= b.limit + k - 1
  {
    var reqs := AdmittedRequests(b, s, p, |s.log|, clientId, tool, from);
    assert s.log[..|s.log|] == s.log;
    LateAdmissionWasPending(b, s, p, p, clientId, tool, from);
    forall r | r in reqs ensures r in s.notes[p].peers {
      var j :| p <= j < |s.log| && InWindow(s.log[j], clientId, tool, from)
               && s.notes[j].Admission? && s.notes[j].req == r;
      LateAdmissionWasPending(b, s, p, j, clientId, tool, from);
    }
    assert RowInv(b, s, p);
    SubsetCardinality(reqs, s.notes[p].peers);
  }

  lemma {:induction false} SubsetCardinality(a: set<nat>, c: set<nat>)
    requires a <= c
    ensures |a| <= |c|
  {
    if a != {} {
      var x :| x in a;
      SubsetCardinality(a - {x}, c - {x});
    }
  }

  /** A limit of zero admits nothing. */
  lemma {:induction false} NothingAdmitted(b: Config, s: State, n: nat, clientId: string, tool: string, from: int)
    requires LogInv(b, s) && b.limit <= 0 && n <= |s.log|
    ensures AllowedIn(s.log[..n], clientId, tool, from) == 0
  {
    if n > 0 {
      NothingAdmitted(b, s, n - 1, clientId, tool, from);
      AllowedInAt(s.log, n - 1, clientId, tool, from);
      assert RowInv(b, s, n - 1);
    }
  }

  // ----- The limiter in numbers -----

  lemma {:induction false} CountRowsPositions(log: seq<AuditRow>, clientId: string, tool: string, now: int)
    ensures CountRows(log, clientId, tool, now)
            == |Positions(log, (row: AuditRow) => Counts(row, clientId, tool, now))|
  {
    var p := (row: AuditRow) => Counts(row, clientId, tool, now);
    if log == [] {
      NoPositions(p);
    } else {
      CountRowsPositions(log[..|log| - 1], clientId, tool, now);
      PositionsSnoc(log, p);
    }
  }

  /** The count is the number of the client's rows for the tool, of any decision, in the last minute. */
  lemma CountRowsIs(log: seq<AuditRow>, clientId: string, tool: string, now: int)
    ensures CountRows(log, clientId, tool, now)
            == |set i: nat | i < |log| && log[i].clientId == clientId && log[i].tool == Some(tool)
                             && log[i].at >= now - 60_000_000|
  {
    CountRowsPositions(log, clientId, tool, now);
    assert (set i: nat | i < |log| && log[i].clientId == clientId && log[i].tool == Some(tool)
                         && log[i].at >= now - 60_000_000)
        == Positions(log, (row: AuditRow) => Counts(row, clientId, tool, now));
  }

  /** Limited exactly when that many rows or more are there. */
  lemma LimitedByCount(log: seq<AuditRow>, clientId: string, tool: string, limit: int, now: int)
    ensures IsRateLimited(log, clientId, tool, limit, now) <==>
            |set i: nat | i < |log| && log[i].clientId == clientId && log[i].tool == Some(tool)
                          && log[i].at >= now - 60_000_000| >= limit
  {
    CountRowsIs(log, clientId, tool, now);
  }

  lemma {:induction false} AllowedInPositions(log: seq<AuditRow>, clientId: string, tool: string, from: int)
    ensures AllowedIn(log, clientId, tool, from)
            == |Positions(log, (row: AuditRow) => InWindow(row, clientId, tool, from))|
  {
    var p := (row: AuditRow) => InWindow(row, clientId, tool, from);
    if log == [] {
      NoPositions(p);
    } else {
      AllowedInPositions(log[..|log| - 1], clientId, tool, from);
      PositionsSnoc(log, p);
    }
  }

  lemma AllowedInIs(log: seq<AuditRow>, clientId: string, tool: string, from: int)
    ensures AllowedIn(log, clientId, tool, from)
            == |set i: nat | i < |log| && log[i].clientId == clientId && log[i].tool == Some(tool)
                             && log[i].decision == Allowed && from <= log[i].at <= from + 60_000_000|
  {
    AllowedInPositions(log, clientId, tool, from);
    assert (set i: nat | i < |log| && log[i].clientId == clientId && log[i].tool == Some(tool)
                         && log[i].decision == Allowed && from <= log[i].at <= from + 60_000_000)
        == Positions(log, (row: AuditRow) => InWindow(row, clientId, tool, from));
  }

  /**
   The window bound on the bare rows: the ALLOWED rows of a client and tool that are stamped within any 60,000,000
   microseconds, both ends included.
   */
  lemma RowsInAMinute(b: Config, ss: seq<State>, acts: seq<Action>, clientId: string, tool: string, k: nat, from: int)
    requires IsRun(b, ss, acts) && k > 0
    requires forall i | 0 <= i < |ss| ::
               |set req | req in ss[i].pending && ss[i].pending[req].call.client.clientId == clientId
                          && ss[i].pending[req].call.tool == tool| <= k
    ensures var log := ss[|acts|].log;
            |set i: nat | i < |log| && log[i].clientId == clientId && log[i].tool == Some(tool)
                          && log[i].decision == Allowed && from <= log[i].at <= from + 60_000_000|
            <= if b.limit > 0 then b.limit + k - 1 else 0
  {
    forall i | 0 <= i < |ss| ensures |PendingFor(ss[i], clientId, tool)| <= k {
      assert PendingFor(ss[i], clientId, tool)
          == set req | req in ss[i].pending && ss[i].pending[req].call.client.clientId == clientId
                       && ss[i].pending[req].call.tool == tool;
    }
    WindowBound(b, ss, acts, clientId, tool, k, from);
    AllowedInIs(ss[|acts|].log, clientId, tool, from);
  }

  /** Whatever the others do, a request may fail or be cut off at any point, and a denial be audited at any time. */
  lemma AnythingCanInterfere(b: Config, s: State, req: nat, call: Call, now: int, row: AuditRow)
    ensures req in s.pending ==> Enabled(b, s, Abandon(req))
    ensures req in s.admitted ==> Enabled(b, s, CutOff(req)) && Enabled(b, s, Forward(req))
    ensures row.decision != Allowed ==> Enabled(b, s, Deny(row))
    ensures req in s.pending && s.pending[req].counted <= now
            && (s.pending[req].call.tool in b.schemas ==>
                  b.valid(s.pending[req].call.tool, s.pending[req].call.args))
            ==> Enabled(b, s, Insert(req, now))
    ensures req !in s.used && call.client in b.registry && b.hash(call.token) == call.client.tokenHash
            && call.tool in call.client.allowedTools
            && !IsRateLimited(s.log, call.client.clientId, call.tool, b.limit, now)
            ==> Enabled(b, s, Count(req, call, now))
  {
  }

  // ----- Forwarding -----

  /** Row `j` is the audit of this very call: authorized, valid, and under the limit when it was counted. */
  ghost predicate Audits(b: Config, s: State, j: nat, req: nat, call: Call) {
    && j < |s.log| && j < |s.notes|
    && s.notes[j].Admission? && s.notes[j].req == req && s.notes[j].pending.call == call
    && s.log[j] == AuditRow(call.client.clientId, Some(call.tool), Allowed, s.log[j].at)
    && call.client in b.registry && b.hash(call.token) == call.client.tokenHash
    && call.tool in call.client.allowedTools
    && (call.tool in b.schemas ==> b.valid(call.tool, call.args))
    && var p := s.notes[j].pending;
       p.seen <= j && p.counted <= s.log[j].at
       && !IsRateLimited(s.log[..p.seen], call.client.clientId, call.tool, b.limit, p.counted)
  }

  ghost predicate IsAudited(b: Config, s: State, req: nat, call: Call) {
    exists j: nat :: Audits(b, s, j, req, call)
  }

  ghost predicate AdmittedInv(b: Config, s: State) {
    forall req | req in s.admitted :: req in s.used && req !in s.pending && IsAudited(b, s, req, s.admitted[req])
  }

  ghost predicate ForwardedInv(b: Config, s: State) {
    && (forall i | 0 <= i < |s.forwarded| ::
          && s.forwarded[i].0 in s.used && s.forwarded[i].0 !in s.pending && s.forwarded[i].0 !in s.admitted
          && IsAudited(b, s, s.forwarded[i].0, s.forwarded[i].1))
    && (forall i, j | 0 <= i < j < |s.forwarded| :: s.forwarded[i].0 != s.forwarded[j].0)
  }

  ghost predicate ForwardInv(b: Config, s: State) {
    AdmittedInv(b, s) && ForwardedInv(b, s)
  }

  lemma AuditedStays(b: Config, s: State, s': State, req: nat, call: Call)
    requires IsAudited(b, s, req, call) && s.log <= s'.log && s.notes <= s'.notes
    ensures IsAudited(b, s', req, call)
  {
    var j: nat :| Audits(b, s, j, req, call);
    var seen := s.notes[j].pending.seen;
    assert s'.log[..seen] == s.log[..seen];
    assert Audits(b, s', j, req, call);
  }

  lemma InsertAudits(b: Config, s: State, req: nat, at: int, s': State)
    requires LogInv(b, s) && Enabled(b, s, Insert(req, at)) && s' == Next(b, s, Insert(req, at))
    ensures IsAudited(b, s', req, s.pending[req].call)
  {
    var p := s.pending[req];
    assert PendingInv(b, s, p);
    assert s'.log[..p.seen] == s.log[..p.seen];
    assert Audits(b, s', |s.log|, req, p.call);
  }

  lemma AdmittedInvStep(b: Config, s: State, a: Action, s': State)
    requires LogInv(b, s) && AdmittedInv(b, s) && Enabled(b, s, a) && s' == Next(b, s, a)
    ensures AdmittedInv(b, s')
  {
    forall req | req in s'.admitted ensures IsAudited(b, s', req, s'.admitted[req]) {
      if req in s.admitted && s.admitted[req] == s'.admitted[req] {
        AuditedStays(b, s, s', req, s.admitted[req]);
      } else {
        InsertAudits(b, s, req, a.at, s');
      }
    }
  }

  lemma ForwardedStayAudited(b: Config, s: State, a: Action, s': State)
    requires LogInv(b, s) && ForwardInv(b, s) && Enabled(b, s, a) && s' == Next(b, s, a)
    ensures forall i | 0 <= i < |s'.forwarded| :: IsAudited(b, s', s'.forwarded[i].0, s'.forwarded[i].1)
  {
    forall i | 0 <= i < |s'.forwarded| ensures IsAudited(b, s', s'.forwarded[i].0, s'.forwarded[i].1) {
      if i < |s.forwarded| {
        AuditedStays(b, s, s', s.forwarded[i].0, s.forwarded[i].1);
      } else {
        AuditedStays(b, s, s', a.req, s.admitted[a.req]);
      }
    }
  }

  lemma ForwardedInvStep(b: Config, s: State, a: Action, s': State)
    requires LogInv(b, s) && ForwardInv(b, s) && Enabled(b, s, a) && s' == Next(b, s, a)
    ensures ForwardedInv(b, s')
  {
    ForwardedStayAudited(b, s, a, s');
  }

  lemma {:induction false} ForwardInvRun(b: Config, ss: seq<State>, acts: seq<Action>, n: nat)
    requires IsRun(b, ss, acts) && n <= |acts|
    ensures ForwardInv(b, ss[n])
  {
    if n > 0 {
      ForwardInvRun(b, ss, acts, n - 1);
      RunInv(b, ss, acts, n - 1);
      assert StepAt(b, ss, acts, n - 1);
      AdmittedInvStep(b, ss[n - 1], acts[n - 1], ss[n]);
      ForwardedInvStep(b, ss[n - 1], acts[n - 1], ss[n]);
    }
  }

  /**
   Fail closed: for every interleaving and every pattern of failures, each forwarded call has its own
   ALLOWED row, already in the log, and was authenticated, allowlisted, under the limit when it was
   counted, and valid where its tool has a schema.
   */
  lemma EveryForwardedCallIsAudited(b: Config, ss: seq<State>, acts: seq<Action>, n: nat)
    requires IsRun(b, ss, acts) && n <= |acts|
    ensures forall i | 0 <= i < |ss[n].forwarded| :: IsAudited(b, ss[n], ss[n].forwarded[i].0, ss[n].forwarded[i].1)
    ensures forall h, i, x: nat, y: nat |
              && 0 <= h < i < |ss[n].forwarded|
              && Audits(b, ss[n], x, ss[n].forwarded[h].0, ss[n].forwarded[h].1)
              && Audits(b, ss[n], y, ss[n].forwarded[i].0, ss[n].forwarded[i].1) :: x != y
  {
    ForwardInvRun(b, ss, acts, n);
  }

  // ----- One client and tool, attempt after attempt -----

  predicate OfTheKey(row: AuditRow, clientId: string, tool: string) {
    row.clientId == clientId && row.tool == Some(tool)
  }

  function KeyRows(log: seq<AuditRow>, clientId: string, tool: string): seq<AuditRow> {
    if log == [] then []
    else
      var row := log[|log| - 1];
      KeyRows(log[..|log| - 1], clientId, tool)
      + (if OfTheKey(row, clientId, tool) then [row] else [])
  }

  lemma KeyRowsSnoc(log: seq<AuditRow>, row: AuditRow, clientId: string, tool: string)
    ensures KeyRows([], clientId, tool) == []
    ensures KeyRows(log + [row], clientId, tool)
            == KeyRows(log, clientId, tool) + (if row.clientId == clientId && row.tool == Some(tool) then [row] else [])
  {
    assert (log + [row])[..|log|] == log;
  }

  lemma {:induction false} KeyRowsAreOfTheKey(log: seq<AuditRow>, clientId: string, tool: string)
    ensures forall row | row in KeyRows(log, clientId, tool) :: OfTheKey(row, clientId, tool)
  {
    if log != [] {
      KeyRowsAreOfTheKey(log[..|log| - 1], clientId, tool);
    }
  }

  lemma CountAfterAppend(rows: seq<AuditRow>, row: AuditRow, clientId: string, tool: string, now: int)
    ensures CountRows(rows + [row], clientId, tool, now)
            == CountRows(rows, clientId, tool, now) + (if Counts(row, clientId, tool, now) then 1 else 0)
  {
    assert (rows + [row])[..|rows|] == rows;
  }

  lemma {:induction false} OnlyKeyRowsCount(log: seq<AuditRow>, clientId: string, tool: string, now: int)
    ensures CountRows(log, clientId, tool, now) == CountRows(KeyRows(log, clientId, tool), clientId, tool, now)
  {
    if log != [] {
      var init, row := log[..|log| - 1], log[|log| - 1];
      OnlyKeyRowsCount(init, clientId, tool, now);
      var before := KeyRows(init, clientId, tool);
      if OfTheKey(row, clientId, tool) {
        assert KeyRows(log, clientId, tool) == before + [row];
        CountAfterAppend(before, row, clientId, tool, now);
      } else {
        assert KeyRows(log, clientId, tool) == before;
      }
    }
  }

  ghost predicate InOrder(rows: seq<AuditRow>) {
    forall i, j | 0 <= i < j < |rows| :: rows[i].at <= rows[j].at
  }

  lemma {:induction false} RecentRowsCount(rows: seq<AuditRow>, clientId: string, tool: string, now: int, n: nat)
    requires InOrder(rows) && 0 < n
    requires forall row | row in rows :: OfTheKey(row, clientId, tool)
    ensures CountRows(rows, clientId, tool, now) >= n <==>
            n <= |rows| && rows[|rows| - n].at >= now - WINDOW
  {
    if rows != [] {
      var init := rows[..|rows| - 1];
      assert OfTheKey(rows[|rows| - 1], clientId, tool);
      if n > 1 {
        RecentRowsCount(init, clientId, tool, now, n - 1);
      }
      if rows[|rows| - 1].at < now - WINDOW {
        RecentRowsCount(init, clientId, tool, now, 1);
      }
    }
  }

  /**
   An attempt is limited exactly when the attempt that came `limit` audited attempts before it, whatever
   became of those, is not yet a minute old.
   */
  lemma LimitedIff(log: seq<AuditRow>, clientId: string, tool: string, limit: nat, now: int)
    requires limit > 0 && InOrder(KeyRows(log, clientId, tool))
    ensures var rows := KeyRows(log, clientId, tool);
            IsRateLimited(log, clientId, tool, limit, now) <==>
            |rows| >= limit && rows[|rows| - limit].at >= now - 60_000_000
  {
    OnlyKeyRowsCount(log, clientId, tool, now);
    KeyRowsAreOfTheKey(log, clientId, tool);
    RecentRowsCount(KeyRows(log, clientId, tool), clientId, tool, now, limit);
  }

  // ----- The middleware's own code -----

  /** A request: its bearer token, and the tool call if it is a POST that carries one. */
  datatype Request = Request(token: Option<string>, toolCall: Option<(string, string)>)

  /** Which database statements fail. */
  datatype Failures = Failures(count: bool, audit: bool)

  class Middleware {
    const b: Config
    /** What the other requests do at each await. */
    const others: nat -> seq<Action>
    var s: State
    var awaits: nat
    ghost var ss: seq<State>
    ghost var acts: seq<Action>

    ghost predicate Valid()
      reads this
    {
      IsRun(b, ss, acts) && ss[|acts|] == s
    }

    constructor (b: Config, others: nat -> seq<Action>)
      ensures Valid() && this.b == b && this.others == others && s == Initial()
    {
      this.b, this.others := b, others;
      s, awaits := Initial(), 0;
      ss, acts := [Initial()], [];
    }

    method Perform(a: Action)
      requires Valid() && Enabled(b, s, a)
      modifies this
      ensures Valid() && s == Next(b, old(s), a) && awaits == old(awaits)
      ensures acts == old(acts) + [a] && ss == old(ss) + [s]
    {
      RunExtend(b, ss, acts, a);
      s := Next(b, s, a);
      ss, acts := ss + [s], acts + [a];
    }

    predicate IsOther(a: Action, req: nat) { a.Deny? || a.req != req }

    /** The state after the moves for other requests, as far as they are possible in turn. */
    function AfterOthers(s: State, moves: seq<Action>, req: nat): State {
      if moves == [] then s
      else
        var before, a := AfterOthers(s, moves[..|moves| - 1], req), moves[|moves| - 1];
        if (a.Deny? || a.req != req) && Enabled(b, before, a) then Next(b, before, a) else before
    }

    /** Nobody else acts for this request. */
    ghost predicate SameRequest(s0: State, req: nat)
      reads this
    {
      && (req in s.used <==> req in s0.used)
      && (req in s.pending <==> req in s0.pending)
      && (req in s.pending ==> s.pending[req] == s0.pending[req])
      && (req in s.admitted <==> req in s0.admitted)
      && (req in s.admitted ==> s.admitted[req] == s0.admitted[req])
      && (forall call :: (req, call) in s.forwarded <==> (req, call) in s0.forwarded)
    }

    method Await(req: nat)
      requires Valid()
      modifies this
      ensures Valid() && old(ss) <= ss && old(acts) <= acts && SameRequest(old(s), req)
      ensures s == AfterOthers(old(s), others(old(awaits)), req) && awaits == old(awaits) + 1
    {
      var moves := others(awaits);
      for i := 0 to |moves|
        invariant Valid() && old(ss) <= ss && old(acts) <= acts && SameRequest(old(s), req) && awaits == old(awaits)
        invariant s == AfterOthers(old(s), moves[..i], req)
      {
        assert moves[..i + 1][..i] == moves[..i];
        if IsOther(moves[i], req) && Enabled(b, s, moves[i]) {
          Perform(moves[i]);
        }
      }
      assert moves[..|moves|] == moves;
      awaits := awaits + 1;
    }

    /** `matched` is the last record with the token's hash, or there is none. */
    ghost predicate IsMatch(token: string, matched: Option<ClientRecord>) {
      && (matched.None? <==> forall i | 0 <= i < |b.registry| :: b.registry[i].tokenHash != b.hash(token))
      && (matched.Some? ==>
            exists i :: 0 <= i < |b.registry| && b.registry[i] == matched.value
                        && matched.value.tokenHash == b.hash(token)
                        && forall j | i < j < |b.registry| :: b.registry[j].tokenHash != b.hash(token))
    }

    /** Scans the whole registry, so that the last record with the token's hash is the one that counts. */
    method Authenticate(token: string) returns (matched: Option<ClientRecord>)
      ensures IsMatch(token, matched)
      ensures matched.None? <==> forall i | 0 <= i < |b.registry| :: b.registry[i].tokenHash != b.hash(token)
      ensures matched.Some? ==>
        exists i :: 0 <= i < |b.registry| && b.registry[i] == matched.value
                    && matched.value.tokenHash == b.hash(token)
                    && forall j | i < j < |b.registry| :: b.registry[j].tokenHash != b.hash(token)
    {
      var presented := b.hash(token);
      matched := None;
      for i := 0 to |b.registry|
        invariant matched.None? <==> forall j | 0 <= j < i :: b.registry[j].tokenHash != presented
        invariant matched.Some? ==>
          exists j :: 0 <= j < i && b.registry[j] == matched.value && matched.value.tokenHash == presented
                      && forall h | j < h < i :: b.registry[h].tokenHash != presented
      {
        if b.registry[i].tokenHash == presented {
          matched := Some(b.registry[i]);
        }
      }
    }

    /** The best-effort audit of a denial. */
    method AuditDenial(clientId: string, tool: Option<string>, decision: Decision, at: int, fails: bool)
      requires Valid() && decision != Allowed
      modifies this
      ensures Valid() && old(ss) <= ss && old(acts) <= acts
      ensures s == old(s).(log := s.log, notes := s.notes)
      ensures s.log == old(s).log + if fails then [] else [AuditRow(clientId, tool, decision, at)]
    {
      if !fails {
        Perform(Deny(AuditRow(clientId, tool, decision, at)));
      }
    }

    /** What the log was at some moment since step `from`. */
    ghost predicate WasLog(log: seq<AuditRow>, from: nat)
      reads this
    {
      exists i: nat :: from <= i <= |acts| && i < |ss| && log == ss[i].log
    }

    /** The row that was audited last. */
    function LastRow(): (row: Option<AuditRow>)
      reads this
      ensures row == if s.log == [] then None else Some(s.log[|s.log| - 1])
    {
      if s.log == [] then None else Some(s.log[|s.log| - 1])
    }

    /** The call that request `req` asks for was forwarded. */
    ghost predicate WasForwarded(req: nat)
      reads this
    {
      exists call :: (req, call) in s.forwarded
    }

    /**
     `__call__` for one request. `counted` is the log that the rate limiter read. A tool call is forwarded
     exactly when it is authenticated, allowlisted, under the limit, valid, and audited; every other outcome
     has its status.
     */
    method Handle(req: nat, r: Request, now: int, at: int, failures: Failures)
      returns (status: int, ghost client: Option<ClientRecord>, ghost counted: seq<AuditRow>)
      requires Valid() && req !in s.used && now <= at && !WasForwarded(req)
      modifies this
      ensures Valid() && old(ss) <= ss && old(acts) <= acts
      ensures status in [200, 401, 403, 422, 429, 503]
      ensures if r.token.None? then client.None? else IsMatch(r.token.value, client)
      ensures WasLog(counted, |old(acts)|)
      ensures status == 401 <==> client.None?
      ensures client.Some? ==> client.value in b.registry && r.token.Some?
                               && client.value.tokenHash == b.hash(r.token.value)
      ensures r.toolCall.None? && client.Some? ==> status == 200
      ensures client.Some? && r.toolCall.Some? ==>
                var (tool, args) := r.toolCall.value;
                var limited := IsRateLimited(counted, client.value.clientId, tool, b.limit, now);
                var invalid := tool in b.schemas && !b.valid(tool, args);
                status == if tool !in client.value.allowedTools then 403
                          else if failures.count then 503
                          else if limited then 429
                          else if invalid then 422
                          else if failures.audit then 503
                          else 200
      ensures WasForwarded(req) <==> status == 200 && r.toolCall.Some?
      ensures WasForwarded(req) ==>
                (req, Call(r.token.value, client.value, r.toolCall.value.0, r.toolCall.value.1)) in s.forwarded
      ensures status == 401 && !failures.audit ==>
                LastRow() == Some(AuditRow("unknown", None, DeniedUnauthenticated, at))
      ensures status in [403, 422, 429] && !failures.audit ==>
                LastRow() == Some(AuditRow(client.value.clientId, Some(r.toolCall.value.0),
                                           if status == 403 then DeniedUnauthorized
                                           else if status == 422 then DeniedValidation
                                           else DeniedRateLimited, at))
    {
      counted := s.log;
      ghost var read := |acts|;
      assert counted == ss[read].log;
      var matched := None;
      if r.token.Some? {
        matched := Authenticate(r.token.value);
      }
      client := matched;
      if matched.None? {
        AuditDenial("unknown", None, DeniedUnauthenticated, at, failures.audit);
        return 401, client, counted;
      }
      if r.toolCall.None? {
        return 200, client, counted;
      }
      var (tool, args) := r.toolCall.value;
      if tool !in matched.value.allowedTools {
        AuditDenial(matched.value.clientId, Some(tool), DeniedUnauthorized, at, failures.audit);
        return 403, client, counted;
      }
      status, counted := HandleToolCall(req, Call(r.token.value, matched.value, tool, args), now, at, failures);
    }

    /** The part of `__call__` that reads and writes the log. */
    method HandleToolCall(req: nat, call: Call, now: int, at: int, failures: Failures)
      returns (status: int, ghost counted: seq<AuditRow>)
      requires Valid() && req !in s.used && now <= at && !WasForwarded(req) && Authorized(b, call)
      modifies this
      ensures Valid() && old(ss) <= ss && old(acts) <= acts
      ensures WasLog(counted, |old(acts)|)
      ensures var limited := IsRateLimited(counted, call.client.clientId, call.tool, b.limit, now);
              var invalid := call.tool in b.schemas && !b.valid(call.tool, call.args);
              status == if failures.count then 503
                        else if limited then 429
                        else if invalid then 422
                        else if failures.audit then 503
                        else 200
      ensures WasForwarded(req) <==> status == 200
      ensures status == 200 ==> (req, call) in s.forwarded
      ensures status in [422, 429] && !failures.audit ==>
                LastRow() == Some(AuditRow(call.client.clientId, Some(call.tool),
                                           if status == 422 then DeniedValidation else DeniedRateLimited, at))
    {
      Await(req);
      counted := s.log;
      ghost var read := |acts|;
      assert counted == ss[read].log;
      if failures.count {
        return 503, counted;
      }
      var clientId, tool := call.client.clientId, call.tool;
      if IsRateLimited(s.log, clientId, tool, b.limit, now) {
        AuditDenial(clientId, Some(tool), DeniedRateLimited, at, failures.audit);
        return 429, counted;
      }
      Perform(Count(req, call, now));
      Await(req);
      status := AdmitOrDeny(req, call, at, failures);
    }

    /** After the count: validate, audit, forward. */
    method AdmitOrDeny(req: nat, call: Call, at: int, failures: Failures) returns (status: int)
      requires Valid() && req in s.pending && s.pending[req].call == call && s.pending[req].counted <= at
      requires !WasForwarded(req)
      modifies this
      ensures Valid() && old(ss) <= ss && old(acts) <= acts
      ensures var invalid := call.tool in b.schemas && !b.valid(call.tool, call.args);
              status == if invalid then 422 else if failures.audit then 503 else 200
      ensures WasForwarded(req) <==> status == 200
      ensures status == 200 ==> (req, call) in s.forwarded
      ensures status == 422 && !failures.audit ==>
                LastRow() == Some(AuditRow(call.client.clientId, Some(call.tool), DeniedValidation, at))
    {
      if call.tool in b.schemas && !b.valid(call.tool, call.args) {
        Perform(Abandon(req));
        AuditDenial(call.client.clientId, Some(call.tool), DeniedValidation, at, failures.audit);
        return 422;
      }
      if failures.audit {
        Perform(Abandon(req));
        return 503;
      }
      Perform(Insert(req, at));
      Await(req);
      Perform(Forward(req));
      assert s.forwarded[|s.forwarded| - 1] == (req, call);
      return 200;
    }
  }
}

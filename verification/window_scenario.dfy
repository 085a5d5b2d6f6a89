/**
 The window bound is exact: `limit - 1` calls one after the other, then `k` requests that all count before
 any of them is audited, put `limit + k - 1` calls into one minute.
 */
module WindowScenario {
  import opened Options
  import opened Boundary
  import opened Traces

  const CLIENT := ClientRecord("client", "digest", {"tool"})
  const CALL := Call("token", CLIENT, "tool", "")
  const ROW := AuditRow("client", Some("tool"), Allowed, 0)

  function OneTool(limit: int): Config {
    Config([CLIENT], (_: string) => "digest", limit, {}, (_: string, _: string) => true)
  }

  type RequestTrace = Trace<State, Action>

  /** `n` calls were admitted and `j` requests are between their count and their audit row. */
  ghost predicate Shape(s: State, n: nat, j: nat) {
    && |s.log| == n && (forall i | 0 <= i < n :: s.log[i] == ROW)
    && (forall r: nat | r in s.pending :: n <= r < n + j)
    && (forall r: nat | n <= r < n + j :: r in s.pending && s.pending[r].call == CALL && s.pending[r].counted == 0)
    && (forall r: nat | r in s.used :: r < n + j)
    && |PendingFor(s, "client", "tool")| == j
  }

  ghost predicate Reached(limit: int, k: nat, t: RequestTrace, n: nat, j: nat) {
    && IsRun(OneTool(limit), t.ss, t.acts)
    && AtMostPending(t.ss, "client", "tool", k)
    && Shape(t.ss[|t.acts|], n, j)
  }

  lemma {:induction false} RowsCount(log: seq<AuditRow>)
    requires forall i | 0 <= i < |log| :: log[i] == ROW
    ensures CountRows(log, "client", "tool", 0) == |log|
    ensures AllowedIn(log, "client", "tool", 0) == |log|
  {
    if log != [] {
      RowsCount(log[..|log| - 1]);
    }
  }

  lemma Extend(limit: int, k: nat, t: RequestTrace, a: Action, n: nat, j: nat) returns (t': RequestTrace)
    requires IsRun(OneTool(limit), t.ss, t.acts) && AtMostPending(t.ss, "client", "tool", k) && j <= k
    requires Enabled(OneTool(limit), t.ss[|t.acts|], a)
    requires Shape(Next(OneTool(limit), t.ss[|t.acts|], a), n, j)
    ensures Reached(limit, k, t', n, j)
  {
    RunExtend(OneTool(limit), t.ss, t.acts, a);
    t' := Trace(t.ss + [Next(OneTool(limit), t.ss[|t.acts|], a)], t.acts + [a]);
  }

  lemma PendingAfterCount(s: State, req: nat, p: Pending, s': State, clientId: string, tool: string)
    requires req !in s.pending && s'.pending == s.pending[req := p] && SameKey(p.call, clientId, tool)
    ensures |PendingFor(s', clientId, tool)| == |PendingFor(s, clientId, tool)| + 1
  {
    var before, after := PendingFor(s, clientId, tool), PendingFor(s', clientId, tool);
    forall r ensures r in after <==> r in before || r == req {
    }
    assert after == before + {req};
  }

  lemma DoCount(limit: int, k: nat, t: RequestTrace, n: nat, j: nat) returns (t': RequestTrace)
    requires Reached(limit, k, t, n, j) && n < limit && j < k
    ensures Reached(limit, k, t', n, j + 1)
  {
    var s, a := t.ss[|t.acts|], Count(n + j, CALL, 0);
    RowsCount(s.log);
    assert OneTool(limit).registry[0] == CLIENT;
    assert Authorized(OneTool(limit), CALL);
    var s' := Next(OneTool(limit), s, a);
    assert n + j !in s.used && n + j !in s.pending;
    PendingAfterCount(s, n + j, Pending(CALL, 0, |s.log|), s', "client", "tool");
    t' := Extend(limit, k, t, a, n, j + 1);
  }

  lemma DoInsert(limit: int, k: nat, t: RequestTrace, n: nat, j: nat) returns (t': RequestTrace)
    requires Reached(limit, k, t, n, j) && 0 < j <= k
    ensures Reached(limit, k, t', n + 1, j - 1)
  {
    var s, a := t.ss[|t.acts|], Insert(n, 0);
    var s' := Next(OneTool(limit), s, a);
    assert PendingFor(s', "client", "tool") == PendingFor(s, "client", "tool") - {n};
    t' := Extend(limit, k, t, a, n + 1, j - 1);
  }

  lemma {:induction false} OneByOne(limit: int, k: nat, n: nat) returns (t: RequestTrace)
    requires n < limit && k > 0
    ensures Reached(limit, k, t, n, 0)
  {
    if n == 0 {
      t := Trace([Initial()], []);
      assert PendingFor(Initial(), "client", "tool") == {};
    } else {
      t := OneByOne(limit, k, n - 1);
      t := DoCount(limit, k, t, n - 1, 0);
      t := DoInsert(limit, k, t, n - 1, 1);
    }
  }

  lemma {:induction false} AllCount(limit: int, k: nat, j: nat) returns (t: RequestTrace)
    requires limit > 0 && k > 0 && j <= k
    ensures Reached(limit, k, t, limit - 1, j)
  {
    if j == 0 {
      t := OneByOne(limit, k, limit - 1);
    } else {
      t := AllCount(limit, k, j - 1);
      t := DoCount(limit, k, t, limit - 1, j - 1);
    }
  }

  lemma {:induction false} AllInsert(limit: int, k: nat, j: nat) returns (t: RequestTrace)
    requires limit > 0 && k > 0 && j <= k
    ensures Reached(limit, k, t, limit - 1 + j, k - j)
  {
    if j == 0 {
      t := AllCount(limit, k, k);
    } else {
      t := AllInsert(limit, k, j - 1);
      t := DoInsert(limit, k, t, limit - 1 + (j - 1), k - (j - 1));
    }
  }

  /** For every limit and every `k`, some run with at most `k` requests pending reaches the window bound. */
  lemma WindowBoundIsReached(limit: int, k: nat)
    returns (b: Config, ss: seq<State>, acts: seq<Action>, clientId: string, tool: string)
    requires limit > 0 && k > 0
    ensures b.limit == limit && IsRun(b, ss, acts) && AtMostPending(ss, clientId, tool, k)
    ensures AllowedIn(ss[|acts|].log, clientId, tool, 0) == limit + k - 1
  {
    var t := AllInsert(limit, k, k);
    b, ss, acts, clientId, tool := OneTool(limit), t.ss, t.acts, "client", "tool";
    RowsCount(ss[|acts|].log);
  }
}

/** How one work row moves: its life cycle, its attempt counter and the pace of its claims. */
module DurableAccounting {
  import opened Wrappers
  import opened WorkItems
  import opened DurableTables
  import opened DurableSafety

  /** What one transaction does to one work row. */
  datatype Change = Same | Created | Claimed | Reclaimed | Acked | Requeued | Buried

  function ChangeOf(t: Tables, e: Event, w: string): Change
    requires Allowed(t, e)
  {
    match e.op
    case OpSubmit(item) =>
      if Submit(t, item, e.now).Success? && item.ResolvedWorkId() == w then Created else Same
    case OpPoll(_, _, pick) =>
      if pick != Some(w) then Same else if t.rows[w].status == Running then Reclaimed else Claimed
    case OpAck(s, item, bundle) =>
      if Ack(t, s, item, bundle, e.now).Success? && item.ResolvedWorkId() == w && Holds(t, w, s.workerId)
      then Acked else Same
    case OpNack(s, item, _) =>
      if !item.HasWorkId() || item.ResolvedWorkId() != w then Same
      else if Buries(t, s, item) then Buried
      else if Requeues(t, s, item) then Requeued
      else Same
  }

  function RowIn(t: Tables, w: string): Option<Row> {
    if w in t.rows then Some(t.rows[w]) else None
  }

  predicate SameOrder(r: Row, r': Row) {
    r'.createdAt == r.createdAt && r'.priority == r.priority && r'.jobId == r.jobId && r'.payload == r.payload
  }

  /** How each kind of change takes an existing row to its next state. */
  predicate Advances(c: Change, r: Row, r': Row, op: Op, now: int)
    requires !op.OpSubmit?
  {
    match c
    case Same => r' == r
    case Created => false
    case Claimed =>
      && op.OpPoll? && r.status == Queued && r.availableAt <= now
      && r'.status == Running && r'.lockedAt == Some(now) && r'.attempts == r.attempts + 1
      && r'.lockedBy == Some(op.settings.workerId)
    case Reclaimed =>
      && op.OpPoll? && r.status == Running
      && r.lockedAt.Some? && r.lockedAt.value < now - op.settings.visibilityTimeout
      && r'.status == Running && r'.lockedAt == Some(now) && r'.attempts == r.attempts + 1
      && r'.lockedBy == Some(op.settings.workerId)
    case Acked =>
      && op.OpAck? && r.status == Running && r.lockedBy == Some(op.settings.workerId)
      && r'.status == Succeeded && r'.attempts == r.attempts
    case Requeued =>
      && op.OpNack? && r.status == Running && r.lockedBy == Some(op.settings.workerId)
      && r.attempts < op.settings.maxAttempts
      && r'.status == Queued && r'.attempts == r.attempts && r'.availableAt == now + op.settings.retryDelay
    case Buried =>
      && op.OpNack? && r.status == Running && r.lockedBy == Some(op.settings.workerId)
      && r.attempts >= op.settings.maxAttempts
      && r'.status == Failed && r'.attempts == r.attempts
  }

  predicate Moves(c: Change, before: Option<Row>, after: Option<Row>, e: Event) {
    if c == Same then before == after
    else if c == Created then
      && before.None? && after.Some?
      && var r' := after.value;
      && r'.status == Queued && r'.attempts == 0 && r'.createdAt == e.now == r'.availableAt
    else
      && before.Some? && after.Some? && !e.op.OpSubmit?
      && SameOrder(before.value, after.value)
      && Advances(c, before.value, after.value, e.op, e.now)
  }

  lemma SubmitStep(t: Tables, e: Event, w: string)
    requires Allowed(t, e) && e.op.OpSubmit?
    ensures Moves(ChangeOf(t, e, w), RowIn(t, w), RowIn(Apply(t, e), w), e)
  {
  }

  lemma PollStep(t: Tables, e: Event, w: string)
    requires Allowed(t, e) && e.op.OpPoll?
    ensures Moves(ChangeOf(t, e, w), RowIn(t, w), RowIn(Apply(t, e), w), e)
  {
  }

  lemma AckStep(t: Tables, e: Event, w: string)
    requires Allowed(t, e) && e.op.OpAck? && (w in t.rows ==> LockMatchesStatus(t.rows[w]))
    ensures Moves(ChangeOf(t, e, w), RowIn(t, w), RowIn(Apply(t, e), w), e)
  {
  }

  lemma NackStep(t: Tables, e: Event, w: string)
    requires Allowed(t, e) && e.op.OpNack? && (w in t.rows ==> LockMatchesStatus(t.rows[w]))
    ensures Moves(ChangeOf(t, e, w), RowIn(t, w), RowIn(Apply(t, e), w), e)
  {
  }

  lemma RowStep(t: Tables, e: Event, w: string)
    requires Allowed(t, e) && Inv(t)
    ensures Moves(ChangeOf(t, e, w), RowIn(t, w), RowIn(Apply(t, e), w), e)
  {
    assert w in t.rows ==> RowAgrees(t, w);
    match e.op
    case OpSubmit(_) => SubmitStep(t, e, w);
    case OpPoll(_, _, _) => PollStep(t, e, w);
    case OpAck(_, _, _) => AckStep(t, e, w);
    case OpNack(_, _, _) => NackStep(t, e, w);
  }

  /** How many transactions of the run made change `c` to row `w`. */
  function Times(run: seq<Event>, w: string, c: Change): nat
    requires ValidRun(run)
  {
    if run == [] then 0 else
    var before, e := run[..|run| - 1], run[|run| - 1];
    Times(before, w, c) + (if ChangeOf(Reach(before), e, w) == c then 1 else 0)
  }

  function Reclaims(run: seq<Event>, w: string): nat
    requires ValidRun(run)
  {
    Times(run, w, Reclaimed)
  }

  function FencedFailures(run: seq<Event>, w: string): nat
    requires ValidRun(run)
  {
    Times(run, w, Requeued) + Times(run, w, Buried)
  }

  function Held(r: Row): nat {
    if r.status == Running || r.status == Succeeded then 1 else 0
  }

  /**
   Exact attempt accounting, in every run and with stale workers: the counter of a row is the number
   of fenced failures, plus the reclaims, plus one while it is held or done.
   */
  lemma {:induction false} AttemptAccounting(run: seq<Event>, w: string)
    requires ValidRun(run)
    ensures w in Reach(run).rows ==>
      Reach(run).rows[w].attempts == FencedFailures(run, w) + Reclaims(run, w) + Held(Reach(run).rows[w])
    ensures w !in Reach(run).rows ==> FencedFailures(run, w) + Reclaims(run, w) == 0
  {
    if run != [] {
      var before, e := run[..|run| - 1], run[|run| - 1];
      AttemptAccounting(before, w);
      EveryRunIsSafe(before);
      RowStep(Reach(before), e, w);
    }
  }

  predicate SharedMaxAttempts(run: seq<Event>, m: int) {
    forall i :: 0 <= i < |run| && run[i].op.OpNack? ==> run[i].op.settings.maxAttempts == m
  }

  /** With one shared limit m >= 1, only reclaims can push the counter above it. */
  lemma {:induction false} AttemptsAreBounded(run: seq<Event>, w: string, m: int)
    requires ValidRun(run) && SharedMaxAttempts(run, m) && m >= 1
    requires w in Reach(run).rows
    ensures var r := Reach(run).rows[w];
      && (r.status == Queued ==> r.attempts < m)
      && (r.status == Failed ==> r.attempts >= m)
      && FencedFailures(run, w) + Held(r) <= m
      && r.attempts <= m + Reclaims(run, w)
  {
    AttemptAccounting(run, w);
    var before, e := run[..|run| - 1], run[|run| - 1];
    AttemptAccounting(before, w);
    EveryRunIsSafe(before);
    RowStep(Reach(before), e, w);
    if w in Reach(before).rows {
      AttemptsAreBounded(before, w, m);
    }
  }

  /** A claim takes the counter past the limit exactly when it reclaims a row whose attempts are used up. */
  lemma ClaimPassesLimitIff(run: seq<Event>, s: Settings, w: string, now: int, m: int)
    requires ValidRun(run) && SharedMaxAttempts(run, m) && m >= 1
    requires w in Reach(run).rows && Claimable(Reach(run).rows[w], s, now)
    ensures Claim(Reach(run), s, w, now).rows[w].attempts > m <==>
      Reach(run).rows[w].status == Running && Reach(run).rows[w].attempts >= m
  {
    AttemptsAreBounded(run, w, m);
  }

  /** Some poll of the run reclaimed the row with its attempts used up. */
  predicate ReclaimedAtLimit(run: seq<Event>, w: string, m: int)
    requires ValidRun(run)
  {
    run != [] &&
    var before, e := run[..|run| - 1], run[|run| - 1];
    || ReclaimedAtLimit(before, w, m)
    || (ChangeOf(Reach(before), e, w) == Reclaimed && w in Reach(before).rows && Reach(before).rows[w].attempts >= m)
  }

  /** A row has had more attempts than the limit exactly when such a reclaim has happened. */
  lemma {:induction false} AttemptsPassLimitIff(run: seq<Event>, w: string, m: int)
    requires ValidRun(run) && SharedMaxAttempts(run, m) && m >= 1
    ensures (w in Reach(run).rows && Reach(run).rows[w].attempts > m) <==> ReclaimedAtLimit(run, w, m)
  {
    if run != [] {
      var before, e := run[..|run| - 1], run[|run| - 1];
      AttemptsPassLimitIff(before, w, m);
      EveryRunIsSafe(before);
      RowStep(Reach(before), e, w);
      if w in Reach(before).rows { AttemptsAreBounded(before, w, m); }
    }
  }

  // ---------------------------------------------------------------- pacing

  /** The times at which row `w` was claimed or reclaimed, oldest first. */
  function ClaimTimes(run: seq<Event>, w: string): seq<int>
    requires ValidRun(run)
  {
    if run == [] then [] else
    var before, e := run[..|run| - 1], run[|run| - 1];
    ClaimTimes(before, w) +
    (if ChangeOf(Reach(before), e, w) in {Claimed, Reclaimed} then [e.now] else [])
  }

  /** Every claim of the run uses a visibility timeout of at least `v`, every nack a retry delay of at least `d`. */
  predicate PacedSettings(run: seq<Event>, v: int, d: int) {
    forall i :: 0 <= i < |run| ==>
      && (run[i].op.OpPoll? ==> run[i].op.settings.visibilityTimeout >= v)
      && (run[i].op.OpNack? ==> run[i].op.settings.retryDelay >= d)
  }

  function Min(a: int, b: int): int {
    if a <= b then a else b
  }

  predicate Spaced(ts: seq<int>, start: int, gap: int) {
    && (ts != [] ==> start <= ts[0])
    && (forall k :: 1 <= k < |ts| ==> ts[k - 1] + gap <= ts[k])
  }

  lemma {:induction false} SpacedBound(ts: seq<int>, start: int, gap: int, k: nat)
    requires Spaced(ts, start, gap) && k < |ts|
    ensures start + k * gap <= ts[k]
  {
    if k > 0 {
      SpacedBound(ts, start, gap, k - 1);
      assert k * gap == (k - 1) * gap + gap;
    }
  }

  function Last(ts: seq<int>): int
    requires ts != []
  {
    ts[|ts| - 1]
  }

  /** The state of a row agrees with the times of its claims, the latest transaction being at `now`. */
  predicate Paced(r: Row, ts: seq<int>, now: int, v: int, d: int) {
    && |ts| == r.attempts
    && Spaced(ts, r.createdAt, Min(v, d))
    && r.createdAt <= now
    && (ts != [] ==> Last(ts) <= now)
    && (r.status == Queued ==> r.availableAt >= if ts == [] then r.createdAt else Last(ts) + d)
    && (r.status == Running ==> ts != [] && r.lockedAt == Some(Last(ts)))
  }

  lemma MovesKeepPaced(c: Change, r: Row, r': Row, e: Event, ts: seq<int>, now: int, v: int, d: int)
    requires Moves(c, Some(r), Some(r'), e) && Paced(r, ts, now, v, d) && now <= e.now
    requires e.op.OpPoll? ==> e.op.settings.visibilityTimeout >= v
    requires e.op.OpNack? ==> e.op.settings.retryDelay >= d
    ensures Paced(r', ts + (if c in {Claimed, Reclaimed} then [e.now] else []), e.now, v, d)
  {
    assert ts + [] == ts;
  }

  lemma {:induction false} ClaimsAreSpaced(run: seq<Event>, w: string, v: int, d: int)
    requires ValidRun(run) && PacedSettings(run, v, d)
    ensures w !in Reach(run).rows ==> ClaimTimes(run, w) == []
    ensures w in Reach(run).rows ==> Paced(Reach(run).rows[w], ClaimTimes(run, w), run[|run| - 1].now, v, d)
  {
    if run != [] {
      var before, e := run[..|run| - 1], run[|run| - 1];
      ClaimsAreSpaced(before, w, v, d);
      EveryRunIsSafe(before);
      RowStep(Reach(before), e, w);
      if w in Reach(before).rows {
        MovesKeepPaced(ChangeOf(Reach(before), e, w), Reach(before).rows[w], Reach(run).rows[w], e,
          ClaimTimes(before, w), before[|before| - 1].now, v, d);
      }
    }
  }

  /** The (k+1)-th claim of a row comes no earlier than k times the shorter of the two waits after its creation. */
  lemma PacingBound(run: seq<Event>, w: string, v: int, d: int, k: nat)
    requires ValidRun(run) && PacedSettings(run, v, d)
    requires w in Reach(run).rows && k < Reach(run).rows[w].attempts
    ensures k < |ClaimTimes(run, w)|
    ensures Reach(run).rows[w].createdAt + k * Min(v, d) <= ClaimTimes(run, w)[k]
  {
    ClaimsAreSpaced(run, w, v, d);
    SpacedBound(ClaimTimes(run, w), Reach(run).rows[w].createdAt, Min(v, d), k);
  }

  // ---------------------------------------------------------------- terminal rows

  /** Once a row is succeeded or failed, no later transaction of any worker changes it. */
  lemma {:induction false} TerminalRowsAreFrozen(run: seq<Event>, n: nat, w: string)
    requires ValidRun(run) && n <= |run| && ValidRun(run[..n])
    requires w in Reach(run[..n]).rows && Reach(run[..n]).rows[w].Terminal()
    ensures w in Reach(run).rows && Reach(run).rows[w] == Reach(run[..n]).rows[w]
  {
    if n == |run| {
      assert run[..n] == run;
    } else {
      var before, e := run[..|run| - 1], run[|run| - 1];
      assert before[..n] == run[..n];
      TerminalRowsAreFrozen(before, n, w);
      EveryRunIsSafe(before);
      RowStep(Reach(before), e, w);
    }
  }

  lemma {:induction false} PrefixesAreRuns(run: seq<Event>, n: nat)
    requires ValidRun(run) && n <= |run|
    ensures ValidRun(run[..n])
  {
    if n == |run| {
      assert run[..n] == run;
    } else {
      assert run[..|run| - 1][..n] == run[..n];
      PrefixesAreRuns(run[..|run| - 1], n);
    }
  }
}

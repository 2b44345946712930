/**
 One worker of edc_translation/worker.py driving the durable queue: retries run out, and a drain is a sort.

 Translation itself is an arbitrary function of the item and of how many items were processed before;
 the time that passes before each queue call is an arbitrary function too.
 */
module DurableWorker {
  import opened Wrappers
  import opened WorkItems
  import opened WorkerResults
  import opened DurableTables
  import opened DurableSafety
  import opened DurableAccounting
  import opened DurableQueues

  datatype ArgumentError = ValueError(argument: string)

  /** The attempts a row has left. */
  function Remaining(r: Row, m: int): nat {
    if r.status == Queued && r.attempts < m then m - r.attempts else 0
  }

  ghost function Budget(rows: map<string, Row>, m: int): nat
    decreases |rows|
  {
    if rows == map[] then 0 else
    var w :| w in rows;
    Remaining(rows[w], m) + Budget(rows - {w}, m)
  }

  lemma {:induction false} BudgetPick(rows: map<string, Row>, m: int, w: string)
    requires w in rows
    ensures Budget(rows, m) == Remaining(rows[w], m) + Budget(rows - {w}, m)
    decreases |rows|
  {
    var u :| u in rows && Budget(rows, m) == Remaining(rows[u], m) + Budget(rows - {u}, m);
    if u != w {
      BudgetPick(rows - {u}, m, w);
      BudgetPick(rows - {w}, m, u);
      assert rows - {u} - {w} == rows - {w} - {u};
    }
  }

  lemma BudgetUpdate(rows: map<string, Row>, m: int, w: string, r: Row)
    requires w in rows
    ensures Budget(rows[w := r], m) == Budget(rows, m) - Remaining(rows[w], m) + Remaining(r, m)
  {
    BudgetPick(rows, m, w);
    BudgetPick(rows[w := r], m, w);
    assert rows[w := r] - {w} == rows - {w};
  }

  /** No row is leased: what a single worker that does not crash leaves behind. */
  predicate Unleased(rows: map<string, Row>) {
    forall w :: w in rows ==> rows[w].status != Running
  }

  /** The row after one attempt ended at time `end`. */
  predicate Attempted(r: Row, r': Row, s: Settings, outcome: Outcome, end: int) {
    && SameOrder(r, r')
    && r.status == Queued && r'.attempts == r.attempts + 1
    && (outcome.Produced? ==> r'.status == Succeeded)
    && (outcome.Erred? ==>
      if r'.attempts >= s.maxAttempts then r'.status == Failed
      else r'.status == Queued && r'.availableAt == end + s.retryDelay)
  }

  /** The ack or nack that ends an attempt. */
  function Settled(t: Tables, s: Settings, item: WorkItem, outcome: Outcome, end: int): Tables
    requires item.Valid()
  {
    match outcome
    case Produced(bundle) => OrElse(Ack(t, s, item, Some(bundle), end), t)
    case Erred(error) => OrElse(Nack(t, s, item, error, end), t)
  }

  lemma AttemptMovesOneRow(t: Tables, s: Settings, w: string, item: WorkItem, outcome: Outcome, now: int, end: int)
    requires w in t.rows && item.Valid() && item.ResolvedWorkId() == w && t.rows[w].jobId == item.ResolvedJobId()
    requires t.rows[w].status == Queued && t.rows[w].attempts < s.maxAttempts && t.rows[w].jobId in t.jobs
    ensures var t' := Settled(Claim(t, s, w, now), s, item, outcome, end);
      && w in t'.rows && t'.rows == t.rows[w := t'.rows[w]]
      && Attempted(t.rows[w], t'.rows[w], s, outcome, end)
      && Remaining(t'.rows[w], s.maxAttempts) < Remaining(t.rows[w], s.maxAttempts)
      && t'.rows[w].status != Running
  {
  }

  /** One round: the next row, claimed at `now`, has had one more attempt by `end`; the budget is smaller. */
  ghost predicate Round(t: Tables, t': Tables, s: Settings, w: string, outcome: Outcome, now: int, end: int) {
    && IsNext(t, s, {}, now, w)
    && w in t'.rows && t'.rows == t.rows[w := t'.rows[w]]
    && Attempted(t.rows[w], t'.rows[w], s, outcome, end)
    && Budget(t'.rows, s.maxAttempts) < Budget(t.rows, s.maxAttempts)
    && Unleased(t'.rows)
  }

  lemma RoundStep(run: seq<Event>, s: Settings, w: string, item: WorkItem, outcome: Outcome, now: int, end: int)
    requires ValidRun(run) && SharedMaxAttempts(run, s.maxAttempts) && s.maxAttempts >= 1
    requires var t := Reach(run); Unleased(t.rows) && IsNext(t, s, {}, now, w)
    requires item.Valid() && item.ResolvedWorkId() == w && Reach(run).rows[w].jobId == item.ResolvedJobId()
    ensures Round(Reach(run), Settled(Claim(Reach(run), s, w, now), s, item, outcome, end), s, w, outcome, now, end)
  {
    var t := Reach(run);
    AttemptsAreBounded(run, w, s.maxAttempts);
    assert t.rows[w].jobId in t.jobs by {
      EveryRunIsSafe(run);
      assert RowAgrees(t, w);
    }
    AttemptMovesOneRow(t, s, w, item, outcome, now, end);
    BudgetUpdate(t.rows, s.maxAttempts, w, Settled(Claim(t, s, w, now), s, item, outcome, end).rows[w]);
  }

  /**
   What the end of an attempt leaves behind in the tables. A translation is saved under its job and document;
   an error is kept on the row, and when the attempt was the last one on the job and in a dead letter.
   */
  ghost predicate Recorded(t: Tables, t': Tables, s: Settings, r: WorkerResult, end: int) {
    && r.workId in t'.rows && r.jobId in t'.jobs
    && var row, job := t'.rows[r.workId], t'.jobs[r.jobId];
    && row.jobId == r.jobId
    && (forall j :: j in t.jobs && j != r.jobId ==> j in t'.jobs && t'.jobs[j] == t.jobs[j])
    && (forall j :: j in t.results && j != r.jobId ==> j in t'.results && t'.results[j] == t.results[j])
    && match r.outcome
       case Produced(bundle) =>
         && r.jobId in t'.results
         && t'.results[r.jobId].bundle == bundle && t'.results[r.jobId].documentId == r.documentId
         && job.status == Succeeded && job.error == None && job.completedAt == Some(end)
         && t'.deadLetters == t.deadLetters
       case Erred(error) =>
         && t'.results == t.results && row.lastError == Some(error)
         && if row.status == Failed then
              && job.status == Failed && job.error == Some(error) && job.completedAt == Some(end)
              && t'.deadLetters == t.deadLetters
                + [DeadLetter(r.workId, r.jobId, row.payload, error, row.attempts, s.workerId)]
            else t'.jobs == t.jobs && t'.deadLetters == t.deadLetters
  }

  lemma SettlingRecords(before: Tables, t: Tables, s: Settings, item: WorkItem, outcome: Outcome, end: int)
    requires t == before.(rows := t.rows)
    requires item.Valid() && Holds(t, item.ResolvedWorkId(), s.workerId)
    requires t.rows[item.ResolvedWorkId()].jobId == item.ResolvedJobId() && item.ResolvedJobId() in t.jobs
    ensures Recorded(before, Settled(t, s, item, outcome, end), s, ResultFor(item, outcome), end)
  {
    match outcome
    case Produced(_) =>
    case Erred(error) => NackOutcome(t, s, item, error, end);
  }

  lemma SharedMaxAttemptsExtends(run: seq<Event>, e: Event, m: int)
    requires SharedMaxAttempts(run, m) && (e.op.OpNack? ==> e.op.settings.maxAttempts == m)
    ensures SharedMaxAttempts(run + [e], m)
  {
  }

  method Settle(q: DurableQueue, s: Settings, item: WorkItem, outcome: Outcome, work: nat)
    requires q.Valid() && item.Valid() && Coherent(q.State(), item) && SharedMaxAttempts(q.run, s.maxAttempts)
    modifies q
    ensures q.Valid() && SharedMaxAttempts(q.run, s.maxAttempts) && q.clock == old(q.clock) + work
    ensures q.State() == Settled(old(q.State()), s, item, outcome, q.clock)
  {
    match outcome
    case Produced(bundle) =>
      var error := q.Ack(s, item, Some(bundle), q.clock + work);
      SharedMaxAttemptsExtends(old(q.run), Event(q.clock, OpAck(s, item, Some(bundle))), s.maxAttempts);
    case Erred(error) =>
      var failure := q.Nack(s, item, error, q.clock + work);
      SharedMaxAttemptsExtends(old(q.run), Event(q.clock, OpNack(s, item, error)), s.maxAttempts);
  }

  predicate Ready(run: seq<Event>, t: Tables, s: Settings) {
    Unleased(t.rows) && SharedMaxAttempts(run, s.maxAttempts) && s.maxAttempts >= 1
  }

  lemma RowHasItsJob(run: seq<Event>, w: string)
    requires ValidRun(run) && w in Reach(run).rows
    ensures Reach(run).rows[w].jobId in Reach(run).jobs
  {
    EveryRunIsSafe(run);
    assert RowAgrees(Reach(run), w);
  }

  /** The item's row has had one more attempt, and the outcome is recorded. */
  ghost predicate Completes(t: Tables, t': Tables, s: Settings, item: WorkItem, outcome: Outcome, now: int, end: int) {
    && item.Valid()
    && Round(t, t', s, item.ResolvedWorkId(), outcome, now, end)
    && Recorded(t, t', s, ResultFor(item, outcome), end)
  }

  /** A claim after which any settlement completes a round. */
  method ClaimNext(q: DurableQueue, s: Settings, wait: nat) returns (item: Option<WorkItem>, claimed: Option<string>)
    requires q.Valid() && Ready(q.run, q.State(), s)
    modifies q
    ensures q.Valid() && SharedMaxAttempts(q.run, s.maxAttempts) && q.clock == old(q.clock) + wait
    ensures item.None? <==> claimed.None?
    ensures item.None? ==> q.State() == old(q.State()) && Candidates(q.State(), s, {}, q.clock) == {}
    ensures item.Some? ==>
      && item.value.Valid() && Coherent(q.State(), item.value)
      && claimed.value in old(q.State()).rows
      && FromMessage(old(q.State()).rows[claimed.value].payload) == Success(item.value)
      && item.value.ResolvedWorkId() == claimed.value
      && forall outcome, end ::
           Completes(old(q.State()), Settled(q.State(), s, item.value, outcome, end), s, item.value, outcome,
             q.clock, end)
  {
    item, claimed := q.Poll(s, {}, q.clock + wait);
    SharedMaxAttemptsExtends(old(q.run), Event(q.clock, OpPoll(s, {}, claimed)), s.maxAttempts);
    if item.Some? {
      ghost var t := Reach(old(q.run));
      RowHasItsJob(old(q.run), claimed.value);
      assert q.State() == Claim(t, s, claimed.value, q.clock);
      forall outcome, end
        ensures Completes(t, Settled(q.State(), s, item.value, outcome, end), s, item.value, outcome, q.clock, end)
      {
        RoundStep(old(q.run), s, claimed.value, item.value, outcome, q.clock, end);
        SettlingRecords(t, q.State(), s, item.value, outcome, end);
      }
    }
  }

  /** The result is what processing made of the item that the row's payload holds, under that item's ids. */
  predicate IsReport(payload: Message, result: WorkerResult, process: (WorkItem, nat) -> Outcome, n: nat) {
    var d := FromMessage(payload);
    && d.Success? && d.value.Valid()
    && result == ResultFor(d.value, process(d.value, n))
  }

  /** Polls, processes and acks or nacks; `wait` and `work` are the times spent before the two calls. */
  method RunOnce(q: DurableQueue, s: Settings, process: (WorkItem, nat) -> Outcome, n: nat, wait: nat, work: nat)
      returns (result: Option<WorkerResult>)
    requires q.Valid() && Ready(q.run, q.State(), s)
    modifies q
    ensures q.Valid() && Ready(q.run, q.State(), s)
    ensures result.None? ==>
      && q.clock == old(q.clock) + wait && q.State() == old(q.State())
      && Candidates(q.State(), s, {}, q.clock) == {}
    ensures result.Some? ==>
      && q.clock == old(q.clock) + wait + work
      && result.value.workId in old(q.State()).rows
      && IsReport(old(q.State()).rows[result.value.workId].payload, result.value, process, n)
      && Round(old(q.State()), q.State(), s, result.value.workId, result.value.outcome, old(q.clock) + wait, q.clock)
      && Recorded(old(q.State()), q.State(), s, result.value, q.clock)
  {
    ghost var before := q.State();
    var polled, claimed := ClaimNext(q, s, wait);
    if polled.None? { return None; }
    var outcome := process(polled.value, n);
    ghost var leased, now := q.State(), q.clock;
    Settle(q, s, polled.value, outcome, work);
    assert Completes(before, Settled(leased, s, polled.value, outcome, q.clock), s, polled.value, outcome, now,
      q.clock);
    result := Some(ResultFor(polled.value, outcome));
  }

  // ---------------------------------------------------------------- draining the queue

  predicate Distinct(ids: seq<string>) {
    forall i, j :: 0 <= i < j < |ids| ==> ids[i] != ids[j]
  }

  predicate Ordered(rows: map<string, Row>, ids: seq<string>)
    requires forall i :: 0 <= i < |ids| ==> ids[i] in rows
  {
    forall i, j :: 0 <= i < j < |ids| ==>
      var a, b := rows[ids[i]], rows[ids[j]];
      a.priority >= b.priority && (a.priority == b.priority ==> a.createdAt <= b.createdAt)
  }

  /** The ids are the queued rows, each once, by priority descending and then by creation time. */
  ghost predicate IsSortOfQueued(rows: map<string, Row>, ids: seq<string>) {
    && (forall w :: w in ids <==> w in rows && rows[w].status == Queued)
    && Distinct(ids) && Ordered(rows, ids)
  }

  /** Every queued row is due by `time`. */
  predicate DueBy(rows: map<string, Row>, time: int) {
    forall w :: w in rows && rows[w].status == Queued ==> rows[w].availableAt <= time
  }

  predicate AllTerminal(rows: map<string, Row>) {
    forall w :: w in rows ==> rows[w].Terminal()
  }

  /** The rows named by `ids` have succeeded, in order and ahead of everything still queued; the rest are untouched. */
  ghost predicate DrainedSoFar(start: map<string, Row>, rows: map<string, Row>, ids: seq<string>) {
    && rows.Keys == start.Keys
    && (forall i :: 0 <= i < |ids| ==> ids[i] in start)
    && Distinct(ids) && Ordered(start, ids)
    && (forall w :: w in start ==>
      if w in ids then start[w].status == Queued && rows[w].status == Succeeded else rows[w] == start[w])
    && (forall i, w :: 0 <= i < |ids| && w in rows && rows[w].status == Queued ==> Before(start[ids[i]], start[w]))
  }

  /** The next row has not been taken before, and comes after every row that has. */
  lemma NextComesAfter(start: map<string, Row>, t: Tables, ids: seq<string>, s: Settings, w: string, now: int)
    requires DrainedSoFar(start, t.rows, ids)
    requires w in t.rows && t.rows[w].status == Queued
    ensures w !in ids && start[w] == t.rows[w]
    ensures Distinct(ids + [w]) && Ordered(start, ids + [w])
  {
    forall i | 0 <= i < |ids|
      ensures ids[i] != w && Before(start[ids[i]], start[w])
    {
      assert ids[i] in ids;
    }
  }

  lemma DrainRound(start: map<string, Row>, t: Tables, t': Tables, ids: seq<string>,
                   s: Settings, w: string, outcome: Outcome, now: int, end: int)
    requires DrainedSoFar(start, t.rows, ids) && DueBy(t.rows, now)
    requires outcome.Produced? && Round(t, t', s, w, outcome, now, end)
    ensures DrainedSoFar(start, t'.rows, ids + [w])
  {
    NextComesAfter(start, t, ids, s, w, now);
    forall v | v in t'.rows && t'.rows[v].status == Queued
      ensures v !in ids && start[v] == t.rows[v] && Before(start[w], start[v])
    {
      assert v in Candidates(t, s, {}, now);
    }
  }

  lemma DrainIsSort(start: map<string, Row>, rows: map<string, Row>, ids: seq<string>)
    requires DrainedSoFar(start, rows, ids) && AllTerminal(rows)
    ensures IsSortOfQueued(start, ids)
    ensures forall w :: w in start && start[w].status == Queued ==> rows[w].status == Succeeded
  {
  }

  lemma NothingClaimable(t: Tables, s: Settings, now: int)
    requires Candidates(t, s, {}, now) == {} && Unleased(t.rows)
    ensures forall w :: w in t.rows && t.rows[w].status == Queued ==> t.rows[w].availableAt > now
    ensures DueBy(t.rows, now) ==> AllTerminal(t.rows)
  {
    forall w | w in t.rows && t.rows[w].status == Queued
      ensures t.rows[w].availableAt > now
    {
      assert w !in Candidates(t, s, {}, now);
    }
  }

  /**
   Where the loop stands: rounds are paid for by the budget; if every row was due within the retry delay
   (`soon`), every row still is; and when every item succeeds the drain is a sort so far.
   */
  ghost predicate Draining(start: map<string, Row>, rows: map<string, Row>, clock: int, ids: seq<string>,
                           s: Settings, soon: bool, succeeding: bool) {
    && |ids| + Budget(rows, s.maxAttempts) <= Budget(start, s.maxAttempts)
    && (soon ==> DueBy(rows, clock + s.retryDelay))
    && (succeeding ==> DrainedSoFar(start, rows, ids) && DueBy(rows, clock))
  }

  lemma RoundKeepsDraining(start: map<string, Row>, t: Tables, t': Tables, clock: int, ids: seq<string>, s: Settings,
                           w: string, outcome: Outcome, now: int, end: int, soon: bool, succeeding: bool)
    requires Draining(start, t.rows, clock, ids, s, soon, succeeding) && clock <= now <= end
    requires Round(t, t', s, w, outcome, now, end) && (succeeding ==> outcome.Produced?)
    ensures Draining(start, t'.rows, end, ids + [w], s, soon, succeeding)
  {
    if succeeding { DrainRound(start, t, t', ids, s, w, outcome, now, end); }
  }

  /** What an idle worker leaves behind. */
  ghost predicate LeftBehind(start: map<string, Row>, rows: map<string, Row>, clock: int, ids: seq<string>,
                          patient: bool, succeeding: bool) {
    && (forall w :: w in rows && !rows[w].Terminal() ==> rows[w].status == Queued && rows[w].availableAt > clock)
    && (patient ==> AllTerminal(rows))
    && (succeeding ==>
      && IsSortOfQueued(start, ids)
      && (forall w :: w in ids ==> w in rows && rows[w].status == Succeeded))
  }

  lemma IdleLeavesBehind(start: map<string, Row>, t: Tables, clock: int, ids: seq<string>, s: Settings,
                    soon: bool, patient: bool, succeeding: bool)
    requires Draining(start, t.rows, clock, ids, s, soon, succeeding)
    requires Candidates(t, s, {}, clock) == {} && Unleased(t.rows)
    requires patient ==> DueBy(t.rows, clock)
    ensures LeftBehind(start, t.rows, clock, ids, patient, succeeding)
  {
    NothingClaimable(t, s, clock);
    if succeeding { DrainIsSort(start, t.rows, ids); }
  }

  function WorkIds(results: seq<WorkerResult>): (ids: seq<string>)
    ensures |ids| == |results|
  {
    seq(|results|, i requires 0 <= i < |results| => results[i].workId)
  }

  /** The sleeps between the last idle polls outlast the retry delay, and no row had longer to wait. */
  ghost predicate Patient(rows: map<string, Row>, clock: int, s: Settings, maxIdlePolls: int, pollInterval: int) {
    (maxIdlePolls - 1) * pollInterval >= s.retryDelay && DueBy(rows, clock + s.retryDelay)
  }

  ghost predicate Succeeding(rows: map<string, Row>, clock: int, process: (WorkItem, nat) -> Outcome) {
    (forall x, n :: process(x, n).Produced?) && DueBy(rows, clock)
  }

  lemma NothingDrainedYet(rows: map<string, Row>, clock: int, s: Settings, process: (WorkItem, nat) -> Outcome)
    ensures Draining(rows, rows, clock, [], s, DueBy(rows, clock + s.retryDelay), Succeeding(rows, clock, process))
    ensures Accounts(rows, rows, [], process)
  {
  }

  lemma WorkIdsAppend(results: seq<WorkerResult>, result: WorkerResult)
    ensures WorkIds(results + [result]) == WorkIds(results) + [result.workId]
  {
  }

  /** Some result for the row is a success. */
  predicate Won(results: seq<WorkerResult>, w: string) {
    exists i :: 0 <= i < |results| && results[i].workId == w && results[i].outcome.Produced?
  }

  /**
   Each result is what processing made of its row's own item, and the rows that succeeded are those with
   a success.
   */
  ghost predicate Accounts(start: map<string, Row>, rows: map<string, Row>, results: seq<WorkerResult>,
                           process: (WorkItem, nat) -> Outcome) {
    && rows.Keys == start.Keys
    && (forall i :: 0 <= i < |results| ==>
      results[i].workId in start && IsReport(start[results[i].workId].payload, results[i], process, i))
    && (forall w :: w in start ==>
      && rows[w].payload == start[w].payload
      && (rows[w].status == Succeeded <==> start[w].status == Succeeded || Won(results, w)))
  }

  lemma WonAppend(results: seq<WorkerResult>, result: WorkerResult, w: string)
    ensures Won(results + [result], w) <==> Won(results, w) || (result.workId == w && result.outcome.Produced?)
  {
    if Won(results, w) {
      var i :| 0 <= i < |results| && results[i].workId == w && results[i].outcome.Produced?;
      assert (results + [result])[i] == results[i];
    }
    assert (results + [result])[|results|] == result;
  }

  lemma RoundKeepsAccounts(start: map<string, Row>, t: Tables, t': Tables, s: Settings, results: seq<WorkerResult>,
                           result: WorkerResult, now: int, end: int, process: (WorkItem, nat) -> Outcome)
    requires Accounts(start, t.rows, results, process)
    requires Round(t, t', s, result.workId, result.outcome, now, end)
    requires IsReport(t.rows[result.workId].payload, result, process, |results|)
    ensures Accounts(start, t'.rows, results + [result], process)
  {
    forall w | w in start
      ensures t'.rows[w].payload == start[w].payload
      ensures t'.rows[w].status == Succeeded <==> start[w].status == Succeeded || Won(results + [result], w)
    {
      WonAppend(results, result, w);
    }
  }

  /** No later result is for the same row. */
  predicate IsLatest(results: seq<WorkerResult>, i: nat)
    requires i < |results|
  {
    forall k :: i < k < |results| ==> results[k].workId != results[i].workId
  }

  /** The tables say what the result says. */
  ghost predicate OutcomeKept(t: Tables, r: WorkerResult, s: Settings) {
    && r.workId in t.rows && t.rows[r.workId].jobId == r.jobId && r.jobId in t.jobs
    && var row, job := t.rows[r.workId], t.jobs[r.jobId];
    match r.outcome
    case Produced(bundle) =>
      && row.status == Succeeded && job.status == Succeeded
      && r.jobId in t.results && t.results[r.jobId].bundle == bundle && t.results[r.jobId].documentId == r.documentId
    case Erred(error) =>
      && row.lastError == Some(error)
      && (row.status == Failed ==>
        && job.status == Failed && job.error == Some(error)
        && DeadLetter(r.workId, r.jobId, row.payload, error, row.attempts, s.workerId) in t.deadLetters)
  }

  /** Every translation is saved, and the last error of every row is kept. */
  ghost predicate OutcomesKept(t: Tables, results: seq<WorkerResult>, s: Settings) {
    forall i :: 0 <= i < |results| && (results[i].outcome.Produced? || IsLatest(results, i)) ==>
      OutcomeKept(t, results[i], s)
  }

  ghost predicate OneRowPerJob(t: Tables) {
    forall w, v :: SameJob(t, w, v) ==> w == v
  }

  lemma EveryJobHasOneRow(run: seq<Event>)
    requires ValidRun(run)
    ensures OneRowPerJob(Reach(run))
  {
    EveryRunIsSafe(run);
  }

  lemma RoundRecordsOutcome(t: Tables, t': Tables, s: Settings, r: WorkerResult, now: int, end: int)
    requires Round(t, t', s, r.workId, r.outcome, now, end) && Recorded(t, t', s, r, end)
    ensures OutcomeKept(t', r, s)
  {
    if r.outcome.Erred? && t'.rows[r.workId].status == Failed {
      assert t'.deadLetters[|t.deadLetters|] in t'.deadLetters;
    }
  }

  lemma RoundKeepsOutcome(t: Tables, t': Tables, s: Settings, earlier: WorkerResult, r: WorkerResult, now: int,
                          end: int)
    requires Round(t, t', s, r.workId, r.outcome, now, end) && Recorded(t, t', s, r, end)
    requires OneRowPerJob(t) && OutcomeKept(t, earlier, s) && earlier.workId != r.workId
    ensures OutcomeKept(t', earlier, s)
  {
    assert !SameJob(t, earlier.workId, r.workId);
    assert forall d :: d in t.deadLetters ==> d in t'.deadLetters;
  }

  lemma RoundKeepsOutcomes(t: Tables, t': Tables, s: Settings, results: seq<WorkerResult>, r: WorkerResult,
                           now: int, end: int)
    requires Round(t, t', s, r.workId, r.outcome, now, end) && Recorded(t, t', s, r, end)
    requires OneRowPerJob(t) && OutcomesKept(t, results, s)
    ensures OutcomesKept(t', results + [r], s)
  {
    var all := results + [r];
    forall i | 0 <= i < |all| && (all[i].outcome.Produced? || IsLatest(all, i))
      ensures OutcomeKept(t', all[i], s)
    {
      if i == |results| {
        RoundRecordsOutcome(t, t', s, r, now, end);
      } else {
        assert all[i] == results[i] && all[|results|] == r;
        if IsLatest(all, i) {
          assert IsLatest(results, i) by {
            assert forall k :: i < k < |results| ==> all[k] == results[k];
          }
        }
        RoundKeepsOutcome(t, t', s, results[i], r, now, end);
      }
    }
  }

  // ---------------------------------------------------------------- the loop

  /** A round that ended with this result, the `n`-th one. */
  ghost predicate Plays(t: Tables, t': Tables, s: Settings, process: (WorkItem, nat) -> Outcome, n: nat,
                        r: WorkerResult, now: int, end: int) {
    && OneRowPerJob(t)
    && Round(t, t', s, r.workId, r.outcome, now, end)
    && IsReport(t.rows[r.workId].payload, r, process, n)
    && Recorded(t, t', s, r, end)
  }

  /** What may hold of the tables, the time and the results so far. */
  type Pledge = (Tables, int, seq<WorkerResult>) -> bool

  /** Rounds and the passing of time keep it. */
  ghost predicate Lasting(pledge: Pledge, s: Settings, process: (WorkItem, nat) -> Outcome) {
    && (forall t, clock, rs, t', r, now, end
      {:trigger pledge(t, clock, rs), Plays(t, t', s, process, |rs|, r, now, end)} ::
      pledge(t, clock, rs) && clock <= now <= end && Plays(t, t', s, process, |rs|, r, now, end) ==>
        pledge(t', end, rs + [r]))
    && (forall t, clock, rs, later {:trigger pledge(t, clock, rs), pledge(t, later, rs)} ::
      pledge(t, clock, rs) && clock <= later ==> pledge(t, later, rs))
  }

  /** One turn of the polling loop, which either finds nothing to claim or takes one round. */
  method Turn(q: DurableQueue, s: Settings, process: (WorkItem, nat) -> Outcome, wait: nat, work: nat,
              results: seq<WorkerResult>, ghost pledge: Pledge)
      returns (result: Option<WorkerResult>)
    requires q.Valid() && Ready(q.run, q.State(), s)
    requires Lasting(pledge, s, process) && pledge(q.State(), q.clock, results)
    modifies q
    ensures q.Valid() && Ready(q.run, q.State(), s)
    ensures result.None? ==>
      && q.State() == old(q.State()) && q.clock == old(q.clock) + wait && Candidates(q.State(), s, {}, q.clock) == {}
      && pledge(q.State(), q.clock, results)
    ensures result.Some? ==>
      && Budget(q.State().rows, s.maxAttempts) < Budget(old(q.State()).rows, s.maxAttempts)
      && pledge(q.State(), q.clock, results + [result.value])
  {
    ghost var t, clock := q.State(), q.clock;
    EveryJobHasOneRow(q.run);
    result := RunOnce(q, s, process, |results|, wait, work);
    assert result.Some? ==> Plays(t, q.State(), s, process, |results|, result.value, clock + wait, q.clock);
  }

  lemma DueLater(rows: map<string, Row>, due: int, time: int)
    requires DueBy(rows, due) && due <= time
    ensures DueBy(rows, time)
  {
  }

  /** How long the worker has slept since the first of its last idle polls. */
  function Slept(idlePolls: nat, pollInterval: nat): nat {
    if idlePolls <= 1 then 0 else Slept(idlePolls - 1, pollInterval) + pollInterval
  }

  lemma {:induction false} SleptIs(idlePolls: nat, pollInterval: nat)
    requires idlePolls >= 1
    ensures Slept(idlePolls, pollInterval) == (idlePolls - 1) * pollInterval
  {
    if idlePolls > 1 {
      SleptIs(idlePolls - 1, pollInterval);
      assert (idlePolls - 1) * pollInterval == (idlePolls - 2) * pollInterval + pollInterval;
    }
  }

  /**
   The polling loop; it keeps whatever rounds keep. `idle` says that it was not cut short by the item limit;
   then every row that was due within the retry delay has had that delay less the sleeps between the last
   idle polls.
   */
  method Drain(q: DurableQueue, s: Settings, process: (WorkItem, nat) -> Outcome, wait: nat -> nat, work: nat -> nat,
               maxIdlePolls: nat, pollInterval: nat, maxItems: Option<nat>, ghost pledge: Pledge, ghost soon: bool)
      returns (results: seq<WorkerResult>, ghost idle: bool)
    requires q.Valid() && Ready(q.run, q.State(), s) && maxIdlePolls >= 1
    requires Lasting(pledge, s, process) && pledge(q.State(), q.clock, [])
    requires soon ==> forall t, clock, rs :: pledge(t, clock, rs) ==> DueBy(t.rows, clock + s.retryDelay)
    modifies q
    ensures q.Valid() && Ready(q.run, q.State(), s)
    ensures pledge(q.State(), q.clock, results)
    ensures idle ==> Candidates(q.State(), s, {}, q.clock) == {}
    ensures idle && soon ==> DueBy(q.State().rows, q.clock + s.retryDelay - Slept(maxIdlePolls, pollInterval))
    ensures !idle ==> maxItems.Some? && |results| >= maxItems.value
    ensures maxItems.Some? ==> |results| <= maxItems.value
  {
    results := [];
    var idlePolls, calls := 0, 0;
    ghost var due, slept := 0, 0;
    ghost var t, clock := q.State(), q.clock;
    while idlePolls < maxIdlePolls && !(maxItems.Some? && |results| >= maxItems.value)
      invariant q.Valid() && Ready(q.run, t, s) && q.State() == t && q.clock == clock
      invariant 0 <= idlePolls <= maxIdlePolls && (maxItems.Some? ==> |results| <= maxItems.value)
      invariant pledge(t, clock, results)
      invariant idlePolls > 0 ==> Candidates(t, s, {}, clock) == {}
      invariant idlePolls > 0 && soon ==> DueBy(t.rows, due)
      invariant idlePolls > 0 ==> due + slept <= clock + s.retryDelay && slept == Slept(idlePolls, pollInterval)
      decreases Budget(t.rows, s.maxAttempts), maxIdlePolls - idlePolls
    {
      var pause := if idlePolls > 0 then pollInterval else 0;
      var result := Turn(q, s, process, pause + wait(calls), work(calls), results, pledge);
      t, clock := q.State(), q.clock;
      if result.None? {
        if idlePolls == 0 { due := clock + s.retryDelay; }
        slept := if idlePolls == 0 then 0 else slept + pollInterval;
        idlePolls := idlePolls + 1;
      } else {
        results := results + [result.value];
        idlePolls := 0;
      }
      calls := calls + 1;
    }
    idle := idlePolls == maxIdlePolls;
    if idle && soon { DueLater(t.rows, due, clock + s.retryDelay - slept); }
  }

  /** What `run_until_idle` promises of the tables it started from, and of the results it has so far. */
  ghost predicate Promise(start: map<string, Row>, t: Tables, clock: int, results: seq<WorkerResult>, s: Settings,
                          process: (WorkItem, nat) -> Outcome, soon: bool, succeeding: bool) {
    && Draining(start, t.rows, clock, WorkIds(results), s, soon, succeeding)
    && Accounts(start, t.rows, results, process)
    && OutcomesKept(t, results, s)
  }

  lemma RoundKeepsPromise(start: map<string, Row>, t: Tables, clock: int, results: seq<WorkerResult>, s: Settings,
                          process: (WorkItem, nat) -> Outcome, soon: bool, succeeding: bool,
                          t': Tables, r: WorkerResult, now: int, end: int)
    requires Promise(start, t, clock, results, s, process, soon, succeeding) && clock <= now <= end
    requires Plays(t, t', s, process, |results|, r, now, end)
    requires succeeding ==> forall x, n :: process(x, n).Produced?
    ensures Promise(start, t', end, results + [r], s, process, soon, succeeding)
  {
    RoundKeepsDraining(start, t, t', clock, WorkIds(results), s, r.workId, r.outcome, now, end, soon, succeeding);
    WorkIdsAppend(results, r);
    RoundKeepsAccounts(start, t, t', s, results, r, now, end, process);
    RoundKeepsOutcomes(t, t', s, results, r, now, end);
  }

  lemma TimeKeepsPromise(start: map<string, Row>, t: Tables, clock: int, results: seq<WorkerResult>, s: Settings,
                         process: (WorkItem, nat) -> Outcome, soon: bool, succeeding: bool, later: int)
    requires Promise(start, t, clock, results, s, process, soon, succeeding) && clock <= later
    ensures Promise(start, t, later, results, s, process, soon, succeeding)
  {
  }

  lemma PromiseLasts(start: map<string, Row>, s: Settings, process: (WorkItem, nat) -> Outcome,
                     soon: bool, succeeding: bool)
    requires succeeding ==> forall x, n :: process(x, n).Produced?
    ensures Lasting((t, clock, rs) => Promise(start, t, clock, rs, s, process, soon, succeeding), s, process)
  {
    forall t, clock, rs, t', r, now, end
      {:trigger Promise(start, t, clock, rs, s, process, soon, succeeding),
                Plays(t, t', s, process, |rs|, r, now, end)} |
      && Promise(start, t, clock, rs, s, process, soon, succeeding) && clock <= now <= end
      && Plays(t, t', s, process, |rs|, r, now, end)
      ensures Promise(start, t', end, rs + [r], s, process, soon, succeeding)
    {
      RoundKeepsPromise(start, t, clock, rs, s, process, soon, succeeding, t', r, now, end);
    }
    forall t, clock, rs, later
      {:trigger Promise(start, t, clock, rs, s, process, soon, succeeding),
                Promise(start, t, later, rs, s, process, soon, succeeding)}
      | Promise(start, t, clock, rs, s, process, soon, succeeding) && clock <= later
      ensures Promise(start, t, later, rs, s, process, soon, succeeding)
    {
      TimeKeepsPromise(start, t, clock, rs, s, process, soon, succeeding, later);
    }
  }

  /** The polling loop with the promise of `run_until_idle`. */
  method DrainKeepingPromise(q: DurableQueue, s: Settings, process: (WorkItem, nat) -> Outcome, wait: nat -> nat,
                             work: nat -> nat, maxIdlePolls: nat, pollInterval: nat, maxItems: Option<nat>)
      returns (results: seq<WorkerResult>)
    requires q.Valid() && Ready(q.run, q.State(), s) && maxIdlePolls >= 1
    modifies q
    ensures q.Valid() && Ready(q.run, q.State(), s)
    ensures Promise(old(q.State()).rows, q.State(), q.clock, results, s, process,
      DueBy(old(q.State()).rows, old(q.clock) + s.retryDelay), Succeeding(old(q.State()).rows, old(q.clock), process))
    ensures maxItems.Some? ==> |results| <= maxItems.value
    ensures (maxItems.Some? ==> |results| < maxItems.value) ==>
      LeftBehind(old(q.State()).rows, q.State().rows, q.clock, WorkIds(results),
        Patient(old(q.State()).rows, old(q.clock), s, maxIdlePolls, pollInterval),
        Succeeding(old(q.State()).rows, old(q.clock), process))
  {
    ghost var start, clock := q.State().rows, q.clock;
    ghost var soon, succeeding := DueBy(start, clock + s.retryDelay), Succeeding(start, clock, process);
    NothingDrainedYet(start, clock, s, process);
    assert WorkIds([]) == [];
    ghost var pledge := (t: Tables, at: int, rs: seq<WorkerResult>) =>
      Promise(start, t, at, rs, s, process, soon, succeeding);
    PromiseLasts(start, s, process, soon, succeeding);
    ghost var idle;
    results, idle := Drain(q, s, process, wait, work, maxIdlePolls, pollInterval, maxItems, pledge, soon);
    if idle {
      SleptIs(maxIdlePolls, pollInterval);
      IdleLeavesBehind(start, q.State(), q.clock, WorkIds(results), s, soon,
        Patient(start, clock, s, maxIdlePolls, pollInterval), succeeding);
    }
  }

  /**
   `run_until_idle` on the durable queue. The sleep that follows an idle poll comes before the next poll;
   `wait` is whatever other time passes there.
   */
  method RunUntilIdle(q: DurableQueue, s: Settings, process: (WorkItem, nat) -> Outcome, wait: nat -> nat,
                      work: nat -> nat,
                      maxIdlePolls: int, pollInterval: int, maxItems: Option<int>)
      returns (r: Result<seq<WorkerResult>, ArgumentError>)
    requires q.Valid() && Ready(q.run, q.State(), s)
    modifies q
    ensures q.Valid() && Ready(q.run, q.State(), s)
    ensures r.Failure? <==> maxIdlePolls < 1 || pollInterval < 0 || (maxItems.Some? && maxItems.value < 1)
    ensures r.Failure? ==> q.State() == old(q.State())
    // Retries run out: no pattern of failures makes the worker take more rounds than the attempts left.
    ensures r.Success? ==> |r.value| <= Budget(old(q.State()).rows, s.maxAttempts)
    // The item limit is respected; when every item succeeds even a drain cut short is ahead of what is still queued.
    ensures r.Success? && maxItems.Some? ==> |r.value| <= maxItems.value
    ensures r.Success? && Succeeding(old(q.State()).rows, old(q.clock), process) ==>
      DrainedSoFar(old(q.State()).rows, q.State().rows, WorkIds(r.value))
    // Every result is what processing made of the item of its own row.
    ensures r.Success? ==> Accounts(old(q.State()).rows, q.State().rows, r.value, process)
    // Every translation is saved under its job, and the last error of every row is kept where it belongs.
    ensures r.Success? ==> OutcomesKept(q.State(), r.value, s)
    // Unless cut short, it leaves only finished rows and rows still waiting out a retry delay.
    ensures r.Success? && (maxItems.Some? ==> |r.value| < maxItems.value) ==>
      LeftBehind(old(q.State()).rows, q.State().rows, q.clock, WorkIds(r.value),
        Patient(old(q.State()).rows, old(q.clock), s, maxIdlePolls, pollInterval),
        Succeeding(old(q.State()).rows, old(q.clock), process))
  {
    if maxIdlePolls < 1 {
      r := Failure(ValueError("max_idle_polls"));
    } else if pollInterval < 0 {
      r := Failure(ValueError("poll_interval_seconds"));
    } else if maxItems.Some? && maxItems.value < 1 {
      r := Failure(ValueError("max_items"));
    } else {
      var limit: Option<nat> := if maxItems.Some? then Some(maxItems.value) else None;
      var results := DrainKeepingPromise(q, s, process, wait, work, maxIdlePolls, pollInterval, limit);
      r := Success(results);
    }
  }
}

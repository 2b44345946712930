/**
 The durable queue adapters of edc_translation/postgres_backend.py over tables updated in place.

 Each method is one transaction, run statement by statement with the rollback of the original. The
 ghost history `run` records the transactions, and `Valid` says that the tables are where that run
 leads; so whatever is proved of every run holds of every object at all times.
 */
module DurableQueues {
  import opened Wrappers
  import opened WorkItems
  import opened DurableTables
  import opened DurableSafety

  /** A nonempty set of rows has one that comes before all of them. */
  lemma {:induction false} SomeRowIsNext(t: Tables, ws: set<string>) returns (w: string)
    requires ws != {} && ws <= t.rows.Keys
    ensures w in ws && forall v :: v in ws ==> Before(t.rows[w], t.rows[v])
    decreases |ws|
  {
    var first :| first in ws;
    var rest := ws - {first};
    w := first;
    if rest != {} {
      var u := SomeRowIsNext(t, rest);
      if !Before(t.rows[first], t.rows[u]) { w := u; }
      forall v | v in ws
        ensures Before(t.rows[w], t.rows[v])
      {
        assert v == first || v in rest;
        assert v in rest ==> Before(t.rows[u], t.rows[v]);
      }
    } else {
      assert ws == {first};
    }
  }

  /** What a row has to wait for: its due time, or the end of its lease; for good when it is finished. */
  predicate MustWait(r: Row, timeout: int, now: int) {
    match r.status
    case Queued => r.availableAt > now
    case Running => r.lockedAt.Some? && r.lockedAt.value + timeout >= now
    case Succeeded => true
    case Failed => true
  }

  /** A poll that finds nothing has missed nothing: whoever locked them, all rows it may look at must wait. */
  lemma NothingFoundIff(t: Tables, s: Settings, skipped: set<string>, now: int)
    requires forall w :: w in t.rows ==> LockMatchesStatus(t.rows[w])
    ensures Candidates(t, s, skipped, now) == {} <==>
      forall w :: w in t.rows && w !in skipped ==> MustWait(t.rows[w], s.visibilityTimeout, now)
  {
    forall w | w in t.rows && w !in skipped
      ensures w in Candidates(t, s, skipped, now) <==> !MustWait(t.rows[w], s.visibilityTimeout, now)
    {
    }
  }

  /** The next row need not wait, and among those that need not it has the most priority, and of these is the oldest. */
  lemma NextRowIff(t: Tables, s: Settings, skipped: set<string>, now: int, w: string)
    requires forall v :: v in t.rows ==> LockMatchesStatus(t.rows[v])
    ensures IsNext(t, s, skipped, now, w) <==>
      && w in t.rows && w !in skipped && !MustWait(t.rows[w], s.visibilityTimeout, now)
      && forall v :: v in t.rows && v !in skipped && !MustWait(t.rows[v], s.visibilityTimeout, now) ==>
        && t.rows[w].priority >= t.rows[v].priority
        && (t.rows[w].priority == t.rows[v].priority ==> t.rows[w].createdAt <= t.rows[v].createdAt)
  {
    forall v | v in t.rows && v !in skipped
      ensures v in Candidates(t, s, skipped, now) <==> !MustWait(t.rows[v], s.visibilityTimeout, now)
    {
    }
  }

  lemma LocksMatch(run: seq<Event>)
    requires ValidRun(run)
    ensures forall w :: w in Reach(run).rows ==> LockMatchesStatus(Reach(run).rows[w])
  {
    EveryRunIsSafe(run);
    forall w | w in Reach(run).rows
      ensures LockMatchesStatus(Reach(run).rows[w])
    {
      assert RowAgrees(Reach(run), w);
    }
  }

  class DurableQueue {
    var jobs: map<string, Job>
    var rows: map<string, Row>
    var results: map<string, SavedResult>
    var deadLetters: seq<DeadLetter>
    var clock: int
    ghost var run: seq<Event>

    function State(): Tables
      reads this
    {
      Tables(jobs, rows, results, deadLetters)
    }

    ghost predicate Valid()
      reads this
    {
      && ValidRun(run)
      && State() == Reach(run)
      && (run != [] ==> run[|run| - 1].now <= clock)
    }

    constructor (start: int)
      ensures Valid() && run == [] && State() == EMPTY && clock == start
    {
      jobs, rows, results, deadLetters := map[], map[], map[], [];
      clock, run := start, [];
    }

    ghost method Record(e: Event)
      requires ValidRun(run) && Allowed(Reach(run), e) && State() == Apply(Reach(run), e)
      requires run != [] ==> run[|run| - 1].now <= e.now
      requires e.now == clock
      modifies this`run
      ensures Valid() && run == old(run) + [e]
    {
      RunExtends(run, e);
      run := run + [e];
    }

    // -------------------------------------------------------------- statements

    method InsertJob(item: WorkItem) returns (error: Option<QueueError>)
      requires item.Valid()
      modifies this`jobs
      ensures var r := DurableTables.InsertJob(old(State()), item);
        State() == OrElse(r, old(State())) && error == (if r.Success? then None else Some(r.error))
    {
      var j := item.ResolvedJobId();
      if j in jobs { return Some(DuplicateJob); }
      jobs := jobs[j := Job(item.DocumentId(), Queued, None, None, None)];
      error := None;
    }

    method EnqueueWork(item: WorkItem, now: int) returns (error: Option<QueueError>)
      requires item.Valid()
      modifies this`rows
      ensures var r := DurableTables.EnqueueWork(old(State()), item, now);
        State() == OrElse(r, old(State())) && error == (if r.Success? then None else Some(r.error))
    {
      var w, priority := item.ResolvedWorkId(), PriorityColumn(item.metadata.priority);
      if priority.Failure? { return Some(priority.error); }
      if w in rows { return Some(DuplicateWork); }
      if item.ResolvedJobId() !in jobs { return Some(UnknownJob); }
      rows := rows[w := Row(item.ResolvedJobId(), Queued, priority.value, now, None, None, 0,
        ToMessage(item).value, None, now)];
      error := None;
    }

    method SaveResult(item: WorkItem, bundle: Json) returns (error: Option<QueueError>)
      requires item.Valid()
      modifies this`results
      ensures var r := DurableTables.SaveResult(old(State()), item, bundle);
        State() == OrElse(r, old(State())) && error == (if r.Success? then None else Some(r.error))
    {
      var j := item.ResolvedJobId();
      if j !in jobs { return Some(UnknownJob); }
      results := results[j := SavedResult(item.DocumentId(), bundle, ResultRef(j))];
      error := None;
    }

    method MarkJobSucceeded(jobId: string, now: int)
      modifies this`jobs
      ensures State() == DurableTables.MarkJobSucceeded(old(State()), jobId, now)
    {
      if jobId in jobs {
        jobs := jobs[jobId := jobs[jobId].(
          status := Succeeded, completedAt := Some(now), error := None, resultRef := Some(ResultRef(jobId)))];
      }
    }

    method MarkWorkSucceeded(workId: string, workerId: string)
      modifies this`rows
      ensures State() == DurableTables.MarkWorkSucceeded(old(State()), workId, workerId)
    {
      if workId in rows && rows[workId].lockedBy == Some(workerId) {
        rows := rows[workId := rows[workId].(status := Succeeded, lockedBy := None, lockedAt := None)];
      }
    }

    /** Returns the row's new status, or None when the fence matched no row. */
    method MarkWorkFailed(workId: string, s: Settings, error: Json, now: int) returns (status: Option<Status>)
      modifies this`rows
      ensures State() == DurableTables.MarkWorkFailed(old(State()), workId, s, error, now)
      ensures status == if old(Holds(State(), workId, s.workerId)) then Some(State().rows[workId].status) else None
    {
      if workId !in rows || rows[workId].lockedBy != Some(s.workerId) { return None; }
      rows := rows[workId := FailRow(rows[workId], s, error, now)];
      status := Some(rows[workId].status);
    }

    method InsertDeadLetter(workId: string, error: Json, workerId: string)
      modifies this`deadLetters
      ensures State() == DurableTables.InsertDeadLetter(old(State()), workId, error, workerId)
    {
      if workId in rows {
        var r := rows[workId];
        deadLetters := deadLetters + [DeadLetter(workId, r.jobId, r.payload, error, r.attempts, workerId)];
      }
    }

    method MarkJobFailed(jobId: string, error: Json, now: int)
      modifies this`jobs
      ensures State() == DurableTables.MarkJobFailed(old(State()), jobId, error, now)
    {
      if jobId in jobs {
        jobs := jobs[jobId := jobs[jobId].(status := Failed, completedAt := Some(now), error := Some(error))];
      }
    }

    // -------------------------------------------------------------- transactions

    method Submit(item: WorkItem, now: int) returns (r: Result<string, QueueError>)
      requires Valid() && clock <= now
      modifies this
      ensures Valid() && clock == now && run == old(run) + [Event(now, OpSubmit(item))]
      ensures var t := DurableTables.Submit(old(State()), item, now);
        && State() == OrElse(t, old(State()))
        && r == (if t.Success? then Success(item.ResolvedJobId()) else Failure(t.error))
    {
      clock := now;
      if !item.Valid() {
        r := Failure(InvalidItem);
      } else {
        var savedJobs := jobs;
        var error := InsertJob(item);
        if error.None? {
          error := EnqueueWork(item, now);
          if error.Some? { jobs := savedJobs; }
        }
        r := if error.Some? then Failure(error.value) else Success(item.ResolvedJobId());
      }
      Record(Event(now, OpSubmit(item)));
    }

    /** Claims the next row not held by a concurrent transaction and decodes its payload. */
    method Poll(s: Settings, skipped: set<string>, now: int) returns (item: Option<WorkItem>, claimed: Option<string>)
      requires Valid() && clock <= now
      modifies this
      ensures Valid() && clock == now && run == old(run) + [Event(now, OpPoll(s, skipped, claimed))]
      ensures claimed.None? ==> Candidates(old(State()), s, skipped, now) == {} && State() == old(State()) && item.None?
      // Nothing is missed: all rows not skipped must wait, those this worker locked itself like any other.
      ensures claimed.None? ==>
        forall w :: w in rows && w !in skipped ==> MustWait(rows[w], s.visibilityTimeout, now)
      ensures claimed.Some? ==>
        && IsNext(old(State()), s, skipped, now, claimed.value)
        && State() == Claim(old(State()), s, claimed.value, now)
        // The row need not wait and comes first; the claim leases it to this worker and counts the attempt.
        && claimed.value in old(rows) && claimed.value !in skipped
        && !MustWait(old(rows)[claimed.value], s.visibilityTimeout, now)
        && (forall v :: v in old(rows) && v !in skipped && !MustWait(old(rows)[v], s.visibilityTimeout, now) ==>
          var a, b := old(rows)[claimed.value], old(rows)[v];
          a.priority >= b.priority && (a.priority == b.priority ==> a.createdAt <= b.createdAt))
        && rows == old(rows)[claimed.value := old(rows)[claimed.value].(
          status := Running, lockedBy := Some(s.workerId), lockedAt := Some(now),
          attempts := old(rows)[claimed.value].attempts + 1)]
        && item.Some? && item.value.Valid() && Coherent(State(), item.value)
        && FromMessage(old(State()).rows[claimed.value].payload) == Success(item.value)
        && item.value.ResolvedWorkId() == claimed.value
    {
      clock := now;
      LocksMatch(run);
      NothingFoundIff(State(), s, skipped, now);
      var candidates := Candidates(State(), s, skipped, now);
      if candidates == {} {
        item, claimed := None, None;
        Record(Event(now, OpPoll(s, skipped, None)));
        return;
      }
      ghost var next := SomeRowIsNext(State(), candidates);
      var w :| w in candidates && forall v :: v in candidates ==> Before(rows[w], rows[v]);
      NextRowIff(State(), s, skipped, now, w);
      EveryPolledItemIsCoherent(run, w);
      var decoded := FromMessage(rows[w].payload);
      rows := rows[w := ClaimRow(rows[w], s, now)];
      item, claimed := Some(decoded.value), Some(w);
      Record(Event(now, OpPoll(s, skipped, Some(w))));
    }

    /** Any item may be acked; the run goes on with those that do not pair two rows, as no polled item does. */
    method Ack(s: Settings, item: WorkItem, bundle: Option<Json>, now: int) returns (error: Option<QueueError>)
      requires Valid() && clock <= now
      modifies this
      ensures old(Coherent(State(), item)) ==> Valid() && run == old(run) + [Event(now, OpAck(s, item, bundle))]
      ensures !old(Coherent(State(), item)) ==> run == old(run)
      ensures clock == now
      ensures var t := DurableTables.Ack(old(State()), s, item, bundle, now);
        && State() == OrElse(t, old(State()))
        && error == (if t.Success? then None else Some(t.error))
    {
      clock := now;
      if bundle.None? {
        error := Some(MissingBundle);
      } else if !item.Valid() {
        error := Some(InvalidItem);
      } else {
        error := SaveResult(item, bundle.value);
        if error.None? {
          MarkJobSucceeded(item.ResolvedJobId(), now);
          MarkWorkSucceeded(item.ResolvedWorkId(), s.workerId);
        }
      }
      if old(Coherent(State(), item)) { Record(Event(now, OpAck(s, item, bundle))); }
    }

    method Nack(s: Settings, item: WorkItem, cause: Json, now: int) returns (error: Option<QueueError>)
      requires Valid() && clock <= now
      modifies this
      ensures old(Coherent(State(), item)) ==> Valid() && run == old(run) + [Event(now, OpNack(s, item, cause))]
      ensures !old(Coherent(State(), item)) ==> run == old(run)
      ensures clock == now
      ensures var t := DurableTables.Nack(old(State()), s, item, cause, now);
        && State() == OrElse(t, old(State()))
        && error == (if t.Success? then None else Some(t.error))
    {
      clock := now;
      error := None;
      if !item.HasWorkId() {
        error := Some(InvalidItem);
      } else {
        var savedRows, savedLetters := rows, deadLetters;
        var status := MarkWorkFailed(item.ResolvedWorkId(), s, cause, now);
        if status == Some(Failed) {
          InsertDeadLetter(item.ResolvedWorkId(), cause, s.workerId);
          if item.HasJobId() {
            MarkJobFailed(item.ResolvedJobId(), cause, now);
          } else {
            rows, deadLetters, error := savedRows, savedLetters, Some(InvalidItem);
          }
        }
      }
      if old(Coherent(State(), item)) { Record(Event(now, OpNack(s, item, cause))); }
    }
  }
}

/** Safety of the durable queue over every interleaving of its transactions, stale workers included. */
module DurableSafety {
  import opened Wrappers
  import opened WorkItems
  import opened DurableTables

  function DeadCount(letters: seq<DeadLetter>, w: string): nat {
    if letters == [] then 0 else
    DeadCount(letters[..|letters| - 1], w) + (if letters[|letters| - 1].workId == w then 1 else 0)
  }

  lemma DeadCountAppend(letters: seq<DeadLetter>, d: DeadLetter, w: string)
    ensures DeadCount(letters + [d], w) == DeadCount(letters, w) + (if d.workId == w then 1 else 0)
  {
    assert (letters + [d])[..|letters|] == letters;
  }

  predicate SameJob(t: Tables, w: string, v: string) {
    w in t.rows && v in t.rows && t.rows[w].jobId == t.rows[v].jobId
  }

  predicate LockMatchesStatus(r: Row) {
    && (r.status == Running <==> r.lockedBy.Some?)
    && (r.status == Running <==> r.lockedAt.Some?)
  }

  /** What the job, the saved result and the dead letters say about the job of row `w`. */
  predicate JobAgrees(t: Tables, w: string)
    requires w in t.rows
  {
    var r := t.rows[w];
    && r.jobId in t.jobs
    && var j := t.jobs[r.jobId];
    && (r.status == Succeeded ==> j.status == Succeeded)
    && (j.status == Failed ==> r.status == Failed)
    && (r.status == Failed ==> j.status != Queued)
    && j.status != Running
    && (j.status == Succeeded ==> r.jobId in t.results)
    && (j.status == Queued ==> r.jobId !in t.results)
    && (j.completedAt.Some? <==> j.status != Queued)
  }

  predicate RowAgrees(t: Tables, w: string)
    requires w in t.rows
  {
    LockMatchesStatus(t.rows[w]) && JobAgrees(t, w)
  }

  /** A row is failed exactly when it has one dead letter; no other work id has any. */
  predicate LettersAgree(t: Tables, w: string) {
    DeadCount(t.deadLetters, w) == (if w in t.rows && t.rows[w].status == Failed then 1 else 0)
  }

  ghost predicate Inv(t: Tables) {
    && (forall w, v :: SameJob(t, w, v) ==> w == v)
    && (forall w :: w in t.rows ==> RowAgrees(t, w))
    && (forall w :: LettersAgree(t, w))
    && t.results.Keys <= t.jobs.Keys
  }

  lemma SubmitKeepsInv(t: Tables, item: WorkItem, now: int)
    requires Inv(t) && Submit(t, item, now).Success?
    ensures Inv(Submit(t, item, now).value)
  {
    var t' := Submit(t, item, now).value;
    var j, w := item.ResolvedJobId(), item.ResolvedWorkId();
    forall v | v in t'.rows
      ensures RowAgrees(t', v)
    {
      if v != w { assert RowAgrees(t, v); }
    }
    forall v
      ensures LettersAgree(t', v)
    {
      assert LettersAgree(t, v);
    }
    forall a, b | SameJob(t', a, b)
      ensures a == b
    {
      assert a != w ==> RowAgrees(t, a);
      assert b != w ==> RowAgrees(t, b);
      if a != w && b != w { assert SameJob(t, a, b); }
    }
  }

  /** Claims, acks and nacks move no row to another job. */
  predicate SameJobs(t: Tables, t': Tables) {
    && t'.rows.Keys == t.rows.Keys
    && (forall w :: w in t.rows ==> t'.rows[w].jobId == t.rows[w].jobId)
  }

  lemma SameJobsKeepsOneRowPerJob(t: Tables, t': Tables)
    requires forall w, v :: SameJob(t, w, v) ==> w == v
    requires SameJobs(t, t')
    ensures forall w, v :: SameJob(t', w, v) ==> w == v
  {
    forall w, v | SameJob(t', w, v)
      ensures w == v
    {
      assert SameJob(t, w, v);
    }
  }

  lemma ClaimKeepsInv(t: Tables, s: Settings, w: string, now: int)
    requires Inv(t) && w in t.rows && !t.rows[w].Terminal()
    ensures Inv(Claim(t, s, w, now))
  {
    var t' := Claim(t, s, w, now);
    forall v | v in t'.rows
      ensures RowAgrees(t', v)
    {
      assert RowAgrees(t, v);
    }
    forall v
      ensures LettersAgree(t', v)
    {
      assert LettersAgree(t, v);
    }
    SameJobsKeepsOneRowPerJob(t, t');
  }

  /** The nack fails its row for good. */
  predicate Buries(t: Tables, s: Settings, item: WorkItem) {
    && item.HasWorkId() && item.HasJobId() && Holds(t, item.ResolvedWorkId(), s.workerId)
    && t.rows[item.ResolvedWorkId()].attempts >= s.maxAttempts
  }

  /** The nack puts its row back in the queue. */
  predicate Requeues(t: Tables, s: Settings, item: WorkItem) {
    && item.HasWorkId() && Holds(t, item.ResolvedWorkId(), s.workerId)
    && t.rows[item.ResolvedWorkId()].attempts < s.maxAttempts
  }

  function LetterOf(t: Tables, s: Settings, item: WorkItem, error: Json): DeadLetter
    requires Buries(t, s, item)
  {
    var w := item.ResolvedWorkId();
    DeadLetter(w, t.rows[w].jobId, t.rows[w].payload, error, t.rows[w].attempts, s.workerId)
  }

  /** A nack that buries fails its row, adds one letter and fails the job; one that requeues changes only its row. */
  lemma NackOutcome(t: Tables, s: Settings, item: WorkItem, error: Json, now: int)
    ensures var t' := OrElse(Nack(t, s, item, error, now), t);
      if Buries(t, s, item) then
        var w := item.ResolvedWorkId();
        && t'.rows == t.rows[w := FailRow(t.rows[w], s, error, now)] && t'.rows[w].status == Failed
        && t'.deadLetters == t.deadLetters + [LetterOf(t, s, item, error)]
        && t'.jobs == MarkJobFailed(t, item.ResolvedJobId(), error, now).jobs
        && t'.results == t.results
      else if Requeues(t, s, item) then
        var w := item.ResolvedWorkId();
        t' == t.(rows := t.rows[w := FailRow(t.rows[w], s, error, now)]) && t'.rows[w].status == Queued
      else t' == t
  {
  }

  // ---------------------------------------------------------------- items that pair two rows

  /** The ack ends another job's row without that job having succeeded. */
  predicate AckCrosses(t: Tables, s: Settings, item: WorkItem) {
    && item.Valid()
    && var j, w := item.ResolvedJobId(), item.ResolvedWorkId();
    && j in t.jobs && Holds(t, w, s.workerId) && t.rows[w].jobId != j
    && t.rows[w].jobId in t.jobs && t.jobs[t.rows[w].jobId].status != Succeeded
  }

  lemma AckRow(t: Tables, s: Settings, item: WorkItem, bundle: Json, now: int, v: string)
    requires Ack(t, s, item, Some(bundle), now).Success?
    requires v in t.rows && RowAgrees(t, v)
    requires v != item.ResolvedWorkId() || !AckCrosses(t, s, item)
    requires t.rows[v].jobId == item.ResolvedJobId() && v != item.ResolvedWorkId() && item.ResolvedWorkId() in t.rows
      ==> t.rows[item.ResolvedWorkId()].jobId != item.ResolvedJobId()
    ensures RowAgrees(Ack(t, s, item, Some(bundle), now).value, v)
  {
  }

  /** For an item of any origin, an ack keeps the invariant exactly when it does not cross over to another job's row. */
  lemma AckKeepsInvIff(t: Tables, s: Settings, item: WorkItem, bundle: Json, now: int)
    requires Inv(t)
    ensures Inv(OrElse(Ack(t, s, item, Some(bundle), now), t)) <==> !AckCrosses(t, s, item)
  {
    var r := Ack(t, s, item, Some(bundle), now);
    if r.Success? {
      var w := item.ResolvedWorkId();
      assert w in t.rows ==> RowAgrees(t, w);
      if AckCrosses(t, s, item) {
        assert !RowAgrees(r.value, w);
      } else {
        forall v | v in r.value.rows
          ensures RowAgrees(r.value, v)
        {
          assert RowAgrees(t, v);
          assert v != w ==> !SameJob(t, v, w);
          AckRow(t, s, item, bundle, now, v);
        }
        forall v
          ensures LettersAgree(r.value, v)
        {
          assert LettersAgree(t, v);
        }
        SameJobsKeepsOneRowPerJob(t, r.value);
      }
    }
  }

  /**
   The nack buries a row and fails another job: the row's own job has not ended, or the other job's row has
   not failed.
   */
  ghost predicate NackCrosses(t: Tables, s: Settings, item: WorkItem) {
    && Buries(t, s, item)
    && var j, w := item.ResolvedJobId(), item.ResolvedWorkId();
    && t.rows[w].jobId != j
    && ((t.rows[w].jobId in t.jobs && t.jobs[t.rows[w].jobId].status == Queued)
        || exists v :: v in t.rows && j in t.jobs && t.rows[v].jobId == j && t.rows[v].status != Failed)
  }

  lemma NackRow(t: Tables, s: Settings, item: WorkItem, error: Json, now: int, v: string)
    requires v in t.rows && RowAgrees(t, v) && !NackCrosses(t, s, item)
    requires Buries(t, s, item) && v != item.ResolvedWorkId() ==> !SameJob(t, v, item.ResolvedWorkId())
    ensures var t' := OrElse(Nack(t, s, item, error, now), t); v in t'.rows && RowAgrees(t', v)
  {
    NackOutcome(t, s, item, error, now);
  }

  lemma NackLetters(t: Tables, s: Settings, item: WorkItem, error: Json, now: int, v: string)
    requires LettersAgree(t, v)
    requires v in t.rows ==> RowAgrees(t, v)
    ensures LettersAgree(OrElse(Nack(t, s, item, error, now), t), v)
  {
    NackOutcome(t, s, item, error, now);
    if Buries(t, s, item) {
      DeadCountAppend(t.deadLetters, LetterOf(t, s, item, error), v);
    } else if Requeues(t, s, item) {
      assert v in t.rows && v == item.ResolvedWorkId() ==> t.rows[v].status == Running;
    }
  }

  /** The same of a nack. */
  lemma NackKeepsInvIff(t: Tables, s: Settings, item: WorkItem, error: Json, now: int)
    requires Inv(t)
    ensures Inv(OrElse(Nack(t, s, item, error, now), t)) <==> !NackCrosses(t, s, item)
  {
    var t' := OrElse(Nack(t, s, item, error, now), t);
    NackOutcome(t, s, item, error, now);
    if NackCrosses(t, s, item) {
      var j, w := item.ResolvedJobId(), item.ResolvedWorkId();
      assert RowAgrees(t, w);
      if t.jobs[t.rows[w].jobId].status == Queued {
        assert !RowAgrees(t', w);
      } else {
        var v :| v in t.rows && j in t.jobs && t.rows[v].jobId == j && t.rows[v].status != Failed;
        assert !RowAgrees(t', v);
      }
    } else {
      forall v | v in t'.rows
        ensures RowAgrees(t', v)
      {
        assert RowAgrees(t, v);
        assert Buries(t, s, item) && v != item.ResolvedWorkId() ==> !SameJob(t, v, item.ResolvedWorkId());
        NackRow(t, s, item, error, now, v);
      }
      forall v
        ensures LettersAgree(t', v)
      {
        assert LettersAgree(t, v);
        assert v in t.rows ==> RowAgrees(t, v);
        NackLetters(t, s, item, error, now, v);
      }
      SameJobsKeepsOneRowPerJob(t, t');
    }
  }

  lemma AckKeepsInv(t: Tables, s: Settings, item: WorkItem, bundle: Option<Json>, now: int)
    requires Inv(t) && Coherent(t, item) && Ack(t, s, item, bundle, now).Success?
    ensures Inv(Ack(t, s, item, bundle, now).value)
  {
    AckKeepsInvIff(t, s, item, bundle.value, now);
  }

  lemma NackKeepsInv(t: Tables, s: Settings, item: WorkItem, error: Json, now: int)
    requires Inv(t) && Coherent(t, item)
    ensures Inv(OrElse(Nack(t, s, item, error, now), t))
  {
    NackKeepsInvIff(t, s, item, error, now);
  }

  // ---------------------------------------------------------------- every run

  lemma StepKeepsInv(t: Tables, e: Event)
    requires Inv(t) && Allowed(t, e)
    ensures Inv(Apply(t, e))
  {
    match e.op
    case OpSubmit(item) => if Submit(t, item, e.now).Success? { SubmitKeepsInv(t, item, e.now); }
    case OpPoll(s, _, pick) => if pick.Some? { ClaimKeepsInv(t, s, pick.value, e.now); }
    case OpAck(s, item, bundle) =>
      if Ack(t, s, item, bundle, e.now).Success? { AckKeepsInv(t, s, item, bundle, e.now); }
    case OpNack(s, item, error) => NackKeepsInv(t, s, item, error, e.now);
  }

  /** Main result: the invariant holds in every state any run reaches. */
  lemma {:induction false} EveryRunIsSafe(run: seq<Event>)
    requires ValidRun(run)
    ensures Inv(Reach(run))
  {
    if run != [] {
      EveryRunIsSafe(run[..|run| - 1]);
      StepKeepsInv(Reach(run[..|run| - 1]), run[|run| - 1]);
    }
  }

  /** The payload of row `w` decodes to an item with the row's own work and job ids. */
  predicate PayloadAgrees(w: string, jobId: string, payload: Message) {
    var d := FromMessage(payload);
    && d.Success? && d.value.Valid()
    && d.value.ResolvedWorkId() == w
    && d.value.ResolvedJobId() == jobId
  }

  ghost predicate PayloadsAgree(t: Tables) {
    forall w :: w in t.rows ==> PayloadAgrees(w, t.rows[w].jobId, t.rows[w].payload)
  }

  lemma SubmittedPayloadAgrees(item: WorkItem)
    requires item.Valid()
    ensures PayloadAgrees(item.ResolvedWorkId(), item.ResolvedJobId(), ToMessage(item).value)
  {
    MessageRoundTrip(item);
  }

  /** What a step leaves of a row that was there before: its job and its payload. */
  predicate KeepsIdentity(t: Tables, t': Tables, w: string) {
    w in t.rows ==> w in t'.rows && t'.rows[w].jobId == t.rows[w].jobId && t'.rows[w].payload == t.rows[w].payload
  }

  lemma StepKeepsIdentity(t: Tables, e: Event, w: string)
    requires Allowed(t, e)
    ensures KeepsIdentity(t, Apply(t, e), w)
    ensures w in Apply(t, e).rows && w !in t.rows ==>
      && e.op.OpSubmit? && e.op.item.Valid() && w == e.op.item.ResolvedWorkId()
      && Apply(t, e).rows[w].jobId == e.op.item.ResolvedJobId()
      && ToMessage(e.op.item) == Success(Apply(t, e).rows[w].payload)
  {
  }

  lemma StepKeepsPayloads(t: Tables, e: Event)
    requires Allowed(t, e) && PayloadsAgree(t)
    ensures PayloadsAgree(Apply(t, e))
  {
    var t' := Apply(t, e);
    forall w | w in t'.rows
      ensures PayloadAgrees(w, t'.rows[w].jobId, t'.rows[w].payload)
    {
      StepKeepsIdentity(t, e, w);
      if w !in t.rows { SubmittedPayloadAgrees(e.op.item); }
    }
  }

  lemma {:induction false} EveryPayloadAgrees(run: seq<Event>)
    requires ValidRun(run)
    ensures PayloadsAgree(Reach(run))
  {
    if run != [] {
      EveryPayloadAgrees(run[..|run| - 1]);
      StepKeepsPayloads(Reach(run[..|run| - 1]), run[|run| - 1]);
    }
  }

  /** So what a poll hands out is always an item its own row answers to. */
  lemma EveryPolledItemIsCoherent(run: seq<Event>, w: string)
    requires ValidRun(run) && w in Reach(run).rows
    ensures var r := Reach(run).rows[w];
      && FromMessage(r.payload).Success?
      && FromMessage(r.payload).value.Valid() && Coherent(Reach(run), FromMessage(r.payload).value)
      && FromMessage(r.payload).value.ResolvedWorkId() == w
      && FromMessage(r.payload).value.ResolvedJobId() == r.jobId
  {
    EveryPayloadAgrees(run);
    assert PayloadAgrees(w, Reach(run).rows[w].jobId, Reach(run).rows[w].payload);
  }

  function JobIds(rows: map<string, Row>): set<string> {
    set w | w in rows :: rows[w].jobId
  }

  lemma SameJobIds(rows: map<string, Row>, rows': map<string, Row>)
    requires rows.Keys == rows'.Keys && forall w :: w in rows ==> rows[w].jobId == rows'[w].jobId
    ensures JobIds(rows) == JobIds(rows')
  {
    forall j
      ensures j in JobIds(rows) <==> j in JobIds(rows')
    {
      if j in JobIds(rows) {
        var w :| w in rows && rows[w].jobId == j;
        assert rows'[w].jobId == j;
      }
      if j in JobIds(rows') {
        var w :| w in rows' && rows'[w].jobId == j;
        assert rows[w].jobId == j;
      }
    }
  }

  lemma MoreJobIds(rows: map<string, Row>, w: string, r: Row)
    requires w !in rows
    ensures JobIds(rows[w := r]) == JobIds(rows) + {r.jobId}
  {
    var rows' := rows[w := r];
    forall j
      ensures j in JobIds(rows') <==> j in JobIds(rows) + {r.jobId}
    {
      if j in JobIds(rows) {
        var v :| v in rows && rows[v].jobId == j;
        assert rows'[v].jobId == j;
      }
      assert w in rows' && rows'[w].jobId == r.jobId;
    }
  }

  lemma SubmitKeepsJobIds(t: Tables, item: WorkItem, now: int)
    requires t.jobs.Keys == JobIds(t.rows) && Submit(t, item, now).Success?
    ensures var t' := Submit(t, item, now).value; t'.jobs.Keys == JobIds(t'.rows)
  {
    var t', w := Submit(t, item, now).value, item.ResolvedWorkId();
    MoreJobIds(t.rows, w, t'.rows[w]);
    assert t'.jobs.Keys == t.jobs.Keys + {item.ResolvedJobId()};
  }

  lemma StepKeepsJobIds(t: Tables, e: Event)
    requires Allowed(t, e) && t.jobs.Keys == JobIds(t.rows)
    ensures Apply(t, e).jobs.Keys == JobIds(Apply(t, e).rows)
  {
    match e.op
    case OpSubmit(item) => if Submit(t, item, e.now).Success? { SubmitKeepsJobIds(t, item, e.now); }
    case OpPoll(_, _, _) => SameJobIds(t.rows, Apply(t, e).rows);
    case OpAck(_, _, _) => SameJobIds(t.rows, Apply(t, e).rows);
    case OpNack(_, _, _) => SameJobIds(t.rows, Apply(t, e).rows);
  }

  /** No transaction leaves a job without a work row: with one row per job, a one-to-one correspondence. */
  lemma {:induction false} EveryJobHasItsRow(run: seq<Event>)
    requires ValidRun(run)
    ensures Reach(run).jobs.Keys == JobIds(Reach(run).rows)
  {
    if run != [] {
      EveryJobHasItsRow(run[..|run| - 1]);
      StepKeepsJobIds(Reach(run[..|run| - 1]), run[|run| - 1]);
    }
  }
}

/** What the tables say in every run: whose work a row is, what a job's columns mean, what a dead letter holds. */
module DurableContents {
  import opened Wrappers
  import opened WorkItems
  import opened DurableTables
  import opened DurableSafety
  import opened DurableAccounting

  // ---------------------------------------------------------------- rows

  /** The row carries what this submit asked for. */
  predicate SubmittedBy(w: string, r: Row, e: Event) {
    && e.op.OpSubmit? && e.op.item.Valid()
    && w == e.op.item.ResolvedWorkId()
    && r.jobId == e.op.item.ResolvedJobId()
    && ToMessage(e.op.item) == Success(r.payload)
    && r.createdAt == e.now
    && match e.op.item.metadata.priority
       case Unset => r.priority == 0
       case Parsed(n) => r.priority == n
       case Unparsable => false
  }

  lemma CreatedRow(t: Tables, e: Event, w: string)
    requires Allowed(t, e) && ChangeOf(t, e, w) == Created
    ensures w in Apply(t, e).rows && SubmittedBy(w, Apply(t, e).rows[w], e)
  {
  }

  lemma SameOrderSameSubmit(w: string, r: Row, r': Row, e: Event)
    requires SubmittedBy(w, r, e) && SameOrder(r, r')
    ensures SubmittedBy(w, r', e)
  {
  }

  /** The job of row `w` is there, and names the document of the item it was submitted with. */
  predicate NamesDocument(t: Tables, w: string, item: WorkItem) {
    && w in t.rows && item.Valid()
    && t.rows[w].jobId in t.jobs && t.jobs[t.rows[w].jobId].documentId == item.DocumentId()
  }

  lemma StepKeepsDocument(t: Tables, e: Event, w: string, item: WorkItem)
    requires Allowed(t, e) && NamesDocument(t, w, item)
    ensures NamesDocument(Apply(t, e), w, item)
  {
  }

  /**
   Every row is the work of one submit of the run, and claims, acks and nacks alter nothing of what it asked
   for; its job names the document of that submit.
   */
  lemma {:induction false} EveryRowHasItsSubmit(run: seq<Event>, w: string) returns (i: nat)
    requires ValidRun(run) && w in Reach(run).rows
    ensures i < |run| && SubmittedBy(w, Reach(run).rows[w], run[i])
    ensures NamesDocument(Reach(run), w, run[i].op.item)
  {
    var before, e := run[..|run| - 1], run[|run| - 1];
    EveryRunIsSafe(before);
    RowStep(Reach(before), e, w);
    if w in Reach(before).rows {
      i := EveryRowHasItsSubmit(before, w);
      SameOrderSameSubmit(w, Reach(before).rows[w], Reach(run).rows[w], run[i]);
      StepKeepsDocument(Reach(before), e, w, run[i].op.item);
    } else {
      i := |run| - 1;
      CreatedRow(Reach(before), e, w);
    }
  }

  // ---------------------------------------------------------------- failures

  /** The last nack of the run that changed the row. */
  function LastFailure(run: seq<Event>, w: string): Option<Event>
    requires ValidRun(run)
  {
    if run == [] then None else
    var before, e := run[..|run| - 1], run[|run| - 1];
    if ChangeOf(Reach(before), e, w) in {Requeued, Buried} then Some(e) else LastFailure(before, w)
  }

  /** What that nack leaves of itself: its error, and when the row is due, or for good when it failed. */
  predicate Remembers(r: Row, failure: Option<Event>) {
    if failure.None? then r.lastError.None? && r.status != Failed && r.availableAt == r.createdAt
    else
      && failure.value.op.OpNack? && r.lastError == Some(failure.value.op.error)
      && r.availableAt ==
        failure.value.now + (if r.status == Failed then 0 else failure.value.op.settings.retryDelay)
  }

  /** What only nacks and submits write. */
  predicate SameMemory(r: Row, r': Row) {
    && r'.lastError == r.lastError && r'.availableAt == r.availableAt && r'.createdAt == r.createdAt
    && (r'.status == Failed <==> r.status == Failed)
  }

  lemma QuietStep(t: Tables, e: Event, w: string)
    requires Allowed(t, e) && Inv(t) && w in t.rows && !e.op.OpNack?
    ensures w in Apply(t, e).rows && SameMemory(t.rows[w], Apply(t, e).rows[w])
  {
    assert RowAgrees(t, w);
  }

  lemma NewRowRemembersNothing(t: Tables, e: Event, w: string)
    requires Allowed(t, e) && w !in t.rows && w in Apply(t, e).rows
    ensures e.op.OpSubmit? && Remembers(Apply(t, e).rows[w], None)
  {
  }

  lemma NackIsRemembered(t: Tables, e: Event, w: string, failure: Option<Event>)
    requires Allowed(t, e) && w in t.rows && e.op.OpNack? && Remembers(t.rows[w], failure)
    ensures w in Apply(t, e).rows
    ensures Remembers(Apply(t, e).rows[w], if ChangeOf(t, e, w) in {Requeued, Buried} then Some(e) else failure)
  {
    NackOutcome(t, e.op.settings, e.op.item, e.op.error, e.now);
  }

  /** A row's last error and due time are those of the last nack that changed it; before any, it is due at once. */
  lemma {:induction false} LastFailureIsRemembered(run: seq<Event>, w: string)
    requires ValidRun(run)
    ensures w in Reach(run).rows ==> Remembers(Reach(run).rows[w], LastFailure(run, w))
    ensures w !in Reach(run).rows ==> LastFailure(run, w).None?
  {
    if run != [] {
      var before, e := run[..|run| - 1], run[|run| - 1];
      LastFailureIsRemembered(before, w);
      EveryRunIsSafe(before);
      if w in Reach(before).rows {
        if e.op.OpNack? { NackIsRemembered(Reach(before), e, w, LastFailure(before, w)); }
        else { QuietStep(Reach(before), e, w); }
      } else if w in Reach(run).rows {
        NewRowRemembersNothing(Reach(before), e, w);
      } else {
        RowStep(Reach(before), e, w);
      }
    }
  }

  // ---------------------------------------------------------------- leases

  /** The worker that claimed the row last. */
  function LastClaimant(run: seq<Event>, w: string): Option<string>
    requires ValidRun(run)
  {
    if run == [] then None else
    var before, e := run[..|run| - 1], run[|run| - 1];
    if ChangeOf(Reach(before), e, w) in {Claimed, Reclaimed} && e.op.OpPoll? then Some(e.op.settings.workerId)
    else LastClaimant(before, w)
  }

  /** A running row is locked by the worker that claimed it last, and by no other. */
  lemma {:induction false} LockIsTheLastClaimants(run: seq<Event>, w: string)
    requires ValidRun(run) && w in Reach(run).rows && Reach(run).rows[w].status == Running
    ensures LastClaimant(run, w).Some? && Reach(run).rows[w].lockedBy == LastClaimant(run, w)
  {
    var before, e := run[..|run| - 1], run[|run| - 1];
    EveryRunIsSafe(before);
    RowStep(Reach(before), e, w);
    if w in Reach(before).rows && Reach(before).rows[w].status == Running {
      LockIsTheLastClaimants(before, w);
    }
  }

  /** The transaction goes through: an ack or nack that is not rolled back. */
  predicate Commits(t: Tables, e: Event) {
    match e.op
    case OpAck(s, item, bundle) => Ack(t, s, item, bundle, e.now).Success?
    case OpNack(s, item, error) => Nack(t, s, item, error, e.now).Success?
    case _ => false
  }

  /**
   The fence: an ack or nack that goes through changes a row exactly when the row is running and the worker
   is its last claimant.
   */
  lemma FenceIsTheLease(run: seq<Event>, e: Event, w: string)
    requires ValidRun(run) && Allowed(Reach(run), e) && w in Reach(run).rows
    requires Commits(Reach(run), e)
    requires e.op.item.HasWorkId() && e.op.item.ResolvedWorkId() == w
    ensures ChangeOf(Reach(run), e, w) != Same <==>
      Reach(run).rows[w].status == Running && LastClaimant(run, w) == Some(e.op.settings.workerId)
    ensures ChangeOf(Reach(run), e, w) != Same <==> Apply(Reach(run), e).rows[w] != Reach(run).rows[w]
  {
    EveryRunIsSafe(run);
    assert RowAgrees(Reach(run), w);
    RowStep(Reach(run), e, w);
    if Reach(run).rows[w].status == Running { LockIsTheLastClaimants(run, w); }
  }

  // ---------------------------------------------------------------- jobs

  /** The transaction acks the job, or fails it for good. */
  predicate Settles(t: Tables, e: Event, j: string)
    requires Allowed(t, e)
  {
    match e.op
    case OpAck(_, item, bundle) => bundle.Some? && item.Valid() && item.ResolvedJobId() == j && j in t.jobs
    case OpNack(s, item, _) => Buries(t, s, item) && item.ResolvedJobId() == j
    case _ => false
  }

  /** The last transaction of the run that settled the job; with `acks`, the last that acked it. */
  function LastWord(run: seq<Event>, j: string, acks: bool): Option<Event>
    requires ValidRun(run)
  {
    if run == [] then None else
    var before, e := run[..|run| - 1], run[|run| - 1];
    if Settles(Reach(before), e, j) && (acks ==> e.op.OpAck?) then Some(e) else LastWord(before, j, acks)
  }

  /** The status columns a job has after its last word. */
  predicate Says(job: Job, word: Option<Event>) {
    if word.None? then job.status == Queued && job.completedAt.None? && job.error.None?
    else if word.value.op.OpAck? then
      job.status == Succeeded && job.completedAt == Some(word.value.now) && job.error.None?
    else
      && word.value.op.OpNack? && job.status == Failed
      && job.completedAt == Some(word.value.now) && job.error == Some(word.value.op.error)
  }

  lemma JobStep(t: Tables, e: Event, j: string)
    requires Allowed(t, e) && Inv(t)
    ensures var t' := Apply(t, e);
      && (j in t.jobs ==> j in t'.jobs)
      && (Settles(t, e, j) ==> j in t'.jobs && Says(t'.jobs[j], Some(e)))
      && (!Settles(t, e, j) && j in t'.jobs ==> if j in t.jobs then t'.jobs[j] == t.jobs[j] else Says(t'.jobs[j], None))
  {
    if e.op.OpNack? {
      NackOutcome(t, e.op.settings, e.op.item, e.op.error, e.now);
      if Buries(t, e.op.settings, e.op.item) { assert RowAgrees(t, e.op.item.ResolvedWorkId()); }
    }
  }

  /** A job's status, completion time and error are those of the last ack or final nack, or it is still queued. */
  lemma {:induction false} LastWordDecides(run: seq<Event>, j: string)
    requires ValidRun(run)
    ensures j in Reach(run).jobs ==> Says(Reach(run).jobs[j], LastWord(run, j, false))
    ensures j !in Reach(run).jobs ==> LastWord(run, j, false).None?
  {
    if run != [] {
      var before, e := run[..|run| - 1], run[|run| - 1];
      LastWordDecides(before, j);
      EveryRunIsSafe(before);
      JobStep(Reach(before), e, j);
    }
  }

  // ---------------------------------------------------------------- results

  /** What the last ack of a job leaves: its bundle, under the item's document, referenced from the job. */
  predicate Holding(t: Tables, j: string, word: Option<Event>) {
    && (j in t.results <==> word.Some?)
    && (j in t.jobs ==> t.jobs[j].resultRef == if word.Some? then Some("translation_results:" + j) else None)
    && (word.Some? ==>
      && word.value.op.OpAck? && word.value.op.item.Valid()
      && t.results[j].resultRef == "translation_results:" + j
      && t.results[j].documentId == word.value.op.item.DocumentId()
      && Some(t.results[j].bundle) == word.value.op.bundle)
  }

  lemma ResultStep(t: Tables, e: Event, j: string, word: Option<Event>)
    requires Allowed(t, e) && Holding(t, j, word) && (word.Some? ==> j in t.jobs)
    ensures Holding(Apply(t, e), j, if Settles(t, e, j) && e.op.OpAck? then Some(e) else word)
  {
  }

  /**
   The saved result of a job is the bundle of its last ack, stale or not; a job refers to it exactly when
   it is there.
   */
  lemma {:induction false} ResultIsOfTheLastAck(run: seq<Event>, j: string)
    requires ValidRun(run)
    ensures Holding(Reach(run), j, LastWord(run, j, true))
  {
    if run != [] {
      var before, e := run[..|run| - 1], run[|run| - 1];
      ResultIsOfTheLastAck(before, j);
      EveryRunIsSafe(before);
      ResultStep(Reach(before), e, j, LastWord(before, j, true));
    }
  }

  // ---------------------------------------------------------------- dead letters

  /** The letter is a copy of its row as it failed. */
  predicate Copies(t: Tables, d: DeadLetter) {
    && d.workId in t.rows
    && var r := t.rows[d.workId];
    && r.status == Failed && r.lastError == Some(d.error)
    && d.jobId == r.jobId && d.payload == r.payload && d.attempts == r.attempts
  }

  lemma LettersStep(t: Tables, e: Event)
    requires Allowed(t, e)
    ensures var t' := Apply(t, e);
      || t'.deadLetters == t.deadLetters
      || exists d :: t'.deadLetters == t.deadLetters + [d] && Copies(t', d)
  {
    if e.op.OpNack? {
      NackOutcome(t, e.op.settings, e.op.item, e.op.error, e.now);
      if Buries(t, e.op.settings, e.op.item) {
        var d := LetterOf(t, e.op.settings, e.op.item, e.op.error);
        assert Apply(t, e).deadLetters == t.deadLetters + [d] && Copies(Apply(t, e), d);
      }
    }
  }

  /** Every dead letter of every run stays the copy of its failed row: same job, payload, attempts and error. */
  lemma {:induction false} LettersAreCopies(run: seq<Event>, i: nat)
    requires ValidRun(run) && i < |Reach(run).deadLetters|
    ensures Copies(Reach(run), Reach(run).deadLetters[i])
  {
    if run != [] {
      var before, e := run[..|run| - 1], run[|run| - 1];
      LettersStep(Reach(before), e);
      if i < |Reach(before).deadLetters| {
        LettersAreCopies(before, i);
        EveryRunIsSafe(before);
        RowStep(Reach(before), e, Reach(before).deadLetters[i].workId);
      }
    }
  }
}

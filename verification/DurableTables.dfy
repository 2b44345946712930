/**
 The four tables behind the durable queue of edc_translation/postgres_backend.py, the SQL statements
 as functions on them, and the transactions submit, poll, ack and nack as atomic steps.

 `now` is the transaction time, which is what `now()` means inside a Postgres transaction.
 */
module DurableTables {
  import opened Wrappers
  import opened WorkItems

  type Json = string

  datatype Status = Queued | Running | Succeeded | Failed

  datatype Job = Job(
    documentId: string,
    status: Status,
    completedAt: Option<int>,
    error: Option<Json>,
    resultRef: Option<string>)

  datatype Row = Row(
    jobId: string,
    status: Status,
    priority: int,
    availableAt: int,
    lockedBy: Option<string>,
    lockedAt: Option<int>,
    attempts: nat,
    payload: Message,
    lastError: Option<Json>,
    createdAt: int)
  {
    predicate Terminal() {
      status == Succeeded || status == Failed
    }
  }

  datatype SavedResult = SavedResult(documentId: string, bundle: Json, resultRef: string)

  datatype DeadLetter = DeadLetter(
    workId: string,
    jobId: string,
    payload: Message,
    error: Json,
    attempts: nat,
    workerId: string)

  datatype Tables = Tables(
    jobs: map<string, Job>,
    rows: map<string, Row>,
    results: map<string, SavedResult>,
    deadLetters: seq<DeadLetter>)

  const EMPTY := Tables(map[], map[], map[], [])

  datatype Settings = Settings(
    workerId: string,
    maxAttempts: int := 3,
    retryDelay: int := 30,
    visibilityTimeout: int := 900)

  datatype QueueError =
    | InvalidItem
    | DuplicateJob
    | DuplicateWork
    | UnknownJob
    | BadPriority
    | MissingBundle

  // ---------------------------------------------------------------- statements

  /** The value stored in the `integer` column, or an error: ValueError in Python, out of range in SQL. */
  function PriorityColumn(p: Priority): Result<int, QueueError> {
    match p
    case Unset => Success(0)
    case Parsed(n) => if -0x8000_0000 <= n < 0x8000_0000 then Success(n) else Failure(BadPriority)
    case Unparsable => Failure(BadPriority)
  }

  function InsertJob(t: Tables, item: WorkItem): Result<Tables, QueueError>
    requires item.Valid()
  {
    var j := item.ResolvedJobId();
    if j in t.jobs then Failure(DuplicateJob)
    else Success(t.(jobs := t.jobs[j := Job(item.DocumentId(), Queued, None, None, None)]))
  }

  function EnqueueWork(t: Tables, item: WorkItem, now: int): Result<Tables, QueueError>
    requires item.Valid()
  {
    var w := item.ResolvedWorkId();
    var p := PriorityColumn(item.metadata.priority);
    if p.Failure? then Failure(p.error)
    else if w in t.rows then Failure(DuplicateWork)
    else if item.ResolvedJobId() !in t.jobs then Failure(UnknownJob)
    else
      var row := Row(item.ResolvedJobId(), Queued, p.value, now, None, None, 0, ToMessage(item).value, None, now);
      Success(t.(rows := t.rows[w := row]))
  }

  predicate Claimable(r: Row, s: Settings, now: int) {
    || (r.status == Queued && r.availableAt <= now)
    || (r.status == Running && r.lockedAt.Some? && r.lockedAt.value < now - s.visibilityTimeout)
  }

  /** `ORDER BY priority DESC, created_at`; rows that tie may come out in either order. */
  predicate Before(a: Row, b: Row) {
    a.priority > b.priority || (a.priority == b.priority && a.createdAt <= b.createdAt)
  }

  /** The rows the claim's SELECT ranges over; `skipped` holds those other transactions have locked. */
  function Candidates(t: Tables, s: Settings, skipped: set<string>, now: int): set<string> {
    set w | w in t.rows && w !in skipped && Claimable(t.rows[w], s, now)
  }

  predicate IsNext(t: Tables, s: Settings, skipped: set<string>, now: int, w: string) {
    && w in Candidates(t, s, skipped, now)
    && forall v :: v in Candidates(t, s, skipped, now) ==> Before(t.rows[w], t.rows[v])
  }

  function ClaimRow(r: Row, s: Settings, now: int): Row {
    r.(status := Running, lockedBy := Some(s.workerId), lockedAt := Some(now), attempts := r.attempts + 1)
  }

  /** The fence `WHERE work_id = ... AND locked_by = ...`; a NULL lock matches nobody. */
  predicate Holds(t: Tables, workId: string, workerId: string) {
    workId in t.rows && t.rows[workId].lockedBy == Some(workerId)
  }

  function ResultRef(jobId: string): string {
    "translation_results:" + jobId
  }

  function SaveResult(t: Tables, item: WorkItem, bundle: Json): Result<Tables, QueueError>
    requires item.Valid()
  {
    var j := item.ResolvedJobId();
    if j !in t.jobs then Failure(UnknownJob)
    else Success(t.(results := t.results[j := SavedResult(item.DocumentId(), bundle, ResultRef(j))]))
  }

  function MarkJobSucceeded(t: Tables, jobId: string, now: int): Tables {
    if jobId !in t.jobs then t else
    t.(jobs := t.jobs[jobId := t.jobs[jobId].(
      status := Succeeded, completedAt := Some(now), error := None, resultRef := Some(ResultRef(jobId)))])
  }

  function MarkWorkSucceeded(t: Tables, workId: string, workerId: string): Tables {
    if !Holds(t, workId, workerId) then t else
    t.(rows := t.rows[workId := t.rows[workId].(status := Succeeded, lockedBy := None, lockedAt := None)])
  }

  function FailRow(r: Row, s: Settings, error: Json, now: int): Row {
    var dead := r.attempts >= s.maxAttempts;
    r.(status := if dead then Failed else Queued,
       availableAt := if dead then now else now + s.retryDelay,
       lastError := Some(error),
       lockedBy := None,
       lockedAt := None)
  }

  function MarkWorkFailed(t: Tables, workId: string, s: Settings, error: Json, now: int): Tables {
    if !Holds(t, workId, s.workerId) then t else
    t.(rows := t.rows[workId := FailRow(t.rows[workId], s, error, now)])
  }

  function InsertDeadLetter(t: Tables, workId: string, error: Json, workerId: string): Tables {
    if workId !in t.rows then t else
    var r := t.rows[workId];
    t.(deadLetters := t.deadLetters + [DeadLetter(workId, r.jobId, r.payload, error, r.attempts, workerId)])
  }

  function MarkJobFailed(t: Tables, jobId: string, error: Json, now: int): Tables {
    if jobId !in t.jobs then t else
    t.(jobs := t.jobs[jobId := t.jobs[jobId].(status := Failed, completedAt := Some(now), error := Some(error))])
  }

  // ---------------------------------------------------------------- transactions

  function Submit(t: Tables, item: WorkItem, now: int): Result<Tables, QueueError> {
    if !item.Valid() then Failure(InvalidItem) else
    var t1 := InsertJob(t, item);
    if t1.Failure? then t1 else EnqueueWork(t1.value, item, now)
  }

  function Claim(t: Tables, s: Settings, w: string, now: int): Tables
    requires w in t.rows
  {
    t.(rows := t.rows[w := ClaimRow(t.rows[w], s, now)])
  }

  function Ack(t: Tables, s: Settings, item: WorkItem, bundle: Option<Json>, now: int): Result<Tables, QueueError> {
    if bundle.None? then Failure(MissingBundle)
    else if !item.Valid() then Failure(InvalidItem)
    else
      var t1 := SaveResult(t, item, bundle.value);
      if t1.Failure? then t1 else
      var t2 := MarkJobSucceeded(t1.value, item.ResolvedJobId(), now);
      Success(MarkWorkSucceeded(t2, item.ResolvedWorkId(), s.workerId))
  }

  /** Without a work id the nack fails at once, without a job id only when it has a job to fail. */
  function Nack(t: Tables, s: Settings, item: WorkItem, error: Json, now: int): Result<Tables, QueueError> {
    if !item.HasWorkId() then Failure(InvalidItem) else
    var w := item.ResolvedWorkId();
    if !Holds(t, w, s.workerId) then Success(t) else
    var t1 := MarkWorkFailed(t, w, s, error, now);
    if t1.rows[w].status != Failed then Success(t1)
    else if !item.HasJobId() then Failure(InvalidItem)
    else Success(MarkJobFailed(InsertDeadLetter(t1, w, error, s.workerId), item.ResolvedJobId(), error, now))
  }

  // ---------------------------------------------------------------- what the transactions do, column by column

  /** Whether `int(metadata.get("priority", 0) or 0)` gives a value that fits the `integer` column. */
  predicate FitsColumn(p: Priority) {
    p.Unset? || (p.Parsed? && -2147483648 <= p.n <= 2147483647)
  }

  /** A submit goes through exactly for a new job and a new row with a fitting priority; it adds just these two. */
  lemma SubmitTells(t: Tables, item: WorkItem, now: int)
    ensures Submit(t, item, now).Success? <==>
      && item.Valid() && FitsColumn(item.metadata.priority)
      && item.ResolvedJobId() !in t.jobs && item.ResolvedWorkId() !in t.rows
    ensures Submit(t, item, now).Success? ==>
      var t', j, w := Submit(t, item, now).value, item.ResolvedJobId(), item.ResolvedWorkId();
      && t'.results == t.results && t'.deadLetters == t.deadLetters
      && t'.jobs == t.jobs[j := Job(item.DocumentId(), Queued, None, None, None)]
      && w in t'.rows && t'.rows == t.rows[w := t'.rows[w]]
      && var r := t'.rows[w];
      && r.jobId == j && r.status == Queued && r.attempts == 0 && r.availableAt == now && r.createdAt == now
      && r.lockedBy == None && r.lockedAt == None && r.lastError == None
      && r.priority == (if item.metadata.priority.Parsed? then item.metadata.priority.n else 0)
      && ToMessage(item) == Success(r.payload)
  {
  }

  /** Why a submit fails: the job is looked at before the priority, and the priority before the row. */
  lemma SubmitFailsInOrder(t: Tables, item: WorkItem, now: int)
    requires item.Valid() && Submit(t, item, now).Failure?
    ensures Submit(t, item, now).error ==
      if item.ResolvedJobId() in t.jobs then DuplicateJob
      else if !FitsColumn(item.metadata.priority) then BadPriority
      else DuplicateWork
  {
  }

  /**
   An ack goes through exactly for a bundle and a known job. The bundle becomes the job's result and the job
   succeeds, whoever acks; the row succeeds and is released only if the acking worker has it locked.
   */
  lemma AckTells(t: Tables, s: Settings, item: WorkItem, bundle: Option<Json>, now: int)
    ensures Ack(t, s, item, bundle, now).Success? <==> bundle.Some? && item.Valid() && item.ResolvedJobId() in t.jobs
    ensures Ack(t, s, item, bundle, now).Success? ==>
      var t', j, w := Ack(t, s, item, bundle, now).value, item.ResolvedJobId(), item.ResolvedWorkId();
      && t'.deadLetters == t.deadLetters
      && t'.results == t.results[j := SavedResult(item.DocumentId(), bundle.value, "translation_results:" + j)]
      && t'.jobs == t.jobs[j := Job(
        t.jobs[j].documentId, Succeeded, Some(now), None, Some("translation_results:" + j))]
      && t'.rows ==
        if w in t.rows && t.rows[w].lockedBy == Some(s.workerId)
        then t.rows[w := t.rows[w].(status := Succeeded, lockedBy := None, lockedAt := None)]
        else t.rows
  {
  }

  /** A nack by a worker that does not have the row locked, or of an item without ids, changes nothing. */
  lemma FencedNack(t: Tables, s: Settings, item: WorkItem, error: Json, now: int)
    requires item.HasWorkId() ==>
      item.ResolvedWorkId() !in t.rows || t.rows[item.ResolvedWorkId()].lockedBy != Some(s.workerId)
    ensures OrElse(Nack(t, s, item, error, now), t) == t
    ensures Nack(t, s, item, error, now).Failure? <==> !item.HasWorkId()
  {
  }

  /** While attempts are left, a nack records the error and puts the row back, due after the delay. */
  lemma NackTells(t: Tables, s: Settings, item: WorkItem, error: Json, now: int)
    requires item.HasWorkId() && item.ResolvedWorkId() in t.rows
    requires t.rows[item.ResolvedWorkId()].lockedBy == Some(s.workerId)
    requires t.rows[item.ResolvedWorkId()].attempts < s.maxAttempts
    ensures var w := item.ResolvedWorkId();
      Nack(t, s, item, error, now) == Success(t.(rows := t.rows[w := t.rows[w].(
        status := Queued, availableAt := now + s.retryDelay, lastError := Some(error),
        lockedBy := None, lockedAt := None)]))
  {
  }

  /** With the attempts used up it fails the row, copies it to the dead letters and fails the job, all or nothing. */
  lemma FinalNackTells(t: Tables, s: Settings, item: WorkItem, error: Json, now: int)
    requires item.HasWorkId() && item.ResolvedWorkId() in t.rows
    requires t.rows[item.ResolvedWorkId()].lockedBy == Some(s.workerId)
    requires t.rows[item.ResolvedWorkId()].attempts >= s.maxAttempts
    ensures Nack(t, s, item, error, now).Success? <==> item.HasJobId()
    ensures item.HasJobId() ==>
      var t', w, j := Nack(t, s, item, error, now).value, item.ResolvedWorkId(), item.ResolvedJobId();
      && t'.results == t.results
      && t'.rows == t.rows[w := t.rows[w].(
        status := Failed, availableAt := now, lastError := Some(error), lockedBy := None, lockedAt := None)]
      && t'.deadLetters == t.deadLetters + [DeadLetter(
        w, t.rows[w].jobId, t.rows[w].payload, error, t.rows[w].attempts, s.workerId)]
      && t'.jobs ==
        if j in t.jobs
        then t.jobs[j := t.jobs[j].(status := Failed, completedAt := Some(now), error := Some(error))]
        else t.jobs
  {
  }

  // ---------------------------------------------------------------- steps

  datatype Op =
    | OpSubmit(item: WorkItem)
    | OpPoll(settings: Settings, skipped: set<string>, pick: Option<string>)
    | OpAck(settings: Settings, item: WorkItem, bundle: Option<Json>)
    | OpNack(settings: Settings, item: WorkItem, error: Json)

  datatype Event = Event(now: int, op: Op)

  /** The item does not pair the work id of one row with the job id of another; no polled item does. */
  predicate Coherent(t: Tables, item: WorkItem) {
    item.HasWorkId() && item.HasJobId() && item.ResolvedWorkId() in t.rows ==>
      t.rows[item.ResolvedWorkId()].jobId == item.ResolvedJobId()
  }

  predicate Allowed(t: Tables, e: Event) {
    match e.op
    case OpSubmit(_) => true
    case OpPoll(s, skipped, pick) =>
      if pick.None? then Candidates(t, s, skipped, e.now) == {} else IsNext(t, s, skipped, e.now, pick.value)
    case OpAck(_, item, _) => Coherent(t, item)
    case OpNack(_, item, _) => Coherent(t, item)
  }

  /** A failed transaction rolls back: the tables stay as they were. */
  function OrElse(r: Result<Tables, QueueError>, t: Tables): Tables {
    if r.Success? then r.value else t
  }

  function Apply(t: Tables, e: Event): Tables
    requires Allowed(t, e)
  {
    match e.op
    case OpSubmit(item) => OrElse(Submit(t, item, e.now), t)
    case OpPoll(s, _, pick) => if pick.None? then t else Claim(t, s, pick.value, e.now)
    case OpAck(s, item, bundle) => OrElse(Ack(t, s, item, bundle, e.now), t)
    case OpNack(s, item, error) => OrElse(Nack(t, s, item, error, e.now), t)
  }

  // ---------------------------------------------------------------- runs

  /** A run is the list of transactions in commit order; the clock never goes back along it. */
  predicate ValidRun(run: seq<Event>)
    decreases |run|, 0
  {
    run == [] ||
    var before, e := run[..|run| - 1], run[|run| - 1];
    ValidRun(before) && Allowed(Reach(before), e) && (before != [] ==> before[|before| - 1].now <= e.now)
  }

  function Reach(run: seq<Event>): Tables
    requires ValidRun(run)
    decreases |run|, 1
  {
    if run == [] then EMPTY else
    Apply(Reach(run[..|run| - 1]), run[|run| - 1])
  }

  lemma RunExtends(run: seq<Event>, e: Event)
    requires ValidRun(run) && Allowed(Reach(run), e)
    requires run != [] ==> run[|run| - 1].now <= e.now
    ensures ValidRun(run + [e]) && Reach(run + [e]) == Apply(Reach(run), e)
  {
    var all := run + [e];
    assert all[..|all| - 1] == run && all[|all| - 1] == e;
  }
}

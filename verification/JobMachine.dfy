/**
 The whole of a job's durable state as one variable, and when the tables refine it.

 `ack` writes the result and the job status without checking the lease; only its row update is
 fenced. So the refinement holds exactly for the runs in which no stale ack gets through.
 */
module JobMachine {
  import opened Wrappers
  import opened WorkItems
  import opened DurableTables
  import opened DurableSafety
  import opened DurableAccounting

  datatype Phase = Absent | Waiting | Leased | Done | Dead

  function PhaseOf(t: Tables, w: string): Phase {
    if w !in t.rows then Absent else
    match t.rows[w].status
    case Queued => Waiting
    case Running => Leased
    case Succeeded => Done
    case Failed => Dead
  }

  predicate Next(p: Phase, q: Phase) {
    || p == q
    || (p == Absent && q == Waiting)
    || (p == Waiting && q == Leased)
    || (p == Leased && q in {Waiting, Done, Dead})
  }

  /** Everything a client can see of a job: its status, whether a result is saved, its dead letters. */
  datatype View = View(status: Status, hasResult: bool, deadLetters: nat)

  function Observe(t: Tables, w: string): View
    requires w in t.rows && t.rows[w].jobId in t.jobs
  {
    View(t.jobs[t.rows[w].jobId].status, t.rows[w].jobId in t.results, DeadCount(t.deadLetters, w))
  }

  function Expected(p: Phase): View {
    match p
    case Done => View(Succeeded, true, 0)
    case Dead => View(Failed, false, 1)
    case _ => View(Queued, false, 0)
  }

  predicate CoupledRow(t: Tables, w: string) {
    w in t.rows ==> t.rows[w].jobId in t.jobs && Observe(t, w) == Expected(PhaseOf(t, w))
  }

  ghost predicate Coupled(t: Tables) {
    forall w :: CoupledRow(t, w)
  }

  /** In every run, stale workers included, each work row follows the machine. */
  lemma RowsFollowTheMachine(run: seq<Event>, w: string)
    requires ValidRun(run) && run != []
    ensures Next(PhaseOf(Reach(run[..|run| - 1]), w), PhaseOf(Reach(run), w))
  {
    EveryRunIsSafe(run[..|run| - 1]);
    RowStep(Reach(run[..|run| - 1]), run[|run| - 1], w);
  }

  /** The acking worker holds the lease, or the job has already succeeded, or there is no such job to ack. */
  predicate InTime(t: Tables, s: Settings, item: WorkItem) {
    item.Valid() && item.ResolvedJobId() in t.jobs ==>
      Holds(t, item.ResolvedWorkId(), s.workerId) || t.jobs[item.ResolvedJobId()].status == Succeeded
  }

  lemma OtherRowsAfterSubmit(t: Tables, item: WorkItem, now: int, v: string)
    requires Submit(t, item, now).Success? && v in t.rows && CoupledRow(t, v)
    ensures CoupledRow(Submit(t, item, now).value, v)
  {
  }

  lemma RowsAfterClaim(t: Tables, s: Settings, w: string, now: int, v: string)
    requires w in t.rows && !t.rows[w].Terminal() && CoupledRow(t, v)
    ensures CoupledRow(Claim(t, s, w, now), v)
  {
  }

  lemma OtherRowsAfterAck(t: Tables, s: Settings, item: WorkItem, bundle: Json, now: int, v: string)
    requires Coherent(t, item) && Ack(t, s, item, Some(bundle), now).Success?
    requires v in t.rows && CoupledRow(t, v)
    requires v != item.ResolvedWorkId() && t.rows[v].jobId != item.ResolvedJobId()
    ensures CoupledRow(Ack(t, s, item, Some(bundle), now).value, v)
  {
  }

  lemma OtherRowsAfterNack(t: Tables, s: Settings, item: WorkItem, error: Json, now: int, v: string)
    requires Coherent(t, item) && item.HasWorkId() && v in t.rows && CoupledRow(t, v)
    requires v != item.ResolvedWorkId() && !SameJob(t, v, item.ResolvedWorkId())
    ensures CoupledRow(OrElse(Nack(t, s, item, error, now), t), v)
  {
    NackOutcome(t, s, item, error, now);
    if Buries(t, s, item) { DeadCountAppend(t.deadLetters, LetterOf(t, s, item, error), v); }
  }

  lemma RowOfTheJobAfterAck(t: Tables, s: Settings, item: WorkItem, bundle: Json, now: int, v: string)
    requires Coherent(t, item) && Ack(t, s, item, Some(bundle), now).Success?
    requires v in t.rows && RowAgrees(t, v) && CoupledRow(t, v) && t.rows[v].jobId == item.ResolvedJobId()
    requires item.ResolvedWorkId() in t.rows ==> v == item.ResolvedWorkId()
    ensures CoupledRow(Ack(t, s, item, Some(bundle), now).value, v) <==> InTime(t, s, item)
  {
  }

  /** An ack keeps the job in step with its row exactly when it comes in time. */
  lemma AckKeepsCouplingIffInTime(t: Tables, s: Settings, item: WorkItem, bundle: Json, now: int)
    requires Inv(t) && t.jobs.Keys == JobIds(t.rows) && Coupled(t) && Coherent(t, item)
    ensures Coupled(OrElse(Ack(t, s, item, Some(bundle), now), t)) <==> InTime(t, s, item)
  {
    if item.Valid() && item.ResolvedJobId() in t.jobs {
      var j := item.ResolvedJobId();
      assert j in JobIds(t.rows);
      var v :| v in t.rows && t.rows[v].jobId == j;
      var t' := Ack(t, s, item, Some(bundle), now).value;
      assert item.ResolvedWorkId() in t.rows ==> SameJob(t, v, item.ResolvedWorkId());
      assert RowAgrees(t, v) && CoupledRow(t, v);
      RowOfTheJobAfterAck(t, s, item, bundle, now, v);
      forall u | u != v
        ensures CoupledRow(t', u)
      {
        if u in t.rows {
          assert !SameJob(t, u, v);
          assert CoupledRow(t, u);
          OtherRowsAfterAck(t, s, item, bundle, now, u);
        }
      }
    }
  }

  lemma SubmitKeepsCoupling(t: Tables, item: WorkItem, now: int)
    requires Inv(t) && Coupled(t)
    ensures Coupled(OrElse(Submit(t, item, now), t))
  {
    if Submit(t, item, now).Success? {
      var w, t' := item.ResolvedWorkId(), Submit(t, item, now).value;
      assert LettersAgree(t, w);
      assert item.ResolvedJobId() !in t.results;
      assert CoupledRow(t', w);
      forall v
        ensures CoupledRow(t', v)
      {
        assert CoupledRow(t, v);
        if v in t.rows { OtherRowsAfterSubmit(t, item, now, v); }
      }
    }
  }

  lemma NackKeepsCoupling(t: Tables, s: Settings, item: WorkItem, error: Json, now: int)
    requires Inv(t) && Coupled(t) && Coherent(t, item)
    ensures Coupled(OrElse(Nack(t, s, item, error, now), t))
  {
    var t' := OrElse(Nack(t, s, item, error, now), t);
    NackOutcome(t, s, item, error, now);
    if Buries(t, s, item) || Requeues(t, s, item) {
      var w := item.ResolvedWorkId();
      assert RowAgrees(t, w) && CoupledRow(t, w);
      if Buries(t, s, item) { DeadCountAppend(t.deadLetters, LetterOf(t, s, item, error), w); }
      assert CoupledRow(t', w);
      forall v
        ensures CoupledRow(t', v)
      {
        assert CoupledRow(t, v);
        if v in t.rows && v != w { OtherRowsAfterNack(t, s, item, error, now, v); }
      }
    }
  }

  predicate InTimeStep(t: Tables, e: Event)
    requires Allowed(t, e)
  {
    e.op.OpAck? && e.op.bundle.Some? ==> InTime(t, e.op.settings, e.op.item)
  }

  lemma StepKeepsCouplingIffInTime(t: Tables, e: Event)
    requires Inv(t) && t.jobs.Keys == JobIds(t.rows) && Coupled(t) && Allowed(t, e)
    ensures Coupled(Apply(t, e)) <==> InTimeStep(t, e)
  {
    match e.op
    case OpSubmit(item) => SubmitKeepsCoupling(t, item, e.now);
    case OpPoll(s, _, pick) =>
      if pick.Some? {
        forall v
          ensures CoupledRow(Claim(t, s, pick.value, e.now), v)
        {
          assert CoupledRow(t, v);
          RowsAfterClaim(t, s, pick.value, e.now, v);
        }
      }
    case OpAck(s, item, bundle) =>
      if bundle.Some? { AckKeepsCouplingIffInTime(t, s, item, bundle.value, e.now); }
    case OpNack(s, item, error) => NackKeepsCoupling(t, s, item, error, e.now);
  }

  predicate InTimeRun(run: seq<Event>)
    requires ValidRun(run)
  {
    run == [] || (InTimeRun(run[..|run| - 1]) && InTimeStep(Reach(run[..|run| - 1]), run[|run| - 1]))
  }

  /** Every state along the run is coupled. */
  ghost predicate AlwaysCoupled(run: seq<Event>)
    requires ValidRun(run)
  {
    Coupled(Reach(run)) && (run != [] ==> AlwaysCoupled(run[..|run| - 1]))
  }

  /** Main result: the tables show the job machine and nothing else exactly in the runs whose acks come in time. */
  lemma {:induction false} RefinesIffAcksAreInTime(run: seq<Event>)
    requires ValidRun(run)
    ensures AlwaysCoupled(run) <==> InTimeRun(run)
  {
    if run != [] {
      var before := run[..|run| - 1];
      RefinesIffAcksAreInTime(before);
      EveryRunIsSafe(before);
      EveryJobHasItsRow(before);
      if AlwaysCoupled(before) {
        StepKeepsCouplingIffInTime(Reach(before), run[|run| - 1]);
      }
    }
  }

  /**
   In such a run a finished job stays as it is: same status for good, and either one saved result
   or one dead letter, never both.
   */
  lemma FinishedJobsStayFinished(run: seq<Event>, n: nat, w: string)
    requires ValidRun(run) && InTimeRun(run)
    requires n <= |run| && ValidRun(run[..n]) && w in Reach(run[..n]).rows && Reach(run[..n]).rows[w].Terminal()
    ensures w in Reach(run).rows && Reach(run).rows[w].jobId in Reach(run).jobs
    ensures Observe(Reach(run), w) == Expected(PhaseOf(Reach(run[..n]), w))
    ensures Observe(Reach(run), w).hasResult <==> Observe(Reach(run), w).deadLetters != 1
  {
    RefinesIffAcksAreInTime(run);
    TerminalRowsAreFrozen(run, n, w);
    assert CoupledRow(Reach(run), w);
  }

  // ---------------------------------------------------------------- the stale ack

  function DemoItem(): WorkItem {
    WorkItem(Bundle(Some(Text("doc")), None, [], ""), "en", "stub", false, false, "standalone",
      None, None, Metadata(None, Unset, ""), Some("job"), Some("work"), None)
  }

  /** Worker a's lease expires; worker b reclaims, fails for good, and the row is dead-lettered; then a acks. */
  function StaleRun(): seq<Event> {
    var a, b := Settings("a", 1, 30, 900), Settings("b", 1, 30, 900);
    [ Event(0, OpSubmit(DemoItem())),
      Event(0, OpPoll(a, {}, Some("work"))),
      Event(1000, OpPoll(b, {}, Some("work"))),
      Event(1001, OpNack(b, DemoItem(), "{}")),
      Event(1002, OpAck(a, DemoItem(), Some("{}"))) ]
  }

  lemma StaleRunUpToClaim()
    ensures var run := StaleRun();
      && ValidRun(run[..2])
      && Reach(run[..2]).rows.Keys == {"work"}
      && var r := Reach(run[..2]).rows["work"];
      && r.status == Running && r.lockedAt == Some(0) && r.attempts == 1 && r.jobId == "job"
      && ToMessage(DemoItem()) == Success(r.payload)
  {
    var run := StaleRun();
    RunExtends([], run[0]);
    assert [] + [run[0]] == run[..1];
    var t := Reach(run[..1]);
    assert t.rows.Keys == {"work"} && t.rows["work"].status == Queued && t.rows["work"].jobId == "job";
    RunExtends(run[..1], run[1]);
    assert run[..1] + [run[1]] == run[..2];
  }

  lemma StaleRunUpToReclaim()
    ensures var run := StaleRun();
      && ValidRun(run[..3])
      && Reach(run[..3]).rows.Keys == {"work"}
      && var r := Reach(run[..3]).rows["work"];
      && r.lockedBy == Some("b") && r.attempts == 2 && r.jobId == "job"
  {
    var run := StaleRun();
    StaleRunUpToClaim();
    RunExtends(run[..2], run[2]);
    assert run[..2] + [run[2]] == run[..3];
  }

  lemma StaleRunUpToBurial()
    ensures var run := StaleRun();
      && ValidRun(run[..4])
      && Reach(run[..4]).rows.Keys == {"work"} && "job" in Reach(run[..4]).jobs
      && var r := Reach(run[..4]).rows["work"];
      && r.status == Failed && r.lockedBy == None && r.jobId == "job"
  {
    var run := StaleRun();
    StaleRunUpToReclaim();
    EveryJobHasItsRow(run[..3]);
    assert Reach(run[..3]).rows["work"].jobId in JobIds(Reach(run[..3]).rows);
    RunExtends(run[..3], run[3]);
    assert run[..3] + [run[3]] == run[..4];
  }

  /** The stale ack revives a dead job: status succeeded with a saved result beside its dead letter. */
  lemma StaleAckRevivesDeadJob()
    ensures ValidRun(StaleRun())
    ensures var t := Reach(StaleRun());
      && "work" in t.rows && t.rows["work"].status == Failed && t.rows["work"].jobId == "job"
      && DeadCount(t.deadLetters, "work") == 1
      && "job" in t.jobs && t.jobs["job"].status == Succeeded && "job" in t.results
  {
    var run := StaleRun();
    StaleRunUpToBurial();
    RunExtends(run[..4], run[4]);
    assert run[..4] + [run[4]] == run;
    assert Reach(run).rows["work"].status == Failed;
    assert LettersAgree(Reach(run), "work") by { EveryRunIsSafe(run); }
  }

  // ---------------------------------------------------------------- the regained lease

  /** The item the polls of these runs hand out. */
  function PolledItem(): WorkItem {
    FromMessage(ToMessage(DemoItem()).value).value
  }

  /** Worker a loses its lease to b and wins it back; then it acks with the item of its first poll. */
  function RegainedRun(): seq<Event> {
    var a, b := Settings("a", 1, 30, 900), Settings("b", 1, 30, 900);
    [ Event(0, OpSubmit(DemoItem())),
      Event(0, OpPoll(a, {}, Some("work"))),
      Event(1000, OpPoll(b, {}, Some("work"))),
      Event(2000, OpPoll(a, {}, Some("work"))),
      Event(2001, OpAck(a, PolledItem(), Some("{}"))) ]
  }

  lemma PolledItemIds()
    ensures FromMessage(ToMessage(DemoItem()).value) == Success(PolledItem()) && PolledItem().Valid()
    ensures PolledItem().ResolvedWorkId() == "work" && PolledItem().ResolvedJobId() == "job"
  {
    MessageRoundTrip(DemoItem());
  }

  lemma RegainedRunUpToLoss()
    ensures var run := RegainedRun();
      && ValidRun(run[..3])
      && Reach(run[..3]).rows.Keys == {"work"}
      && var r := Reach(run[..3]).rows["work"];
      && r.status == Running && r.lockedBy == Some("b") && r.lockedAt == Some(1000)
      && r.attempts == 2 && r.jobId == "job"
      && ToMessage(DemoItem()) == Success(r.payload)
  {
    var run := RegainedRun();
    StaleRunUpToClaim();
    assert run[..2] == StaleRun()[..2];
    RunExtends(run[..2], run[2]);
    assert run[..2] + [run[2]] == run[..3];
  }

  lemma RegainedRunUpToRegain()
    ensures var run := RegainedRun();
      && ValidRun(run[..4])
      && Reach(run[..4]).rows.Keys == {"work"}
      && var r := Reach(run[..4]).rows["work"];
      && r.status == Running && r.lockedBy == Some("a") && r.lockedAt == Some(2000)
      && r.attempts == 3 && r.jobId == "job"
  {
    var run := RegainedRun();
    RegainedRunUpToLoss();
    RunExtends(run[..3], run[3]);
    assert run[..3] + [run[3]] == run[..4];
  }

  /** The old item settles the new claim: the fence tells workers apart, not claims. */
  lemma OldItemSettlesRegainedClaim()
    ensures var run := RegainedRun();
      && ValidRun(run[..2]) && "work" in Reach(run[..2]).rows
      && FromMessage(Reach(run[..2]).rows["work"].payload) == Success(PolledItem())
    ensures ValidRun(RegainedRun())
    ensures var t := Reach(RegainedRun());
      && "work" in t.rows && t.rows["work"].status == Succeeded && t.rows["work"].attempts == 3
  {
    var run := RegainedRun();
    StaleRunUpToClaim();
    assert run[..2] == StaleRun()[..2];
    PolledItemIds();
    RegainedRunUpToRegain();
    EveryJobHasItsRow(run[..4]);
    assert Reach(run[..4]).rows["work"].jobId in JobIds(Reach(run[..4]).rows);
    RunExtends(run[..4], run[4]);
    assert run[..4] + [run[4]] == run;
  }

  // ---------------------------------------------------------------- the crossing item

  /** Two jobs are submitted; worker a takes the first. */
  function CrossingRun(): seq<Event> {
    [ Event(0, OpSubmit(DemoItem())),
      Event(0, OpSubmit(DemoItem().(jobId := Some("other"), workId := Some("other-work")))),
      Event(0, OpPoll(Settings("a", 1, 30, 900), {}, Some("work"))) ]
  }

  /** The first job's work id with the second job's id. */
  function CrossingItem(): WorkItem {
    DemoItem().(jobId := Some("other"))
  }

  lemma CrossingRunUpToSubmits()
    ensures var run := CrossingRun();
      && ValidRun(run[..2])
      && var t := Reach(run[..2]);
      && t.rows.Keys == {"work", "other-work"} && t.jobs.Keys == {"job", "other"}
      && (forall w :: w in t.rows ==> Claimable(t.rows[w], run[2].op.settings, 0))
      && (forall w, v :: w in t.rows && v in t.rows ==> Before(t.rows[w], t.rows[v]))
      && t.rows["work"].jobId == "job" && t.rows["work"].attempts == 0
      && t.rows["other-work"].jobId == "other" && t.rows["other-work"].status == Queued
      && (forall j :: j in t.jobs ==> t.jobs[j].status == Queued)
  {
    var run := CrossingRun();
    RunExtends([], run[0]);
    assert [] + [run[0]] == run[..1];
    RunExtends(run[..1], run[1]);
    assert run[..1] + [run[1]] == run[..2];
  }

  /** An ack, and a nack, of the crossing item each break the invariant of a reached state. */
  lemma CrossingItemBreaksInvariant()
    ensures ValidRun(CrossingRun()) && Inv(Reach(CrossingRun())) && CrossingItem().Valid()
    ensures var t, s, item := Reach(CrossingRun()), Settings("a", 1, 30, 900), CrossingItem();
      && AckCrosses(t, s, item) && !Inv(OrElse(Ack(t, s, item, Some("{}"), 1), t))
      && NackCrosses(t, s, item) && !Inv(OrElse(Nack(t, s, item, "{}", 1), t))
  {
    var run := CrossingRun();
    CrossingRunUpToSubmits();
    RunExtends(run[..2], run[2]);
    assert run[..2] + [run[2]] == run;
    EveryRunIsSafe(run);
    AckKeepsInvIff(Reach(run), Settings("a", 1, 30, 900), CrossingItem(), "{}", 1);
    NackKeepsInvIff(Reach(run), Settings("a", 1, 30, 900), CrossingItem(), "{}", 1);
  }
}

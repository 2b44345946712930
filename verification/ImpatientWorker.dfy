/**
 Why `run_until_idle` has to sleep through the retry delay to finish its rows: the transactions of its loop on
 the queue with one item that fails once, when it does not and no time passes but its own sleeps.
 */
module ImpatientWorker {
  import opened Wrappers
  import opened DurableTables
  import opened DurableWorker
  import opened JobMachine

  /** The idle polls of a worker that sleeps `interval` between them, from time 0 on. */
  function IdlePolls(s: Settings, interval: nat, n: nat): (es: seq<Event>)
    ensures |es| == n
  {
    if n == 0 then [] else IdlePolls(s, interval, n - 1) + [Event((n - 1) * interval, OpPoll(s, {}, None))]
  }

  /** One item is submitted, claimed and failed at time 0; then come `n` idle polls. */
  function ImpatientRun(s: Settings, interval: nat, n: nat): (run: seq<Event>)
    ensures |run| == 3 + n
  {
    [Event(0, OpSubmit(DemoItem())), Event(0, OpPoll(s, {}, Some("work"))), Event(0, OpNack(s, DemoItem(), "{}"))]
    + IdlePolls(s, interval, n)
  }

  lemma ClaimedOnce(s: Settings)
    ensures var run := ImpatientRun(s, 0, 0)[..2];
      && ValidRun(run)
      && Reach(run).rows.Keys == {"work"}
      && var r := Reach(run).rows["work"];
      && r.jobId == "job" && r.lockedBy == Some(s.workerId) && r.attempts == 1
  {
    var run := ImpatientRun(s, 0, 0);
    RunExtends([], run[0]);
    assert [] + [run[0]] == run[..1];
    var t := Reach(run[..1]);
    assert t.rows.Keys == {"work"} && t.rows["work"].status == Queued && t.rows["work"].jobId == "job";
    RunExtends(run[..1], run[1]);
    assert run[..1] + [run[1]] == run[..2];
  }

  lemma FailedOnce(s: Settings)
    requires s.maxAttempts >= 2
    ensures var run := ImpatientRun(s, 0, 0);
      && ValidRun(run)
      && Reach(run).rows.Keys == {"work"}
      && Reach(run).rows["work"].status == Queued && Reach(run).rows["work"].availableAt == s.retryDelay
  {
    var run := ImpatientRun(s, 0, 0);
    ClaimedOnce(s);
    RunExtends(run[..2], run[2]);
    assert run[..2] + [run[2]] == run;
  }

  /**
   When the sleeps together fall short of the retry delay, as with the default single idle poll any delay
   does, the worker goes idle `n` times and leaves its failed row queued.
   */
  lemma {:induction false} ImpatientWorkerLeavesRowWaiting(s: Settings, interval: nat, n: nat)
    requires s.maxAttempts >= 2 && s.retryDelay > 0 && (n - 1) * interval < s.retryDelay
    ensures var run := ImpatientRun(s, interval, n);
      && ValidRun(run)
      && Reach(run).rows.Keys == {"work"}
      && Reach(run).rows["work"].status == Queued && Reach(run).rows["work"].availableAt > run[|run| - 1].now
      && Reach(run).rows["work"].availableAt == s.retryDelay
  {
    if n == 0 {
      FailedOnce(s);
      assert ImpatientRun(s, interval, 0) == ImpatientRun(s, 0, 0);
    } else {
      var before, e := ImpatientRun(s, interval, n - 1), Event((n - 1) * interval, OpPoll(s, {}, None));
      assert (n - 1) * interval == (n - 2) * interval + interval;
      ImpatientWorkerLeavesRowWaiting(s, interval, n - 1);
      assert before[|before| - 1].now <= e.now;
      assert Candidates(Reach(before), s, {}, e.now) == {};
      RunExtends(before, e);
      assert before + [e] == ImpatientRun(s, interval, n);
    }
  }
}

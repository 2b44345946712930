/** The in-process queue and the two worker loops of edc_translation/worker.py. */
module LocalWorker {
  import opened Wrappers
  import opened WorkItems
  import opened WorkerResults

  /** `process` returns a result, or raises: on an item without document id, or a bundle its own schema rejects. */
  datatype Processed = Finished(result: WorkerResult) | Throws(error: string)

  /** What processing an item does, given how many were processed before. */
  type Processor = (WorkItem, nat) -> Processed

  datatype LoopError = ValueError(argument: string) | Raised(error: string)

  class LocalWorkQueue {
    var items: seq<WorkItem>
    var acked: seq<WorkerResult>
    var nacked: seq<WorkerResult>

    constructor (initial: seq<WorkItem>)
      ensures items == initial && acked == [] && nacked == []
    {
      items, acked, nacked := initial, [], [];
    }

    method Push(item: WorkItem) returns (error: Option<LoopError>)
      modifies this`items
      ensures error.None? <==> item.Valid()
      ensures items == if item.Valid() then old(items) + [item] else old(items)
    {
      if !item.Valid() { return Some(Raised("document_id")); }
      items := items + [item];
      error := None;
    }

    method Poll() returns (item: Option<WorkItem>)
      modifies this`items
      ensures old(items) == [] ==> item.None? && items == []
      ensures old(items) != [] ==> item == Some(old(items)[0]) && items == old(items)[1..]
    {
      if items == [] { return None; }
      item, items := Some(items[0]), items[1..];
    }

    method Ack(item: WorkItem, result: WorkerResult)
      modifies this`acked
      ensures acked == old(acked) + [result]
    {
      acked := acked + [result];
    }

    method Nack(item: WorkItem, result: WorkerResult)
      modifies this`nacked
      ensures nacked == old(nacked) + [result]
    {
      nacked := nacked + [result];
    }
  }

  // ---------------------------------------------------------------- specification

  predicate Throwing(process: Processor, items: seq<WorkItem>, i: nat)
    requires i < |items|
  {
    process(items[i], i).Throws?
  }

  predicate Quiet(process: Processor, items: seq<WorkItem>, k: nat)
    requires k <= |items|
  {
    forall i :: 0 <= i < k ==> !Throwing(process, items, i)
  }

  /** `done` are the results of the first `|done|` items, in queue order. */
  predicate Yields(process: Processor, items: seq<WorkItem>, done: seq<WorkerResult>) {
    |done| <= |items| && forall i :: 0 <= i < |done| ==> process(items[i], i) == Finished(done[i])
  }

  lemma YieldsAgree(process: Processor, items: seq<WorkItem>, a: seq<WorkerResult>, b: seq<WorkerResult>)
    requires Yields(process, items, a) && Yields(process, items, b)
    ensures |a| <= |b| ==> a <= b
    ensures |a| == |b| ==> a == b
  {
    forall i | 0 <= i < |a| && i < |b|
      ensures a[i] == b[i]
    {
      assert process(items[i], i) == Finished(a[i]) && process(items[i], i) == Finished(b[i]);
    }
  }

  function Filter(rs: seq<WorkerResult>, succeeded: bool): seq<WorkerResult> {
    if rs == [] then [] else
    Filter(rs[..|rs| - 1], succeeded) + (if rs[|rs| - 1].outcome.Produced? == succeeded then [rs[|rs| - 1]] else [])
  }

  lemma FilterAppend(rs: seq<WorkerResult>, r: WorkerResult, succeeded: bool)
    ensures Filter(rs + [r], succeeded)
      == Filter(rs, succeeded) + (if r.outcome.Produced? == succeeded then [r] else [])
  {
    assert (rs + [r])[..|rs|] == rs;
  }

  /** Each of the results was acked or nacked, in order. */
  predicate Settled(q: LocalWorkQueue, acked: seq<WorkerResult>, nacked: seq<WorkerResult>, rs: seq<WorkerResult>)
    reads q
  {
    q.acked == acked + Filter(rs, true) && q.nacked == nacked + Filter(rs, false)
  }

  /** The first `|done|` items were taken in order, and each was acked or nacked once, by its result. */
  twostate predicate Worked(q: LocalWorkQueue, process: Processor, done: seq<WorkerResult>)
    reads q
  {
    Yields(process, old(q.items), done) && Settled(q, old(q.acked), old(q.nacked), done)
  }

  /** Acked and nacked between them hold every result exactly once. */
  lemma {:induction false} FiltersPartition(rs: seq<WorkerResult>)
    ensures multiset(Filter(rs, true)) + multiset(Filter(rs, false)) == multiset(rs)
    ensures |Filter(rs, true)| + |Filter(rs, false)| == |rs|
  {
    if rs != [] {
      var init, last := rs[..|rs| - 1], rs[|rs| - 1];
      FiltersPartition(init);
      assert rs == init + [last];
      var yes, no := Filter(init, true), Filter(init, false);
      if last.outcome.Produced? {
        assert Filter(rs, true) == yes + [last] && Filter(rs, false) == no + [];
      } else {
        assert Filter(rs, true) == yes + [] && Filter(rs, false) == no + [last];
      }
    }
  }

  /** Exactly the results that carry a translation are acked, and exactly those with an error are nacked. */
  lemma {:induction false} FiltersTell(rs: seq<WorkerResult>, r: WorkerResult)
    ensures r in Filter(rs, true) <==> r in rs && r.outcome.Produced?
    ensures r in Filter(rs, false) <==> r in rs && r.outcome.Erred?
  {
    if rs != [] {
      FiltersTell(rs[..|rs| - 1], r);
      assert rs == rs[..|rs| - 1] + [rs[|rs| - 1]];
    }
  }

  // ---------------------------------------------------------------- the loops

  method RunOnce(q: LocalWorkQueue, process: Processor, n: nat) returns (r: Result<Option<WorkerResult>, LoopError>)
    modifies q
    ensures old(q.items) == [] ==>
      r == Success(None) && q.items == [] && q.acked == old(q.acked) && q.nacked == old(q.nacked)
    ensures old(q.items) != [] ==>
      && q.items == old(q.items)[1..]
      && match process(old(q.items)[0], n)
         case Throws(e) => r == Failure(Raised(e)) && q.acked == old(q.acked) && q.nacked == old(q.nacked)
         case Finished(result) =>
           && r == Success(Some(result))
           && (result.outcome.Produced? ==> q.acked == old(q.acked) + [result] && q.nacked == old(q.nacked))
           && (result.outcome.Erred? ==> q.acked == old(q.acked) && q.nacked == old(q.nacked) + [result])
  {
    var item := q.Poll();
    if item.None? { return Success(None); }
    match process(item.value, n)
    case Throws(e) => r := Failure(Raised(e));
    case Finished(result) =>
      if result.outcome.Produced? { q.Ack(item.value, result); } else { q.Nack(item.value, result); }
      r := Success(Some(result));
  }

  /** How many items a run may take. */
  function Limit(maxItems: Option<int>, length: nat): nat {
    if maxItems.Some? && 0 <= maxItems.value < length then maxItems.value else length
  }

  predicate BadMaxItems(maxItems: Option<int>) {
    maxItems.Some? && maxItems.value < 1
  }

  lemma FilterOne(r: WorkerResult, succeeded: bool)
    ensures Filter([r], succeeded) == if r.outcome.Produced? == succeeded then [r] else []
  {
    assert [r][..0] == [];
  }

  lemma Assoc<T>(a: seq<T>, b: seq<T>, c: seq<T>)
    ensures a + b + c == a + (b + c)
  {
  }

  lemma FilterOneMore(base: seq<WorkerResult>, rs: seq<WorkerResult>, r: WorkerResult, succeeded: bool)
    ensures base + Filter(rs, succeeded) + Filter([r], succeeded) == base + Filter(rs + [r], succeeded)
  {
    FilterAppend(rs, r, succeeded);
    FilterOne(r, succeeded);
    Assoc(base, Filter(rs, succeeded), Filter([r], succeeded));
  }

  /**
   Where a loop stands that has produced `done`: the queue, the acks and the nacks are what these results
   make them.
   */
  predicate Stands(q: LocalWorkQueue, items: seq<WorkItem>, acked: seq<WorkerResult>, nacked: seq<WorkerResult>,
                   process: Processor, done: seq<WorkerResult>)
    reads q
  {
    Yields(process, items, done) && q.items == items[|done|..] && Settled(q, acked, nacked, done)
  }

  /** After `done`, the next item raised `error`: it is gone from the queue, and neither acked nor nacked. */
  predicate Fell(q: LocalWorkQueue, items: seq<WorkItem>, acked: seq<WorkerResult>, nacked: seq<WorkerResult>,
                 process: Processor, done: seq<WorkerResult>, error: string)
    reads q
  {
    && Yields(process, items, done) && |done| < |items|
    && process(items[|done|], |done|) == Throws(error)
    && q.items == items[|done| + 1..] && Settled(q, acked, nacked, done)
  }

  /** A turn of either loop: one more result, an empty queue, or an item that raises. */
  method TakeOne(q: LocalWorkQueue, process: Processor, n: nat, ghost items: seq<WorkItem>,
                 ghost acked: seq<WorkerResult>, ghost nacked: seq<WorkerResult>, ghost done: seq<WorkerResult>)
      returns (r: Result<Option<WorkerResult>, LoopError>)
    requires Stands(q, items, acked, nacked, process, done) && n == |done|
    modifies q
    ensures r == Success(None) ==> n == |items| && Stands(q, items, acked, nacked, process, done)
    ensures r.Success? && r.value.Some? ==> Stands(q, items, acked, nacked, process, done + [r.value.value])
    ensures r.Failure? ==> r.error.Raised? && Fell(q, items, acked, nacked, process, done, r.error.error)
  {
    r := RunOnce(q, process, n);
    if r.Success? && r.value.Some? {
      FilterOne(r.value.value, true);
      FilterOne(r.value.value, false);
      FilterOneMore(acked, done, r.value.value, true);
      FilterOneMore(nacked, done, r.value.value, false);
    }
  }

  /** The polling loop of `run_until_idle`. */
  method Drain(q: LocalWorkQueue, process: Processor, maxIdlePolls: nat, maxItems: Option<nat>)
      returns (results: seq<WorkerResult>, raised: Option<string>)
    requires maxIdlePolls >= 1
    modifies q
    ensures |results| <= Limit(maxItems, |old(q.items)|)
    ensures raised.None? ==>
      && |results| == Limit(maxItems, |old(q.items)|)
      && Stands(q, old(q.items), old(q.acked), old(q.nacked), process, results)
    ensures raised.Some? ==>
      |results| < Limit(maxItems, |old(q.items)|)
      && Fell(q, old(q.items), old(q.acked), old(q.nacked), process, results, raised.value)
  {
    ghost var start := q.items;
    var idlePolls := 0;
    results := [];
    while idlePolls < maxIdlePolls && !(maxItems.Some? && |results| >= maxItems.value)
      invariant 0 <= idlePolls <= maxIdlePolls
      invariant |results| <= Limit(maxItems, |start|)
      invariant Stands(q, start, old(q.acked), old(q.nacked), process, results)
      invariant idlePolls > 0 ==> |results| == |start|
      decreases |start| - |results|, maxIdlePolls - idlePolls
    {
      var once := TakeOne(q, process, |results|, start, old(q.acked), old(q.nacked), results);
      if once.Failure? { return results, Some(once.error.error); }
      if once.value.None? {
        idlePolls := idlePolls + 1;
      } else {
        results := results + [once.value.value];
        idlePolls := 0;
      }
    }
    raised := None;
  }

  /**
   `run_until_idle`: takes a prefix of the queue in order and leaves the rest. When an item raises, the
   loop stops there: that one item is gone from the queue and neither acked nor nacked.
   */
  method RunUntilIdle(q: LocalWorkQueue, process: Processor, maxIdlePolls: int, pollInterval: real,
                      maxItems: Option<int>)
      returns (r: Result<seq<WorkerResult>, LoopError>, ghost done: seq<WorkerResult>)
    modifies q
    ensures (r.Failure? && r.error.ValueError?) <==>
      maxIdlePolls < 1 || pollInterval < 0.0 || (maxItems.Some? && maxItems.value < 1)
    ensures maxIdlePolls < 1 ==> r == Failure(ValueError("max_idle_polls"))
    ensures maxIdlePolls >= 1 && pollInterval < 0.0 ==> r == Failure(ValueError("poll_interval_seconds"))
    ensures Worked(q, process, done)
    ensures r.Failure? && r.error.ValueError? ==> done == [] && q.items == old(q.items)
    ensures r.Success? ==>
      && r.value == done && q.items == old(q.items)[|done|..]
      && |done| == if maxItems.Some? && maxItems.value < |old(q.items)| then maxItems.value else |old(q.items)|
    ensures r.Failure? && r.error.Raised? ==>
      && |done| < Limit(maxItems, |old(q.items)|) && q.items == old(q.items)[|done| + 1..]
      && process(old(q.items)[|done|], |done|) == Throws(r.error.error)
  {
    if maxIdlePolls < 1 {
      r, done := Failure(ValueError("max_idle_polls")), [];
    } else if pollInterval < 0.0 {
      r, done := Failure(ValueError("poll_interval_seconds")), [];
    } else if maxItems.Some? && maxItems.value < 1 {
      r, done := Failure(ValueError("max_items")), [];
    } else {
      var results, raised := Drain(q, process, maxIdlePolls, maxItems);
      done := results;
      r := if raised.Some? then Failure(Raised(raised.value)) else Success(results);
    }
  }

  datatype Forever = Looping(taken: nat) | Stopped(taken: nat) | Threw(taken: nat)

  /** One turn of `run_forever`: the stop flag, once `stopAfter` readings have passed, the item limit, then one poll. */
  function ForeverTurn(items: seq<WorkItem>, process: Processor, stopAfter: Option<nat>, maxItems: Option<int>,
                       n: nat, taken: nat): Forever
    requires taken <= |items|
  {
    if stopAfter.Some? && n >= stopAfter.value then Stopped(taken)
    else if maxItems.Some? && taken >= maxItems.value then Stopped(taken)
    else if taken == |items| then Looping(taken)
    else if Throwing(process, items, taken) then Threw(taken)
    else Looping(taken + 1)
  }

  /** Where the loop stands before its turn `n`. */
  function ForeverAt(items: seq<WorkItem>, process: Processor, stopAfter: Option<nat>, maxItems: Option<int>,
                     n: nat): (f: Forever)
    ensures f.taken <= |items| && f.taken <= n
  {
    if n == 0 then Looping(0) else
    var f := ForeverAt(items, process, stopAfter, maxItems, n - 1);
    if f.Looping? then ForeverTurn(items, process, stopAfter, maxItems, n - 1, f.taken) else f
  }

  /** A reason to end: a stop signal, a limit within the queue, or an item that raises. */
  predicate HasReasonToEnd(items: seq<WorkItem>, process: Processor, stopAfter: Option<nat>, maxItems: Option<int>) {
    || stopAfter.Some?
    || (maxItems.Some? && maxItems.value <= |items|)
    || !Quiet(process, items, |items|)
  }

  lemma {:induction false} ForeverWithoutStop(items: seq<WorkItem>, process: Processor, maxItems: Option<int>, n: nat)
    requires maxItems.Some? ==> n <= maxItems.value
    requires n <= |items| && Quiet(process, items, n)
    ensures ForeverAt(items, process, None, maxItems, n) == Looping(n)
  {
    if n > 0 { ForeverWithoutStop(items, process, maxItems, n - 1); }
  }

  lemma {:induction false} NoReasonNoEnd(items: seq<WorkItem>, process: Processor, maxItems: Option<int>, n: nat)
    requires !HasReasonToEnd(items, process, None, maxItems)
    ensures ForeverAt(items, process, None, maxItems, n).Looping?
  {
    if n > 0 { NoReasonNoEnd(items, process, maxItems, n - 1); }
  }

  /** `run_forever` ends exactly when it has a reason to. */
  lemma ForeverEndsIffItHasAReason(items: seq<WorkItem>, process: Processor, stopAfter: Option<nat>,
          maxItems: Option<int>)
    ensures (exists n :: !ForeverAt(items, process, stopAfter, maxItems, n).Looping?)
      <==> HasReasonToEnd(items, process, stopAfter, maxItems)
  {
    if stopAfter.Some? {
      assert !ForeverAt(items, process, stopAfter, maxItems, stopAfter.value + 1).Looping?;
    } else if !HasReasonToEnd(items, process, stopAfter, maxItems) {
      forall n { NoReasonNoEnd(items, process, maxItems, n); }
    } else {
      var n := EndingTurn(items, process, maxItems);
    }
  }

  /** Without a stop signal, the turn at which the loop ends. */
  lemma EndingTurn(items: seq<WorkItem>, process: Processor, maxItems: Option<int>) returns (n: nat)
    requires HasReasonToEnd(items, process, None, maxItems)
    ensures n <= |items| && !ForeverAt(items, process, None, maxItems, n + 1).Looping?
  {
    n := 0;
    while n < |items| && !(maxItems.Some? && n >= maxItems.value) && !Throwing(process, items, n)
      invariant n <= |items| && Quiet(process, items, n)
      invariant maxItems.Some? && n > 0 ==> n <= maxItems.value
    {
      n := n + 1;
    }
    if maxItems.Some? && maxItems.value < 0 {
      assert ForeverAt(items, process, None, maxItems, 0) == Looping(0);
    } else {
      ForeverWithoutStop(items, process, maxItems, n);
    }
  }

  /** Once ended, the loop stays ended. */
  lemma {:induction false} EndedStaysEnded(items: seq<WorkItem>, process: Processor, stopAfter: Option<nat>,
          maxItems: Option<int>, n: nat, m: nat)
    requires n <= m && !ForeverAt(items, process, stopAfter, maxItems, n).Looping?
    ensures ForeverAt(items, process, stopAfter, maxItems, m) == ForeverAt(items, process, stopAfter, maxItems, n)
  {
    if n < m { EndedStaysEnded(items, process, stopAfter, maxItems, n, m - 1); }
  }

  lemma NextTurn(items: seq<WorkItem>, process: Processor, stopAfter: Option<nat>, maxItems: Option<int>, turn: nat,
                 k: nat)
    requires ForeverAt(items, process, stopAfter, maxItems, turn) == Looping(k)
    ensures k <= |items|
    ensures var next := ForeverAt(items, process, stopAfter, maxItems, turn + 1);
      if (stopAfter.Some? && turn >= stopAfter.value) || (maxItems.Some? && k >= maxItems.value) then next == Stopped(k)
      else if k == |items| then next == Looping(k)
      else if Throwing(process, items, k) then next == Threw(k)
      else next == Looping(k + 1)
  {
  }

  lemma TurnsAreBounded(items: seq<WorkItem>, process: Processor, stopAfter: Option<nat>, maxItems: Option<int>,
                        last: nat, turn: nat)
    requires !ForeverAt(items, process, stopAfter, maxItems, last + 1).Looping?
    requires ForeverAt(items, process, stopAfter, maxItems, turn).Looping?
    ensures turn <= last
  {
    if turn > last { EndedStaysEnded(items, process, stopAfter, maxItems, last + 1, turn); }
  }

  /** A turn by which the loop has ended. */
  lemma LastTurn(items: seq<WorkItem>, process: Processor, stopAfter: Option<nat>,
                 maxItems: Option<int>) returns (last: nat)
    requires HasReasonToEnd(items, process, stopAfter, maxItems)
    ensures !ForeverAt(items, process, stopAfter, maxItems, last + 1).Looping?
  {
    if stopAfter.Some? { last := stopAfter.value; } else { last := EndingTurn(items, process, maxItems); }
  }

  /** A turn that is neither stopped nor at the limit. */
  method TurnForever(q: LocalWorkQueue, process: Processor, n: nat, ghost items: seq<WorkItem>,
                     ghost acked: seq<WorkerResult>, ghost nacked: seq<WorkerResult>, ghost done: seq<WorkerResult>,
                     ghost stopAfter: Option<nat>, ghost maxItems: Option<int>, ghost turn: nat, ghost last: nat)
      returns (r: Result<Option<WorkerResult>, LoopError>)
    requires Stands(q, items, acked, nacked, process, done) && n == |done|
    requires ForeverAt(items, process, stopAfter, maxItems, turn) == Looping(n)
    requires (stopAfter.Some? ==> turn < stopAfter.value) && (maxItems.Some? ==> n < maxItems.value)
    requires !ForeverAt(items, process, stopAfter, maxItems, last + 1).Looping?
    modifies q
    ensures turn <= last
    ensures r == Success(None) ==>
      && Stands(q, items, acked, nacked, process, done)
      && ForeverAt(items, process, stopAfter, maxItems, turn + 1) == Looping(n)
    ensures r.Success? && r.value.Some? ==>
      && Stands(q, items, acked, nacked, process, done + [r.value.value])
      && ForeverAt(items, process, stopAfter, maxItems, turn + 1) == Looping(n + 1)
    ensures r.Failure? ==>
      && r.error.Raised? && Fell(q, items, acked, nacked, process, done, r.error.error)
      && ForeverAt(items, process, stopAfter, maxItems, turn + 1) == Threw(n)
  {
    TurnsAreBounded(items, process, stopAfter, maxItems, last, turn);
    NextTurn(items, process, stopAfter, maxItems, turn, n);
    r := TakeOne(q, process, n, items, acked, nacked, done);
  }

  /** The loop takes one item a turn while there are any, and stops for nothing but the flag or the limit. */
  lemma {:induction false} ForeverTakes(items: seq<WorkItem>, process: Processor, stopAfter: Option<nat>,
          maxItems: Option<int>, n: nat)
    requires !BadMaxItems(maxItems)
    ensures var f := ForeverAt(items, process, stopAfter, maxItems, n);
      && f.taken <= |items| && (stopAfter.Some? ==> f.taken <= stopAfter.value)
      && (maxItems.Some? ==> f.taken <= maxItems.value)
      && (f.Looping? ==>
        f.taken == (if n < |items| then n else |items|) && (stopAfter.Some? ==> n <= stopAfter.value))
      && (f.Stopped? ==>
        || maxItems == Some(f.taken)
        || (stopAfter.Some? && f.taken == if stopAfter.value < |items| then stopAfter.value else |items|))
      && (f.Threw? ==>
        && f.taken < |items| && process(items[f.taken], f.taken).Throws?
        && (stopAfter.Some? ==> f.taken < stopAfter.value) && (maxItems.Some? ==> f.taken < maxItems.value))
  {
    if n > 0 { ForeverTakes(items, process, stopAfter, maxItems, n - 1); }
  }

  /** The polling loop of `run_forever`. What it returns here went to the sink or to the list. */
  method Loop(q: LocalWorkQueue, process: Processor, stopAfter: Option<nat>, maxItems: Option<int>, ghost last: nat)
      returns (results: seq<WorkerResult>, raised: Option<string>, ghost turns: nat)
    requires !ForeverAt(q.items, process, stopAfter, maxItems, last + 1).Looping? && !BadMaxItems(maxItems)
    modifies q
    ensures raised.None? ==>
      && ForeverAt(old(q.items), process, stopAfter, maxItems, turns) == Stopped(|results|)
      && Stands(q, old(q.items), old(q.acked), old(q.nacked), process, results)
      && (stopAfter.None? ==> maxItems == Some(|results|))
    ensures raised.Some? ==>
      && ForeverAt(old(q.items), process, stopAfter, maxItems, turns) == Threw(|results|)
      && Fell(q, old(q.items), old(q.acked), old(q.nacked), process, results, raised.value)
      && (maxItems.Some? ==> |results| < maxItems.value)
  {
    ghost var start := q.items;
    var turn := 0;
    results := [];
    while (stopAfter.None? || turn < stopAfter.value) && (maxItems.None? || |results| < maxItems.value)
      invariant maxItems.Some? ==> |results| <= maxItems.value
      invariant ForeverAt(start, process, stopAfter, maxItems, turn) == Looping(|results|)
      invariant Stands(q, start, old(q.acked), old(q.nacked), process, results)
      decreases last + 1 - turn
    {
      var once := TurnForever(q, process, |results|, start, old(q.acked), old(q.nacked), results,
        stopAfter, maxItems, turn, last);
      turn := turn + 1;
      if once.Failure? { return results, Some(once.error.error), turn; }
      if once.value.Some? { results := results + [once.value.value]; }
    }
    NextTurn(start, process, stopAfter, maxItems, turn, |results|);
    raised, turns := None, turn + 1;
  }

  /**
   `run_forever`, for the calls that end; `stopAfter` is how many times the stop flag reads unset (None: no
   flag). With a sink, results go there, even when an item raises later, and the returned list is empty.
   */
  method RunForever(q: LocalWorkQueue, process: Processor, stopAfter: Option<nat>, pollInterval: real,
                    maxItems: Option<int>, useSink: bool)
      returns (r: Result<seq<WorkerResult>, LoopError>, sunk: seq<WorkerResult>, ghost done: seq<WorkerResult>,
        ghost turns: nat)
    requires HasReasonToEnd(q.items, process, stopAfter, maxItems)
    modifies q
    ensures (r.Failure? && r.error.ValueError?) <==> pollInterval < 0.0 || (maxItems.Some? && maxItems.value < 1)
    ensures pollInterval < 0.0 ==> r == Failure(ValueError("poll_interval_seconds"))
    ensures Worked(q, process, done) && sunk == if useSink then done else []
    ensures r.Failure? && r.error.ValueError? ==> done == [] && q.items == old(q.items)
    ensures r.Success? ==>
      && ForeverAt(old(q.items), process, stopAfter, maxItems, turns) == Stopped(|done|)
      && r.value == (if useSink then [] else done) && q.items == old(q.items)[|done|..]
      // One item a turn while there are any, up to the limit or the turn the flag is set.
      && |done| <= |old(q.items)| && (maxItems.Some? ==> |done| <= maxItems.value)
      && (stopAfter.Some? ==> |done| <= stopAfter.value)
      && (|done| == |old(q.items)| || maxItems == Some(|done|) || stopAfter == Some(|done|))
      && (stopAfter.None? ==> maxItems == Some(|done|))
    ensures r.Failure? && r.error.Raised? ==>
      && ForeverAt(old(q.items), process, stopAfter, maxItems, turns) == Threw(|done|)
      && |done| < Limit(maxItems, |old(q.items)|) && q.items == old(q.items)[|done| + 1..]
      && process(old(q.items)[|done|], |done|) == Throws(r.error.error)
  {
    if pollInterval < 0.0 {
      r, sunk, done, turns := Failure(ValueError("poll_interval_seconds")), [], [], 0;
    } else if maxItems.Some? && maxItems.value < 1 {
      r, sunk, done, turns := Failure(ValueError("max_items")), [], [], 0;
    } else {
      ghost var last := LastTurn(q.items, process, stopAfter, maxItems);
      var results, raised;
      results, raised, turns := Loop(q, process, stopAfter, maxItems, last);
      ForeverTakes(old(q.items), process, stopAfter, maxItems, turns);
      done, sunk := results, if useSink then results else [];
      r := if raised.Some? then Failure(Raised(raised.value)) else Success(if useSink then [] else results);
    }
  }

  /** With the same limit, within the queue, and no stop signal, the two loops return the same thing. */
  method LoopsAgree(a: LocalWorkQueue, b: LocalWorkQueue, process: Processor, maxIdlePolls: int, pollInterval: real,
                    maxItems: int)
      returns (ra: Result<seq<WorkerResult>, LoopError>, rb: Result<seq<WorkerResult>, LoopError>)
    requires a != b && a.items == b.items && maxItems <= |a.items| && maxIdlePolls >= 1
    modifies a, b
    ensures ra == rb || (ra.Failure? && rb.Failure? && ra.error.ValueError? && rb.error.ValueError?)
    ensures ra.Success? || ra.error.Raised? ==> a.items == b.items
  {
    ghost var items := a.items;
    var sunk;
    ghost var doneA, doneB, turns;
    ra, doneA := RunUntilIdle(a, process, maxIdlePolls, pollInterval, Some(maxItems));
    rb, sunk, doneB, turns := RunForever(b, process, None, pollInterval, Some(maxItems), false);
    YieldsAgree(process, items, doneA, doneB);
  }
}

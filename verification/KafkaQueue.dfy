/** `KafkaWorkQueue` of edc_translation/kafka_backend.py, with the turns of its IO loop as methods. */
module KafkaQueues {
  import opened Wrappers
  import opened WorkItems
  import opened KafkaSteps
  import KafkaSerials

  function Jobs(envelopes: seq<Envelope>): seq<Record> {
    if envelopes == [] then [] else Jobs(envelopes[..|envelopes| - 1]) + [Job(envelopes[|envelopes| - 1])]
  }

  function Sends(n: nat): seq<Step> {
    if n == 0 then [] else Sends(n - 1) + [Send]
  }

  class KafkaWorkQueue {
    const installed: bool
    var connected: bool
    var buffer: seq<WorkItem>
    var submitQ: seq<Envelope>
    var pollQ: seq<WorkItem>
    // The broker's log, as this queue's producer and consumer see it.
    var topic: seq<Record>
    var offset: nat
    ghost var history: Kafka
    ghost const start: seq<Record>
    ghost var run: seq<Step>

    /** The fields are those of the state the recorded steps lead to. */
    ghost predicate Valid()
      reads this
    {
      && ValidRun(Initial(installed, start), run)
      && history == After(Initial(installed, start), run)
      && history.installed == installed && history.connected == connected
      && history.buffer == buffer && history.submitQ == submitQ && history.pollQ == pollQ
      && history.topic == topic && history.offset == offset <= |topic|
    }

    constructor (installed: bool, log: seq<Record>)
      ensures Valid() && run == [] && start == log && this.installed == installed
    {
      this.installed, connected := installed, false;
      buffer, submitQ, pollQ, topic, offset := [], [], [], log, 0;
      start, run, history := log, [], Initial(installed, log);
    }

    /** Everything that came in is accounted for, each single item in one place, and no queue reordered it. */
    lemma Accounted()
      requires Valid()
      ensures Conserved(history) && InOrder(history)
      ensures var places := KafkaSerials.Track(installed, start, run);
        KafkaSerials.Fits(history, places) && forall s :: KafkaSerials.OnePlace(history, places, s)
    {
      forall s
        ensures KafkaSerials.OnePlace(history, KafkaSerials.Track(installed, start, run), s)
      {
        KafkaSerials.EveryItemIsInOnePlace(installed, start, run, s);
      }
      EveryRunConserves(installed, start, run);
      EveryRunKeepsOrder(installed, start, run);
    }

    ghost method Record(step: Step)
      requires ValidRun(Initial(installed, start), run) && history == After(Initial(installed, start), run)
      requires Enabled(history, step)
      modifies this`run, this`history
      ensures run == old(run) + [step] && history == Next(old(history), step)
      ensures ValidRun(Initial(installed, start), run) && history == After(Initial(installed, start), run)
    {
      RunExtends(Initial(installed, start), run, step);
      run, history := run + [step], Next(history, step);
    }

    // -------------------------------------------------------------- callers

    method Submit(item: WorkItem)
      requires Valid()
      modifies this
      ensures Valid() && run == old(run) + [KafkaSteps.Submit(item)]
      ensures if installed && connected
        then submitQ == old(submitQ) + [ToEnvelope(item)] && buffer == old(buffer)
        else buffer == old(buffer) + [item] && submitQ == old(submitQ)
      ensures pollQ == old(pollQ) && topic == old(topic) && offset == old(offset) && connected == old(connected)
    {
      Record(KafkaSteps.Submit(item));
      if !installed {
        buffer := buffer + [item];
      } else if connected {
        submitQ := submitQ + [ToEnvelope(item)];
      } else {
        buffer := buffer + [item];
      }
    }

    method Poll() returns (item: Option<WorkItem>)
      requires Valid()
      modifies this
      ensures Valid() && run == old(run) + [KafkaSteps.Poll]
      ensures item == Polled(old(history))
      // The answer is the oldest buffered item, or else the oldest consumed one; it goes, and it is what went out.
      ensures item ==
        if old(buffer) != [] then Some(old(buffer)[0])
        else if installed && old(pollQ) != [] then Some(old(pollQ)[0])
        else None
      ensures buffer == if old(buffer) != [] then old(buffer)[1..] else old(buffer)
      ensures pollQ == if old(buffer) == [] && item.Some? then old(pollQ)[1..] else old(pollQ)
      ensures history.polled == old(history).polled + (if item.Some? then [item.value] else [])
      ensures submitQ == old(submitQ) && topic == old(topic) && offset == old(offset) && connected == old(connected)
    {
      Record(KafkaSteps.Poll);
      if buffer != [] {
        item, buffer := Some(buffer[0]), buffer[1..];
      } else if !installed || pollQ == [] {
        item := None;
      } else {
        item, pollQ := Some(pollQ[0]), pollQ[1..];
      }
    }

    // -------------------------------------------------------------- the IO loop

    method Connected()
      requires Valid() && installed
      modifies this
      ensures Valid() && run == old(run) + [Connect] && connected
    {
      Record(Connect);
      connected := true;
    }

    /** The loop ends, or `stop` is called. */
    method Disconnected()
      requires Valid()
      modifies this
      ensures Valid() && run == old(run) + [Disconnect] && !connected
    {
      Record(Disconnect);
      connected := false;
    }

    method SendOne()
      requires Valid() && installed && submitQ != []
      modifies this
      ensures Valid() && run == old(run) + [Send]
      ensures submitQ == old(submitQ)[1..] && topic == old(topic) + [Job(old(submitQ)[0])]
    {
      Record(Send);
      topic, submitQ := topic + [Job(submitQ[0])], submitQ[1..];
    }

    /** Up to `limit` pending sends, all stored: one pass of the drain loop without a failure. */
    method DrainSubmits(limit: nat)
      requires Valid() && installed
      modifies this
      ensures Valid()
      ensures var n := if limit < |old(submitQ)| then limit else |old(submitQ)|;
        && submitQ == old(submitQ)[n..]
        && topic == old(topic) + Jobs(old(submitQ)[..n])
        && run == old(run) + Sends(n)
    {
      var sent := 0;
      while sent < limit && submitQ != []
        invariant sent <= limit && sent <= |old(submitQ)| && Valid()
        invariant submitQ == old(submitQ)[sent..]
        invariant topic == old(topic) + Jobs(old(submitQ)[..sent])
        invariant run == old(run) + Sends(sent)
        decreases |submitQ|
      {
        assert old(submitQ)[..sent + 1][..sent] == old(submitQ)[..sent];
        SendOne();
        sent := sent + 1;
      }
    }

    /** A send raises: the envelope is already off the queue, the broker may or may not have it, and the loop ends. */
    method SendRaises(stored: bool)
      requires Valid() && installed && submitQ != []
      modifies this
      ensures Valid() && run == old(run) + [SendFails(stored)] && !connected
      ensures submitQ == old(submitQ)[1..]
      ensures topic == old(topic) + (if stored then [Job(old(submitQ)[0])] else [])
    {
      Record(SendFails(stored));
      if stored { topic := topic + [Job(submitQ[0])]; }
      submitQ, connected := submitQ[1..], false;
    }

    /** Each message that decodes goes to the poll queue; the rest are skipped. */
    method EnqueueBatch(batch: seq<Record>)
      modifies this`pollQ
      ensures pollQ == old(pollQ) + Decoded(batch)
    {
      for i := 0 to |batch|
        invariant pollQ == old(pollQ) + Decoded(batch[..i])
      {
        assert batch[..i + 1][..i] == batch[..i];
        if batch[i].Job? { pollQ := pollQ + [FromEnvelope(batch[i].envelope)]; }
      }
      assert batch[..|batch|] == batch;
    }

    method Take(n: nat)
      requires Valid() && Enabled(history, Consume(n))
      modifies this
      ensures Valid()
      ensures run == old(run) + [Consume(n)]
      ensures pollQ == old(pollQ) + Decoded(old(topic)[old(offset)..old(offset) + n])
      ensures offset == old(offset) + n && topic == old(topic)
      ensures buffer == old(buffer) && submitQ == old(submitQ) && connected == old(connected)
    {
      var batch := topic[offset..offset + n];
      ConsumeIsDoConsume(history, n);
      Record(Consume(n));
      EnqueueBatch(batch);
      offset := offset + n;
    }

    /** One `getmany`: up to five of the records available. */
    method ConsumeBatch(available: nat)
      requires Valid() && installed && offset + available <= |topic|
      modifies this
      ensures Valid()
      ensures var n := if available < 5 then available else 5;
        && run == old(run) + [Consume(n)] && offset == old(offset) + n
        && pollQ == old(pollQ) + Decoded(old(topic)[old(offset)..old(offset) + n])
      ensures topic == old(topic) && buffer == old(buffer) && submitQ == old(submitQ) && connected == old(connected)
    {
      Take(if available < 5 then available else 5);
    }

    /** Another producer writes to the topic. */
    method Arrived(record: Record)
      requires Valid()
      modifies this
      ensures Valid() && run == old(run) + [Arrive(record)] && topic == old(topic) + [record]
    {
      Record(Arrive(record));
      topic := topic + [record];
    }
  }
}

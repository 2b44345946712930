/**
 The buffered Kafka queue of edc_translation/kafka_backend.py as interleaved atomic steps: callers submit
 and poll, the IO thread sends and consumes, the connection comes and goes. The topic is a log read once.
 */
module KafkaSteps {
  import opened Wrappers
  import opened WorkItems

  /** The job envelope; of a work item's fields it carries these and no others. */
  datatype Envelope = Envelope(
    jobId: string,
    tenantId: string,
    bundle: Bundle,
    targetLanguage: string,
    providerId: string,
    sourceLanguage: Option<string>,
    allowNcLicensed: bool,
    certified: bool)

  const NO_METADATA := Metadata(None, Unset, "")

  function ToEnvelope(x: WorkItem): Envelope {
    Envelope(
      if x.jobId.Some? && x.jobId.value != "" then x.jobId.value else "unknown",
      x.tenantId, x.bundle, x.targetLanguage, x.providerId, x.sourceLanguage, x.allowNcLicensed, x.certified)
  }

  function FromEnvelope(e: Envelope): WorkItem {
    WorkItem(e.bundle, e.targetLanguage, e.providerId, e.allowNcLicensed, e.certified, e.tenantId,
      None, None, NO_METADATA, Some(e.jobId), None, e.sourceLanguage)
  }

  /** The item as it comes out at the other end of the topic. */
  function Wire(x: WorkItem): WorkItem {
    FromEnvelope(ToEnvelope(x))
  }

  /** What the envelope takes from the item. */
  lemma EnvelopeTells(x: WorkItem)
    ensures var e := ToEnvelope(x);
      && e.jobId == (if x.jobId == None || x.jobId == Some("") then "unknown" else x.jobId.value)
      && e.tenantId == x.tenantId && e.bundle == x.bundle
      && e.targetLanguage == x.targetLanguage && e.providerId == x.providerId && e.sourceLanguage == x.sourceLanguage
      && e.allowNcLicensed == x.allowNcLicensed && e.certified == x.certified
  {
  }

  /** And what the consumer makes of an envelope. */
  lemma OpeningTells(e: Envelope)
    ensures var x := FromEnvelope(e);
      && x.jobId == Some(e.jobId) && x.workId == None && x.tenantId == e.tenantId && x.bundle == e.bundle
      && x.targetLanguage == e.targetLanguage && x.providerId == e.providerId && x.sourceLanguage == e.sourceLanguage
      && x.allowNcLicensed == e.allowNcLicensed && x.certified == e.certified
      && x.glossaryIds == None && x.instructionSetId == None && x.metadata == Metadata(None, Unset, "")
  {
  }

  /** Exactly the items with a job id and none of the uncarried fields cross the topic unchanged. */
  lemma WireIsLosslessIff(x: WorkItem)
    ensures Wire(x) == x <==>
      && x.jobId.Some? && x.jobId.value != ""
      && x.workId.None? && x.glossaryIds.None? && x.instructionSetId.None? && x.metadata == NO_METADATA
  {
  }

  /** The topic keeps the identity a durable row would have exactly for items with a job id and a default work id. */
  lemma WireKeepsIdsIff(x: WorkItem)
    requires x.Valid()
    ensures Wire(x).Valid()
    ensures (Wire(x).ResolvedJobId() == x.ResolvedJobId() && Wire(x).ResolvedWorkId() == x.ResolvedWorkId()) <==>
      && ((x.jobId.Some? && x.jobId.value != "") || x.ResolvedJobId() == "unknown")
      && x.ResolvedWorkId() == x.ResolvedJobId() + ":document"
  {
  }

  /** A record on the topic: one that decodes to a job envelope, or one the consumer skips. */
  datatype Record = Job(envelope: Envelope) | Malformed

  /** The queue, the topic, and the history of what went in and out. */
  datatype Kafka = Kafka(
    installed: bool,
    connected: bool,
    buffer: seq<WorkItem>,
    submitQ: seq<Envelope>,
    pollQ: seq<WorkItem>,
    topic: seq<Record>,
    offset: nat,
    submitted: seq<WorkItem>,
    foreign: seq<Record>,
    polled: seq<WorkItem>,
    lost: seq<Envelope>,
    failedSends: nat,
    order: Order)

  /** What entered and left each of the three queues, in order. */
  datatype Order = Order(
    buffered: seq<WorkItem>,
    unbuffered: seq<WorkItem>,
    enqueued: seq<Envelope>,
    taken: seq<Envelope>,
    delivered: seq<WorkItem>)

  function Initial(installed: bool, topic: seq<Record>): Kafka {
    Kafka(installed, false, [], [], [], topic, 0, [], topic, [], [], 0, Order([], [], [], [], []))
  }

  datatype Step =
    | Submit(item: WorkItem)
    | Poll
    | Connect
    | Disconnect
    | Send
    | SendFails(stored: bool)
    | Consume(count: nat)
    | Arrive(record: Record)

  predicate Enabled(k: Kafka, step: Step) {
    && k.offset <= |k.topic|
    && match step
       case Submit(_) => true
       case Poll => true
       case Disconnect => true
       case Arrive(_) => true
       case Connect => k.installed
       case Send => k.installed && k.submitQ != []
       case SendFails(_) => k.installed && k.submitQ != []
       case Consume(count) => k.installed && count <= 5 && k.offset + count <= |k.topic|
  }

  /** The items the consumer enqueues for these records. */
  function Decoded(records: seq<Record>): seq<WorkItem> {
    if records == [] then [] else
    Decoded(records[..|records| - 1]) +
    (match records[|records| - 1]
     case Job(e) => [FromEnvelope(e)]
     case Malformed => [])
  }

  function DoSubmit(k: Kafka, item: WorkItem): Kafka {
    var k := k.(submitted := k.submitted + [item]);
    if k.installed && k.connected then
      k.(submitQ := k.submitQ + [ToEnvelope(item)],
         order := k.order.(enqueued := k.order.enqueued + [ToEnvelope(item)]))
    else
      k.(buffer := k.buffer + [item], order := k.order.(buffered := k.order.buffered + [item]))
  }

  /** What a poll returns: the local buffer first, then the consumed items. */
  function Polled(k: Kafka): Option<WorkItem> {
    if k.buffer != [] then Some(k.buffer[0])
    else if k.installed && k.pollQ != [] then Some(k.pollQ[0])
    else None
  }

  function DoPoll(k: Kafka): Kafka {
    if k.buffer != [] then
      k.(buffer := k.buffer[1..], polled := k.polled + [k.buffer[0]],
         order := k.order.(unbuffered := k.order.unbuffered + [k.buffer[0]]))
    else if k.installed && k.pollQ != [] then
      k.(pollQ := k.pollQ[1..], polled := k.polled + [k.pollQ[0]],
         order := k.order.(delivered := k.order.delivered + [k.pollQ[0]]))
    else k
  }

  /** Takes the oldest queued envelope; the broker stores it, or it is lost. */
  function DoSend(k: Kafka, stored: bool): Kafka
    requires k.submitQ != []
  {
    var k' := k.(submitQ := k.submitQ[1..], order := k.order.(taken := k.order.taken + [k.submitQ[0]]));
    if stored then k'.(topic := k.topic + [Job(k.submitQ[0])]) else k'.(lost := k.lost + [k.submitQ[0]])
  }

  /** Reads the next `count` records, skipping what does not decode. */
  function DoConsume(k: Kafka, count: nat): Kafka
    requires k.offset + count <= |k.topic|
  {
    k.(offset := k.offset + count, pollQ := k.pollQ + Decoded(k.topic[k.offset..k.offset + count]))
  }

  /** Another producer's record. */
  function DoArrive(k: Kafka, r: Record): Kafka {
    k.(topic := k.topic + [r], foreign := k.foreign + [r])
  }

  function Next(k: Kafka, step: Step): Kafka
    requires Enabled(k, step)
  {
    match step
    case Submit(item) => DoSubmit(k, item)
    case Poll => DoPoll(k)
    case Connect => k.(connected := true)
    case Disconnect => k.(connected := false)
    case Send => DoSend(k, true)
    case SendFails(stored) => DoSend(k, stored).(connected := false, failedSends := k.failedSends + 1)
    case Consume(count) => DoConsume(k, count)
    case Arrive(r) => DoArrive(k, r)
  }

  lemma ConsumeIsDoConsume(k: Kafka, count: nat)
    requires Enabled(k, Consume(count))
    ensures Next(k, Consume(count)) == DoConsume(k, count)
    ensures DoConsume(k, count).pollQ == k.pollQ + Decoded(k.topic[k.offset..k.offset + count])
  {
  }

  /** The consumer takes the records one by one: a job envelope becomes an item, another record is skipped. */
  lemma OneMoreDecoded(records: seq<Record>, r: Record)
    ensures Decoded([]) == []
    ensures Decoded(records + [r]) == Decoded(records) + (if r.Job? then [FromEnvelope(r.envelope)] else [])
  {
    assert (records + [r])[..|records|] == records;
  }

  // ---------------------------------------------------------------- conservation

  /** How many of the items take the wire form `x`; and the same for envelopes and for records. */
  function Count(items: seq<WorkItem>, x: WorkItem): nat {
    if items == [] then 0 else (if Wire(items[0]) == x then 1 else 0) + Count(items[1..], x)
  }

  function CountOpened(envelopes: seq<Envelope>, x: WorkItem): nat {
    if envelopes == [] then 0 else
    (if Wire(FromEnvelope(envelopes[0])) == x then 1 else 0) + CountOpened(envelopes[1..], x)
  }

  function Holds(r: Record, x: WorkItem): nat {
    if r.Job? && Wire(FromEnvelope(r.envelope)) == x then 1 else 0
  }

  function CountRecords(records: seq<Record>, x: WorkItem): nat {
    if records == [] then 0 else Holds(records[0], x) + CountRecords(records[1..], x)
  }

  lemma {:induction false} CountAppend(a: seq<WorkItem>, b: seq<WorkItem>, x: WorkItem)
    ensures Count(a + b, x) == Count(a, x) + Count(b, x)
  {
    if a == [] {
      assert a + b == b;
    } else {
      assert (a + b)[1..] == a[1..] + b;
      CountAppend(a[1..], b, x);
    }
  }

  lemma {:induction false} CountOpenedAppend(a: seq<Envelope>, b: seq<Envelope>, x: WorkItem)
    ensures CountOpened(a + b, x) == CountOpened(a, x) + CountOpened(b, x)
  {
    if a == [] {
      assert a + b == b;
    } else {
      assert (a + b)[1..] == a[1..] + b;
      CountOpenedAppend(a[1..], b, x);
    }
  }

  lemma {:induction false} CountRecordsAppend(a: seq<Record>, b: seq<Record>, x: WorkItem)
    ensures CountRecords(a + b, x) == CountRecords(a, x) + CountRecords(b, x)
  {
    if a == [] {
      assert a + b == b;
    } else {
      assert (a + b)[1..] == a[1..] + b;
      CountRecordsAppend(a[1..], b, x);
    }
  }

  /** Consuming a record and decoding it are the same thing to the count. */
  lemma {:induction false} CountDecoded(records: seq<Record>, x: WorkItem)
    ensures Count(Decoded(records), x) == CountRecords(records, x)
  {
    if records != [] {
      var init, r := records[..|records| - 1], records[|records| - 1];
      CountDecoded(init, x);
      assert records == init + [r];
      CountRecordsAppend(init, [r], x);
      CountAppend(Decoded(init), if r.Job? then [FromEnvelope(r.envelope)] else [], x);
    }
  }

  /** Everything that came in, counted by wire form. */
  function Inflow(k: Kafka, x: WorkItem): nat {
    Count(k.submitted, x) + CountRecords(k.foreign, x)
  }

  /** Where it can be: local buffer, submit queue, unread topic, poll queue, polled, lost. */
  function Stock(k: Kafka, x: WorkItem): nat
    requires k.offset <= |k.topic|
  {
    Count(k.buffer, x) + CountOpened(k.submitQ, x) + CountRecords(k.topic[k.offset..], x) + Count(k.pollQ, x)
      + Count(k.polled, x) + CountOpened(k.lost, x)
  }

  ghost predicate Conserved(k: Kafka) {
    && k.offset <= |k.topic|
    && |k.lost| <= k.failedSends
    && forall x :: Inflow(k, x) == Stock(k, x)
  }

  lemma SubmitConserves(k: Kafka, item: WorkItem, x: WorkItem)
    requires k.offset <= |k.topic| && Inflow(k, x) == Stock(k, x)
    ensures Inflow(DoSubmit(k, item), x) == Stock(DoSubmit(k, item), x)
  {
    CountAppend(k.submitted, [item], x);
    CountAppend(k.buffer, [item], x);
    CountOpenedAppend(k.submitQ, [ToEnvelope(item)], x);
  }

  lemma PollConserves(k: Kafka, x: WorkItem)
    requires k.offset <= |k.topic| && Inflow(k, x) == Stock(k, x)
    ensures Inflow(DoPoll(k), x) == Stock(DoPoll(k), x)
  {
    if k.buffer != [] {
      CountAppend(k.polled, [k.buffer[0]], x);
    } else if k.pollQ != [] {
      CountAppend(k.polled, [k.pollQ[0]], x);
    }
  }

  lemma UnreadAppend(topic: seq<Record>, offset: nat, r: Record, x: WorkItem)
    requires offset <= |topic|
    ensures CountRecords((topic + [r])[offset..], x) == CountRecords(topic[offset..], x) + Holds(r, x)
  {
    assert (topic + [r])[offset..] == topic[offset..] + [r];
    CountRecordsAppend(topic[offset..], [r], x);
  }

  lemma SendConserves(k: Kafka, stored: bool, x: WorkItem)
    requires k.submitQ != [] && k.offset <= |k.topic| && Inflow(k, x) == Stock(k, x)
    ensures Inflow(DoSend(k, stored), x) == Stock(DoSend(k, stored), x)
  {
    UnreadAppend(k.topic, k.offset, Job(k.submitQ[0]), x);
    CountOpenedAppend(k.lost, [k.submitQ[0]], x);
  }

  /** Moving items from the unread topic to the poll queue keeps the stock. */
  lemma MovingKeepsStock(k: Kafka, offset: nat, pollQ: seq<WorkItem>, x: WorkItem)
    requires k.offset <= |k.topic| && offset <= |k.topic|
    requires CountRecords(k.topic[k.offset..], x) + Count(k.pollQ, x)
      == CountRecords(k.topic[offset..], x) + Count(pollQ, x)
    ensures var k' := k.(offset := offset, pollQ := pollQ);
      Inflow(k', x) == Inflow(k, x) && Stock(k', x) == Stock(k, x)
  {
  }

  /** What a batch takes off the unread topic it puts on the poll queue. */
  lemma BatchMoves(k: Kafka, count: nat, x: WorkItem) returns (offset: nat, pollQ: seq<WorkItem>)
    requires k.offset + count <= |k.topic|
    ensures offset <= |k.topic| && DoConsume(k, count) == k.(offset := offset, pollQ := pollQ)
    ensures CountRecords(k.topic[k.offset..], x) + Count(k.pollQ, x)
      == CountRecords(k.topic[offset..], x) + Count(pollQ, x)
  {
    offset := k.offset + count;
    var batch := k.topic[k.offset..offset];
    pollQ := k.pollQ + Decoded(batch);
    assert k.topic[k.offset..] == batch + k.topic[offset..];
    CountRecordsAppend(batch, k.topic[offset..], x);
    CountDecoded(batch, x);
    CountAppend(k.pollQ, Decoded(batch), x);
  }

  lemma ConsumeConserves(k: Kafka, count: nat, x: WorkItem)
    requires k.offset + count <= |k.topic| && Inflow(k, x) == Stock(k, x)
    ensures Inflow(DoConsume(k, count), x) == Stock(DoConsume(k, count), x)
  {
    var offset, pollQ := BatchMoves(k, count, x);
    MovingKeepsStock(k, offset, pollQ, x);
  }

  lemma ArriveConserves(k: Kafka, r: Record, x: WorkItem)
    requires k.offset <= |k.topic| && Inflow(k, x) == Stock(k, x)
    ensures Inflow(DoArrive(k, r), x) == Stock(DoArrive(k, r), x)
  {
    UnreadAppend(k.topic, k.offset, r, x);
    CountRecordsAppend(k.foreign, [r], x);
  }

  lemma ConnectionCarriesNothing(k: Kafka, connected: bool, failedSends: nat, x: WorkItem)
    requires k.offset <= |k.topic|
    ensures var k' := k.(connected := connected, failedSends := failedSends);
      Inflow(k', x) == Inflow(k, x) && Stock(k', x) == Stock(k, x)
  {
  }

  lemma StepConservesCount(k: Kafka, step: Step, x: WorkItem)
    requires k.offset <= |k.topic| && Inflow(k, x) == Stock(k, x) && Enabled(k, step)
    ensures Next(k, step).offset <= |Next(k, step).topic| && Inflow(Next(k, step), x) == Stock(Next(k, step), x)
  {
    match step
    case Submit(item) => SubmitConserves(k, item, x);
    case Poll => PollConserves(k, x);
    case Connect => ConnectionCarriesNothing(k, true, k.failedSends, x);
    case Disconnect => ConnectionCarriesNothing(k, false, k.failedSends, x);
    case Send => SendConserves(k, true, x);
    case SendFails(stored) =>
      SendConserves(k, stored, x);
      ConnectionCarriesNothing(DoSend(k, stored), false, k.failedSends + 1, x);
    case Consume(count) => ConsumeConserves(k, count, x);
    case Arrive(r) => ArriveConserves(k, r, x);
  }

  lemma StepLosesAtMostOne(k: Kafka, step: Step)
    requires Enabled(k, step)
    ensures |Next(k, step).lost| - |k.lost| <= Next(k, step).failedSends - k.failedSends
    ensures Next(k, step).offset <= |Next(k, step).topic|
  {
  }

  lemma StepConserves(k: Kafka, step: Step)
    requires Conserved(k) && Enabled(k, step)
    ensures Conserved(Next(k, step))
  {
    StepLosesAtMostOne(k, step);
    forall x
      ensures Inflow(Next(k, step), x) == Stock(Next(k, step), x)
    {
      StepConservesCount(k, step, x);
    }
  }

  // ---------------------------------------------------------------- runs

  predicate ValidRun(k0: Kafka, run: seq<Step>)
    decreases |run|, 0
  {
    run == [] || (ValidRun(k0, run[..|run| - 1]) && Enabled(After(k0, run[..|run| - 1]), run[|run| - 1]))
  }

  function After(k0: Kafka, run: seq<Step>): Kafka
    requires ValidRun(k0, run)
    decreases |run|, 1
  {
    if run == [] then k0 else Next(After(k0, run[..|run| - 1]), run[|run| - 1])
  }

  lemma InitialIsConserved(installed: bool, topic: seq<Record>)
    ensures Conserved(Initial(installed, topic))
  {
    assert topic[0..] == topic;
  }

  /**
   Main result: over every interleaving, what was submitted, and what others put on the topic, is in the
   buffer, the submit queue, the unread topic or the poll queue, or was polled, or was lost; and at most
   one item is lost per failed send.
   */
  lemma {:induction false} EveryRunConserves(installed: bool, topic: seq<Record>, run: seq<Step>)
    requires ValidRun(Initial(installed, topic), run)
    ensures Conserved(After(Initial(installed, topic), run))
  {
    if run == [] {
      InitialIsConserved(installed, topic);
    } else {
      EveryRunConserves(installed, topic, run[..|run| - 1]);
      StepConserves(After(Initial(installed, topic), run[..|run| - 1]), run[|run| - 1]);
    }
  }

  /** Each of the three queues is first in, first out; the consumed part of the topic is the third one's input. */
  predicate InOrder(k: Kafka) {
    && k.order.buffered == k.order.unbuffered + k.buffer
    && k.order.enqueued == k.order.taken + k.submitQ
    && k.offset <= |k.topic|
    && Decoded(k.topic[..k.offset]) == k.order.delivered + k.pollQ
  }

  lemma {:induction false} DecodedAppend(a: seq<Record>, b: seq<Record>)
    ensures Decoded(a + b) == Decoded(a) + Decoded(b)
  {
    if b == [] {
      assert a + b == a;
    } else {
      assert (a + b)[..|a + b| - 1] == a + b[..|b| - 1];
      DecodedAppend(a, b[..|b| - 1]);
    }
  }

  lemma DecodedUpTo(topic: seq<Record>, from: nat, to: nat)
    requires from <= to <= |topic|
    ensures Decoded(topic[..to]) == Decoded(topic[..from]) + Decoded(topic[from..to])
  {
    assert topic[..to] == topic[..from] + topic[from..to];
    DecodedAppend(topic[..from], topic[from..to]);
  }

  lemma ConsumeKeepsOrder(k: Kafka, count: nat)
    requires InOrder(k) && k.offset + count <= |k.topic|
    ensures InOrder(DoConsume(k, count))
  {
    DecodedUpTo(k.topic, k.offset, k.offset + count);
  }

  lemma TopicGrowthKeepsOrder(k: Kafka, r: Record)
    requires k.offset <= |k.topic|
    ensures (k.topic + [r])[..k.offset] == k.topic[..k.offset]
  {
  }

  lemma StepKeepsOrder(k: Kafka, step: Step)
    requires InOrder(k) && Enabled(k, step)
    ensures InOrder(Next(k, step))
  {
    match step
    case Submit(_) =>
    case Poll =>
    case Connect =>
    case Disconnect =>
    case Send => TopicGrowthKeepsOrder(k, Job(k.submitQ[0]));
    case SendFails(_) => TopicGrowthKeepsOrder(k, Job(k.submitQ[0]));
    case Consume(count) => ConsumeKeepsOrder(k, count);
    case Arrive(r) => TopicGrowthKeepsOrder(k, r);
  }

  /** Over every interleaving, no queue reorders. */
  lemma {:induction false} EveryRunKeepsOrder(installed: bool, topic: seq<Record>, run: seq<Step>)
    requires ValidRun(Initial(installed, topic), run)
    ensures InOrder(After(Initial(installed, topic), run))
  {
    if run == [] {
      assert topic[..0] == [];
    } else {
      EveryRunKeepsOrder(installed, topic, run[..|run| - 1]);
      StepKeepsOrder(After(Initial(installed, topic), run[..|run| - 1]), run[|run| - 1]);
    }
  }

  /** With no broker ever reached, polls return exactly the submitted items in submit order. */
  lemma {:induction false} WithoutBrokerFirstInFirstOut(installed: bool, run: seq<Step>)
    requires ValidRun(Initial(installed, []), run)
    requires forall i :: 0 <= i < |run| ==> run[i].Submit? || run[i].Poll? || run[i].Disconnect?
    ensures var k := After(Initial(installed, []), run);
      && !k.connected && k.submitted == k.polled + k.buffer
      && k.submitQ == [] && k.pollQ == [] && k.lost == [] && k.topic == []
  {
    if run != [] {
      WithoutBrokerFirstInFirstOut(installed, run[..|run| - 1]);
      var k := After(Initial(installed, []), run[..|run| - 1]);
      assert k.buffer != [] ==> k.polled + k.buffer == (k.polled + [k.buffer[0]]) + k.buffer[1..];
      match run[|run| - 1]
      case Submit(item) => assert k.polled + k.buffer + [item] == k.polled + (k.buffer + [item]);
      case _ =>
    }
  }

  lemma {:induction false} RunExtends(k0: Kafka, run: seq<Step>, step: Step)
    requires ValidRun(k0, run) && Enabled(After(k0, run), step)
    ensures ValidRun(k0, run + [step]) && After(k0, run + [step]) == Next(After(k0, run), step)
  {
    assert (run + [step])[..|run|] == run;
  }
}

/**
 Where each single item is. Every submit and every foreign record carries a serial number through the queue;
 over every interleaving each number is in exactly one place, next to the item it was given to.
 */
module KafkaSerials {
  import opened Wrappers
  import opened WorkItems
  import opened KafkaSteps

  /** The n-th submitted item, or the n-th record another producer put on the topic. */
  datatype Serial = Own(n: nat) | Foreign(n: nat)

  datatype Places = Places(
    buffer: seq<Serial>,
    submitQ: seq<Serial>,
    unread: seq<Serial>,
    pollQ: seq<Serial>,
    polled: seq<Serial>,
    lost: seq<Serial>,
    skipped: seq<Serial>)

  function Numbers(n: nat): (ss: seq<Serial>)
    ensures |ss| == n && forall i :: 0 <= i < n ==> ss[i] == Foreign(i)
  {
    if n == 0 then [] else Numbers(n - 1) + [Foreign(n - 1)]
  }

  /** The serials of the records that decode, or of those that do not. */
  function Sift(serials: seq<Serial>, records: seq<Record>, decodes: bool): seq<Serial>
    requires |serials| == |records|
  {
    if serials == [] then [] else
    Sift(serials[..|serials| - 1], records[..|records| - 1], decodes)
    + (if records[|records| - 1].Job? == decodes then [serials[|serials| - 1]] else [])
  }

  /** A batch goes to the poll queue, but for what does not decode. */
  function Take(p: Places, batch: seq<Record>): Places
    requires |batch| <= |p.unread|
  {
    var taken := p.unread[..|batch|];
    p.(unread := p.unread[|batch|..],
       pollQ := p.pollQ + Sift(taken, batch, true),
       skipped := p.skipped + Sift(taken, batch, false))
  }

  /** The serials go where the step takes their items. */
  function Follow(k: Kafka, p: Places, step: Step): Places
    requires Enabled(k, step) && Fits(k, p)
  {
    match step
    case Submit(_) =>
      if k.installed && k.connected then p.(submitQ := p.submitQ + [Own(|k.submitted|)])
      else p.(buffer := p.buffer + [Own(|k.submitted|)])
    case Poll =>
      if k.buffer != [] then p.(buffer := p.buffer[1..], polled := p.polled + [p.buffer[0]])
      else if k.installed && k.pollQ != [] then p.(pollQ := p.pollQ[1..], polled := p.polled + [p.pollQ[0]])
      else p
    case Connect => p
    case Disconnect => p
    case Send => p.(submitQ := p.submitQ[1..], unread := p.unread + [p.submitQ[0]])
    case SendFails(stored) =>
      if stored then p.(submitQ := p.submitQ[1..], unread := p.unread + [p.submitQ[0]])
      else p.(submitQ := p.submitQ[1..], lost := p.lost + [p.submitQ[0]])
    case Consume(count) => Take(p, k.topic[k.offset..k.offset + count])
    case Arrive(_) => p.(unread := p.unread + [Foreign(|k.foreign|)])
  }

  // ---------------------------------------------------------------- each serial is beside its item

  /** What the serials stand for. */
  datatype Ledger = Ledger(submitted: seq<WorkItem>, foreign: seq<Record>)

  function LedgerOf(k: Kafka): Ledger {
    Ledger(k.submitted, k.foreign)
  }

  predicate Issued(g: Ledger, s: Serial) {
    match s
    case Own(n) => n < |g.submitted|
    case Foreign(n) => n < |g.foreign|
  }

  /** What the serial's item is on the topic. */
  function RecordOf(g: Ledger, s: Serial): Record
    requires Issued(g, s)
  {
    match s
    case Own(n) => Job(ToEnvelope(g.submitted[n]))
    case Foreign(n) => g.foreign[n]
  }

  /** The item is the serial's own, untouched. */
  predicate AsSubmitted(g: Ledger, s: Serial, item: WorkItem) {
    s.Own? && Issued(g, s) && g.submitted[s.n] == item
  }

  predicate AsRecord(g: Ledger, s: Serial, r: Record) {
    Issued(g, s) && RecordOf(g, s) == r
  }

  predicate AsEnvelope(g: Ledger, s: Serial, e: Envelope) {
    s.Own? && AsRecord(g, s, Job(e))
  }

  /** The item is the serial's, as it comes off the topic. */
  predicate AsDelivered(g: Ledger, s: Serial, item: WorkItem) {
    Issued(g, s) && RecordOf(g, s).Job? && FromEnvelope(RecordOf(g, s).envelope) == item
  }

  predicate Buffered(g: Ledger, ss: seq<Serial>, items: seq<WorkItem>) {
    |ss| == |items| && forall i :: 0 <= i < |ss| ==> AsSubmitted(g, ss[i], items[i])
  }

  predicate Enveloped(g: Ledger, ss: seq<Serial>, es: seq<Envelope>) {
    |ss| == |es| && forall i :: 0 <= i < |ss| ==> AsEnvelope(g, ss[i], es[i])
  }

  predicate OnTopic(g: Ledger, ss: seq<Serial>, rs: seq<Record>) {
    |ss| == |rs| && forall i :: 0 <= i < |ss| ==> AsRecord(g, ss[i], rs[i])
  }

  predicate Delivered(g: Ledger, ss: seq<Serial>, items: seq<WorkItem>) {
    |ss| == |items| && forall i :: 0 <= i < |ss| ==> AsDelivered(g, ss[i], items[i])
  }

  predicate PolledAs(g: Ledger, ss: seq<Serial>, items: seq<WorkItem>) {
    |ss| == |items| && forall i :: 0 <= i < |ss| ==> AsSubmitted(g, ss[i], items[i]) || AsDelivered(g, ss[i], items[i])
  }

  predicate Skipped(g: Ledger, ss: seq<Serial>) {
    forall i :: 0 <= i < |ss| ==> AsRecord(g, ss[i], Malformed)
  }

  predicate Fits(k: Kafka, p: Places) {
    var g := LedgerOf(k);
    && k.offset <= |k.topic|
    && Buffered(g, p.buffer, k.buffer)
    && Enveloped(g, p.submitQ, k.submitQ)
    && OnTopic(g, p.unread, k.topic[k.offset..])
    && Delivered(g, p.pollQ, k.pollQ)
    && PolledAs(g, p.polled, k.polled)
    && Enveloped(g, p.lost, k.lost)
    && Skipped(g, p.skipped)
  }

  /** The later ledger has everything the earlier one has. */
  predicate Grows(g: Ledger, h: Ledger) {
    g.submitted <= h.submitted && g.foreign <= h.foreign
  }

  lemma IssuedStays(g: Ledger, h: Ledger, s: Serial)
    requires Issued(g, s) && Grows(g, h)
    ensures Issued(h, s) && RecordOf(h, s) == RecordOf(g, s)
    ensures s.Own? ==> h.submitted[s.n] == g.submitted[s.n]
  {
  }

  lemma LedgerGrows(g: Ledger, h: Ledger)
    requires Grows(g, h)
    ensures forall ss, items :: Buffered(g, ss, items) ==> Buffered(h, ss, items)
    ensures forall ss, es :: Enveloped(g, ss, es) ==> Enveloped(h, ss, es)
    ensures forall ss, rs :: OnTopic(g, ss, rs) ==> OnTopic(h, ss, rs)
    ensures forall ss, items :: Delivered(g, ss, items) ==> Delivered(h, ss, items)
    ensures forall ss, items :: PolledAs(g, ss, items) ==> PolledAs(h, ss, items)
    ensures forall ss :: Skipped(g, ss) ==> Skipped(h, ss)
  {
    forall s | Issued(g, s)
      ensures Issued(h, s) && RecordOf(h, s) == RecordOf(g, s)
      ensures s.Own? ==> h.submitted[s.n] == g.submitted[s.n]
    {
      IssuedStays(g, h, s);
    }
  }

  lemma {:induction false} SiftFits(g: Ledger, ss: seq<Serial>, rs: seq<Record>)
    requires OnTopic(g, ss, rs)
    ensures Delivered(g, Sift(ss, rs, true), Decoded(rs)) && Skipped(g, Sift(ss, rs, false))
  {
    if ss != [] {
      var n := |ss| - 1;
      SiftFits(g, ss[..n], rs[..n]);
      assert AsRecord(g, ss[n], rs[n]);
    }
  }

  lemma SubmitFits(k: Kafka, p: Places, item: WorkItem)
    requires Fits(k, p)
    ensures Fits(DoSubmit(k, item), Follow(k, p, Submit(item)))
  {
    var k' := DoSubmit(k, item);
    var g, h, s := LedgerOf(k), LedgerOf(k'), Own(|k.submitted|);
    LedgerGrows(g, h);
    assert AsSubmitted(h, s, item) && AsEnvelope(h, s, ToEnvelope(item));
  }

  lemma TopicTail(topic: seq<Record>, offset: nat, r: Record)
    requires offset <= |topic|
    ensures (topic + [r])[offset..] == topic[offset..] + [r]
  {
  }

  lemma ArriveFits(k: Kafka, p: Places, r: Record)
    requires Fits(k, p)
    ensures Fits(DoArrive(k, r), Follow(k, p, Arrive(r)))
  {
    var k' := DoArrive(k, r);
    LedgerGrows(LedgerOf(k), LedgerOf(k'));
    TopicTail(k.topic, k.offset, r);
    assert AsRecord(LedgerOf(k'), Foreign(|k.foreign|), r);
  }

  lemma SendFits(k: Kafka, p: Places, stored: bool)
    requires Fits(k, p) && Enabled(k, SendFails(stored))
    ensures Fits(DoSend(k, stored), Follow(k, p, SendFails(stored)))
  {
    TopicTail(k.topic, k.offset, Job(k.submitQ[0]));
    assert AsEnvelope(LedgerOf(k), p.submitQ[0], k.submitQ[0]);
  }

  lemma PollFits(k: Kafka, p: Places)
    requires Fits(k, p)
    ensures Fits(DoPoll(k), Follow(k, p, Poll))
  {
  }

  lemma OnTopicTail(g: Ledger, ss: seq<Serial>, rs: seq<Record>, n: nat)
    requires OnTopic(g, ss, rs) && n <= |ss|
    ensures OnTopic(g, ss[n..], rs[n..]) && OnTopic(g, ss[..n], rs[..n])
  {
  }

  lemma DeliveredMore(g: Ledger, ss: seq<Serial>, items: seq<WorkItem>, ss': seq<Serial>, items': seq<WorkItem>)
    requires Delivered(g, ss, items) && Delivered(g, ss', items')
    ensures Delivered(g, ss + ss', items + items')
  {
  }

  lemma TakeFits(g: Ledger, p: Places, rs: seq<Record>, n: nat, items: seq<WorkItem>)
    requires OnTopic(g, p.unread, rs) && n <= |rs| && Delivered(g, p.pollQ, items) && Skipped(g, p.skipped)
    ensures OnTopic(g, Take(p, rs[..n]).unread, rs[n..])
    ensures Delivered(g, Take(p, rs[..n]).pollQ, items + Decoded(rs[..n]))
    ensures Skipped(g, Take(p, rs[..n]).skipped)
  {
    OnTopicTail(g, p.unread, rs, n);
    SiftFits(g, p.unread[..n], rs[..n]);
    DeliveredMore(g, p.pollQ, items, Sift(p.unread[..n], rs[..n], true), Decoded(rs[..n]));
  }

  lemma BatchOfUnread(topic: seq<Record>, offset: nat, count: nat)
    requires offset + count <= |topic|
    ensures topic[offset..][..count] == topic[offset..offset + count]
    ensures topic[offset..][count..] == topic[offset + count..]
  {
  }

  lemma ConsumeFits(k: Kafka, p: Places, count: nat)
    requires Fits(k, p) && Enabled(k, Consume(count))
    ensures Fits(DoConsume(k, count), Follow(k, p, Consume(count)))
  {
    BatchOfUnread(k.topic, k.offset, count);
    TakeFits(LedgerOf(k), p, k.topic[k.offset..], count, k.pollQ);
  }

  lemma StepFits(k: Kafka, p: Places, step: Step)
    requires Fits(k, p) && Enabled(k, step)
    ensures Fits(Next(k, step), Follow(k, p, step))
  {
    match step
    case Submit(item) => SubmitFits(k, p, item);
    case Poll => PollFits(k, p);
    case Connect =>
    case Disconnect =>
    case Send => SendFits(k, p, true);
    case SendFails(stored) => SendFits(k, p, stored);
    case Consume(count) => ConsumeFits(k, p, count);
    case Arrive(r) => ArriveFits(k, p, r);
  }

  // ---------------------------------------------------------------- each serial is in one place

  function Times(serials: seq<Serial>, s: Serial): nat {
    if serials == [] then 0 else (if serials[0] == s then 1 else 0) + Times(serials[1..], s)
  }

  lemma {:induction false} TimesAppend(a: seq<Serial>, b: seq<Serial>, s: Serial)
    ensures Times(a + b, s) == Times(a, s) + Times(b, s)
  {
    if a == [] {
      assert a + b == b;
    } else {
      assert (a + b)[1..] == a[1..] + b;
      TimesAppend(a[1..], b, s);
    }
  }

  lemma TimesOne(t: Serial, s: Serial)
    ensures Times([t], s) == if t == s then 1 else 0
  {
  }

  lemma {:induction false} TimesSift(serials: seq<Serial>, records: seq<Record>, s: Serial)
    requires |serials| == |records|
    ensures Times(Sift(serials, records, true), s) + Times(Sift(serials, records, false), s) == Times(serials, s)
  {
    if serials != [] {
      var n := |serials| - 1;
      TimesSift(serials[..n], records[..n], s);
      assert serials == serials[..n] + [serials[n]];
      TimesAppend(serials[..n], [serials[n]], s);
      var kept, rest := Sift(serials[..n], records[..n], true), Sift(serials[..n], records[..n], false);
      if records[n].Job? {
        assert Sift(serials, records, false) == rest;
        TimesAppend(kept, [serials[n]], s);
      } else {
        assert Sift(serials, records, true) == kept;
        TimesAppend(rest, [serials[n]], s);
      }
    }
  }

  /** How often the serial occurs, over all places. */
  function Total(p: Places, s: Serial): nat {
    Times(p.buffer, s) + Times(p.submitQ, s) + Times(p.unread, s) + Times(p.pollQ, s) + Times(p.polled, s)
      + Times(p.lost, s) + Times(p.skipped, s)
  }

  /** A serial is in exactly one place once it is issued, and nowhere before. */
  predicate OnePlace(k: Kafka, p: Places, s: Serial) {
    Total(p, s) == if Issued(LedgerOf(k), s) then 1 else 0
  }

  lemma MoveHead(from: seq<Serial>, to: seq<Serial>, s: Serial)
    requires from != []
    ensures Times(from[1..], s) + Times(to + [from[0]], s) == Times(from, s) + Times(to, s)
  {
    TimesAppend(to, [from[0]], s);
  }

  lemma IssueTotal(p: Places, issued: Serial, s: Serial)
    ensures Total(p.(submitQ := p.submitQ + [issued]), s) == Total(p, s) + if issued == s then 1 else 0
    ensures Total(p.(buffer := p.buffer + [issued]), s) == Total(p, s) + if issued == s then 1 else 0
    ensures Total(p.(unread := p.unread + [issued]), s) == Total(p, s) + if issued == s then 1 else 0
  {
    TimesAppend(p.submitQ, [issued], s);
    TimesAppend(p.buffer, [issued], s);
    TimesAppend(p.unread, [issued], s);
    TimesOne(issued, s);
  }

  lemma PollTotal(p: Places, s: Serial)
    ensures p.buffer != [] ==> Total(p.(buffer := p.buffer[1..], polled := p.polled + [p.buffer[0]]), s) == Total(p, s)
    ensures p.pollQ != [] ==> Total(p.(pollQ := p.pollQ[1..], polled := p.polled + [p.pollQ[0]]), s) == Total(p, s)
  {
    if p.buffer != [] { MoveHead(p.buffer, p.polled, s); }
    if p.pollQ != [] { MoveHead(p.pollQ, p.polled, s); }
  }

  lemma SendTotal(p: Places, s: Serial)
    requires p.submitQ != []
    ensures Total(p.(submitQ := p.submitQ[1..], unread := p.unread + [p.submitQ[0]]), s) == Total(p, s)
    ensures Total(p.(submitQ := p.submitQ[1..], lost := p.lost + [p.submitQ[0]]), s) == Total(p, s)
  {
    MoveHead(p.submitQ, p.unread, s);
    MoveHead(p.submitQ, p.lost, s);
  }

  lemma SiftTotal(taken: seq<Serial>, batch: seq<Record>, pollQ: seq<Serial>, skipped: seq<Serial>, s: Serial)
    requires |taken| == |batch|
    ensures Times(pollQ + Sift(taken, batch, true), s) + Times(skipped + Sift(taken, batch, false), s)
      == Times(taken, s) + Times(pollQ, s) + Times(skipped, s)
  {
    TimesSift(taken, batch, s);
    TimesAppend(pollQ, Sift(taken, batch, true), s);
    TimesAppend(skipped, Sift(taken, batch, false), s);
  }

  lemma TimesSplit(unread: seq<Serial>, n: nat, s: Serial)
    requires n <= |unread|
    ensures Times(unread[..n], s) + Times(unread[n..], s) == Times(unread, s)
  {
    assert unread == unread[..n] + unread[n..];
    TimesAppend(unread[..n], unread[n..], s);
  }

  lemma TakeTotal(p: Places, batch: seq<Record>, s: Serial)
    requires |batch| <= |p.unread|
    ensures Total(Take(p, batch), s) == Total(p, s)
  {
    TimesSplit(p.unread, |batch|, s);
    SiftTotal(p.unread[..|batch|], batch, p.pollQ, p.skipped, s);
  }

  function IssuedBy(k: Kafka, step: Step): Option<Serial> {
    match step
    case Submit(_) => Some(Own(|k.submitted|))
    case Arrive(_) => Some(Foreign(|k.foreign|))
    case _ => None
  }

  lemma StepIssues(k: Kafka, step: Step, s: Serial)
    requires Enabled(k, step)
    ensures Issued(LedgerOf(Next(k, step)), s) <==> Issued(LedgerOf(k), s) || IssuedBy(k, step) == Some(s)
    ensures IssuedBy(k, step) == Some(s) ==> !Issued(LedgerOf(k), s)
  {
  }

  lemma FollowIssue(k: Kafka, p: Places, step: Step, s: Serial)
    requires Fits(k, p) && Enabled(k, step) && (step.Submit? || step.Arrive?)
    ensures Total(Follow(k, p, step), s) == Total(p, s) + if IssuedBy(k, step) == Some(s) then 1 else 0
  {
    IssueTotal(p, IssuedBy(k, step).value, s);
  }

  lemma FollowPoll(k: Kafka, p: Places, s: Serial)
    requires Fits(k, p) && Enabled(k, Poll)
    ensures Total(Follow(k, p, Poll), s) == Total(p, s)
  {
    PollTotal(p, s);
  }

  lemma FollowSend(k: Kafka, p: Places, step: Step, s: Serial)
    requires Fits(k, p) && Enabled(k, step) && (step.Send? || step.SendFails?)
    ensures Total(Follow(k, p, step), s) == Total(p, s)
  {
    SendTotal(p, s);
  }

  lemma FollowConsume(k: Kafka, p: Places, count: nat, s: Serial)
    requires Fits(k, p) && Enabled(k, Consume(count))
    ensures Total(Follow(k, p, Consume(count)), s) == Total(p, s)
  {
    TakeTotal(p, k.topic[k.offset..k.offset + count], s);
  }

  lemma FollowTotal(k: Kafka, p: Places, step: Step, s: Serial)
    requires Fits(k, p) && Enabled(k, step)
    ensures Total(Follow(k, p, step), s) == Total(p, s) + if IssuedBy(k, step) == Some(s) then 1 else 0
  {
    match step
    case Submit(_) => FollowIssue(k, p, step, s);
    case Poll => FollowPoll(k, p, s);
    case Connect =>
    case Disconnect =>
    case Send => FollowSend(k, p, step, s);
    case SendFails(_) => FollowSend(k, p, step, s);
    case Consume(count) => FollowConsume(k, p, count, s);
    case Arrive(_) => FollowIssue(k, p, step, s);
  }

  lemma StepTotal(k: Kafka, p: Places, step: Step, s: Serial)
    requires Fits(k, p) && Enabled(k, step) && OnePlace(k, p, s)
    ensures OnePlace(Next(k, step), Follow(k, p, step), s)
  {
    FollowTotal(k, p, step, s);
    StepIssues(k, step, s);
  }

  // ---------------------------------------------------------------- every run

  lemma {:induction false} InitialTimes(n: nat, s: Serial)
    ensures Times(Numbers(n), s) == if s.Foreign? && s.n < n then 1 else 0
  {
    if n > 0 {
      InitialTimes(n - 1, s);
      TimesAppend(Numbers(n - 1), [Foreign(n - 1)], s);
    }
  }

  function Start(topic: seq<Record>): Places {
    Places([], [], Numbers(|topic|), [], [], [], [])
  }

  /** Where the run takes the serials. */
  function Track(installed: bool, topic: seq<Record>, run: seq<Step>): (p: Places)
    requires ValidRun(Initial(installed, topic), run)
    ensures Fits(After(Initial(installed, topic), run), p)
  {
    if run == [] then Start(topic) else
    var k := After(Initial(installed, topic), run[..|run| - 1]);
    var p := Track(installed, topic, run[..|run| - 1]);
    StepFits(k, p, run[|run| - 1]);
    Follow(k, p, run[|run| - 1])
  }

  /**
   Over every interleaving, each submitted item and each foreign record is in exactly one of the seven
   places, once, and what stands at that place is that very item, in the form it has there.
   */
  lemma {:induction false} EveryItemIsInOnePlace(installed: bool, topic: seq<Record>, run: seq<Step>, s: Serial)
    requires ValidRun(Initial(installed, topic), run)
    ensures var k, p := After(Initial(installed, topic), run), Track(installed, topic, run);
      Fits(k, p) && OnePlace(k, p, s)
  {
    if run == [] {
      InitialTimes(|topic|, s);
    } else {
      var before := run[..|run| - 1];
      EveryItemIsInOnePlace(installed, topic, before, s);
      StepTotal(After(Initial(installed, topic), before), Track(installed, topic, before), run[|run| - 1], s);
    }
  }
}

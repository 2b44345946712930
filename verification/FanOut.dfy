/** Splitting a work item into segment requests, as in edc_translation/kafka_backend.py. */
module FanOuts {
  import opened Wrappers
  import opened WorkItems
  import opened SegmentIds

  /** What every segment of one work item shares. */
  datatype Header = Header(
    jobId: string,
    workId: string,
    documentId: string,
    sourceLanguage: string,
    targetLanguage: string,
    providerId: string,
    tenantId: string,
    modelId: Option<string>,
    engineFamily: Option<string>,
    metadata: Metadata)

  datatype Segment = Segment(header: Header, segmentId: string, text: string, spanIds: seq<string>)

  datatype FanOutError = ValueError | InvalidItem | MissingSpanId

  function SpanText(span: Span): string {
    if span.text.Some? then span.text.value.Str() else ""
  }

  predicate HasIds(spans: seq<Span>) {
    forall i :: 0 <= i < |spans| ==> spans[i].spanId.Some?
  }

  function SpanIds(spans: seq<Span>): (ids: seq<string>)
    requires HasIds(spans)
    ensures |ids| == |spans| && forall i :: 0 <= i < |ids| ==> ids[i] == spans[i].spanId.value.Str()
  {
    seq(|spans|, i requires 0 <= i < |spans| => spans[i].spanId.value.Str())
  }

  function SpanTexts(spans: seq<Span>): (ts: seq<string>)
    ensures |ts| == |spans|
    ensures forall i :: 0 <= i < |ts| ==> ts[i] == if spans[i].text.Some? then spans[i].text.value.Str() else ""
  {
    seq(|spans|, i requires 0 <= i < |spans| => SpanText(spans[i]))
  }

  /** `"\n".join(texts)`. */
  function Join(texts: seq<string>): string {
    if texts == [] then "" else if |texts| == 1 then texts[0] else texts[0] + "\n" + Join(texts[1..])
  }

  lemma {:induction false} JoinAppend(xs: seq<string>, ys: seq<string>)
    requires xs != [] && ys != []
    ensures Join(xs + ys) == Join(xs) + "\n" + Join(ys)
  {
    assert (xs + ys)[1..] == xs[1..] + ys;
    if |xs| > 1 { JoinAppend(xs[1..], ys); }
  }

  function HeaderOf(item: WorkItem, modelId: Option<string>, engineFamily: Option<string>): Header
    requires item.Valid()
  {
    Header(item.ResolvedJobId(), item.ResolvedWorkId(), item.DocumentId(), item.ResolvedSourceLanguage(),
      item.targetLanguage, item.providerId, item.tenantId, modelId, engineFamily, item.metadata)
  }

  /** Every field of the header is the item's own of that name. */
  predicate OwnHeader(h: Header, item: WorkItem, modelId: Option<string>, engineFamily: Option<string>)
    requires item.Valid()
  {
    && h.jobId == item.ResolvedJobId() && h.workId == item.ResolvedWorkId() && h.documentId == item.DocumentId()
    && h.sourceLanguage == item.ResolvedSourceLanguage() && h.targetLanguage == item.targetLanguage
    && h.providerId == item.providerId && h.tenantId == item.tenantId
    && h.modelId == modelId && h.engineFamily == engineFamily && h.metadata == item.metadata
  }

  function AllSpanIds(segments: seq<Segment>): seq<string> {
    if segments == [] then [] else AllSpanIds(segments[..|segments| - 1]) + segments[|segments| - 1].spanIds
  }

  function Texts(segments: seq<Segment>): (ts: seq<string>)
    ensures |ts| == |segments|
  {
    seq(|segments|, i requires 0 <= i < |segments| => segments[i].text)
  }

  function Ids(segments: seq<Segment>): (ids: seq<string>)
    ensures |ids| == |segments|
  {
    seq(|segments|, i requires 0 <= i < |segments| => segments[i].segmentId)
  }

  /** The segments carry the spans of the document, in order, and its text. */
  predicate Covers(segments: seq<Segment>, spans: seq<Span>, k: nat)
    requires HasIds(spans)
  {
    && AllSpanIds(segments) == SpanIds(spans)
    && Join(Texts(segments)) == Join(SpanTexts(spans))
    && Ids(segments) == Numbered(|segments|)
    && (forall i :: 0 <= i < |segments| - 1 ==> |segments[i].spanIds| == k)
  }

  lemma SpanIdsAppend(spans: seq<Span>, chunk: seq<Span>)
    requires HasIds(spans) && HasIds(chunk)
    ensures HasIds(spans + chunk) && SpanIds(spans + chunk) == SpanIds(spans) + SpanIds(chunk)
  {
  }

  lemma TextsAppend(segments: seq<Segment>, spans: seq<Span>, chunk: seq<Span>, segment: Segment)
    requires chunk != [] && (segments == [] <==> spans == [])
    requires Join(Texts(segments)) == Join(SpanTexts(spans)) && segment.text == Join(SpanTexts(chunk))
    ensures Join(Texts(segments + [segment])) == Join(SpanTexts(spans + chunk))
  {
    assert Texts(segments + [segment]) == Texts(segments) + [segment.text];
    assert SpanTexts(spans + chunk) == SpanTexts(spans) + SpanTexts(chunk);
    if segments == [] {
      assert Texts(segments) + [segment.text] == [segment.text];
      assert SpanTexts(spans) + SpanTexts(chunk) == SpanTexts(chunk);
    } else {
      JoinAppend(Texts(segments), [segment.text]);
      JoinAppend(SpanTexts(spans), SpanTexts(chunk));
    }
  }

  lemma IdsAppend(segments: seq<Segment>, segment: Segment)
    requires Ids(segments) == Numbered(|segments|) && segment.segmentId == SegmentId(|segments| + 1)
    ensures Ids(segments + [segment]) == Numbered(|segments + [segment]|)
  {
    assert Ids(segments + [segment]) == Ids(segments) + [segment.segmentId];
    assert Numbered(|segments| + 1) == Numbered(|segments|) + [SegmentId(|segments| + 1)];
  }

  lemma CoversOneMore(segments: seq<Segment>, spans: seq<Span>, chunk: seq<Span>, k: nat, segment: Segment)
    requires HasIds(spans) && HasIds(chunk) && chunk != []
    requires Covers(segments, spans, k) && (segments == [] <==> spans == [])
    requires segments != [] ==> |segments[|segments| - 1].spanIds| == k
    requires segment.segmentId == SegmentId(|segments| + 1)
    requires segment.spanIds == SpanIds(chunk) && segment.text == Join(SpanTexts(chunk))
    ensures HasIds(spans + chunk) && Covers(segments + [segment], spans + chunk, k)
  {
    SpanIdsAppend(spans, chunk);
    TextsAppend(segments, spans, chunk, segment);
    IdsAppend(segments, segment);
    assert (segments + [segment])[..|segments|] == segments;
  }

  lemma NothingCovered(segment: Segment)
    requires segment.segmentId == "segment-000001" && segment.text == "" && segment.spanIds == []
    ensures forall k :: Covers([segment], [], k)
  {
    FirstId();
    assert AllSpanIds([segment]) == AllSpanIds([segment][..0]) + segment.spanIds;
    assert Texts([segment]) == [""] && SpanTexts([]) == [];
    assert Ids([segment]) == ["segment-000001"] && Numbered(1) == [SegmentId(1)];
  }

  function Upto(start: nat, k: nat, n: nat): nat {
    if start + k <= n then start + k else n
  }

  /** Where the `i`-th stride of `k` spans starts: at `i * k`. */
  function Start(k: nat, i: nat): nat {
    if i == 0 then 0 else Start(k, i - 1) + k
  }

  lemma {:induction false} StartIsProduct(k: nat, i: nat)
    ensures Start(k, i) == i * k
  {
    if i > 0 {
      StartIsProduct(k, i - 1);
      assert i * k == (i - 1) * k + k;
    }
  }

  function Stride(spans: seq<Span>, k: nat, i: nat): seq<Span>
    requires Start(k, i) <= |spans|
  {
    spans[Start(k, i)..Upto(Start(k, i), k, |spans|)]
  }

  /** The segment has the ids of these spans, one by one, and their texts on lines of their own. */
  predicate IsChunk(segment: Segment, chunk: seq<Span>) {
    HasIds(chunk) && segment.spanIds == SpanIds(chunk) && segment.text == Join(SpanTexts(chunk))
  }

  predicate AreChunks(segments: seq<Segment>, spans: seq<Span>, k: nat) {
    forall i :: 0 <= i < |segments| ==> Start(k, i) <= |spans| && IsChunk(segments[i], Stride(spans, k, i))
  }

  /** With one span a segment, each segment has its span's id and text. */
  lemma SingleChunks(segments: seq<Segment>, spans: seq<Span>, i: nat)
    requires AreChunks(segments, spans, 1) && i < |segments| && i < |spans|
    ensures spans[i].spanId.Some? && segments[i].spanIds == [spans[i].spanId.value.Str()]
    ensures segments[i].text == if spans[i].text.Some? then spans[i].text.value.Str() else ""
  {
    StartIsProduct(1, i);
    assert Stride(spans, 1, i) == [spans[i]];
    assert IsChunk(segments[i], [spans[i]]);
    assert [spans[i]][0].spanId.Some?;
    assert Join(SpanTexts([spans[i]])) == SpanTexts([spans[i]])[0];
  }

  /** The loop has covered the spans before `start`; only the final stride may be short. */
  predicate Partial(segments: seq<Segment>, spans: seq<Span>, start: nat, k: nat, header: Header) {
    var done := spans[..Upto(start, 0, |spans|)];
    && HasIds(done) && Covers(segments, done, k) && (segments == [] <==> done == [])
    && (segments != [] ==> 1 <= |segments[|segments| - 1].spanIds| <= k)
    && (segments != [] && start <= |spans| ==> |segments[|segments| - 1].spanIds| == k)
    && (forall i :: 0 <= i < |segments| ==> segments[i].header == header)
  }

  function NextSegment(header: Header, before: nat, chunk: seq<Span>): Segment
    requires HasIds(chunk)
  {
    Segment(header, SegmentId(before + 1), Join(SpanTexts(chunk)), SpanIds(chunk))
  }

  lemma PartialStep(segments: seq<Segment>, next: seq<Segment>, spans: seq<Span>, start: nat, k: nat,
                    header: Header, chunk: seq<Span>)
    requires Partial(segments, spans, start, k, header) && start < |spans| && k >= 1
    requires chunk == spans[start..Upto(start, k, |spans|)] && HasIds(chunk)
    requires next == segments + [NextSegment(header, |segments|, chunk)]
    ensures Partial(next, spans, start + k, k, header)
  {
    assert spans[..Upto(start + k, 0, |spans|)] == spans[..start] + chunk;
    CoversOneMore(segments, spans[..start], chunk, k, NextSegment(header, |segments|, chunk));
  }

  lemma PartialStart(segments: seq<Segment>, spans: seq<Span>, start: nat, k: nat, header: Header)
    requires segments == [] && start == 0
    ensures Partial(segments, spans, start, k, header)
  {
    assert spans[..0] == [];
  }

  lemma PartialDone(segments: seq<Segment>, spans: seq<Span>, start: nat, k: nat, header: Header)
    requires Partial(segments, spans, start, k, header) && start >= |spans| && spans != []
    ensures HasIds(spans) && Covers(segments, spans, k) && segments != []
    ensures 1 <= |segments[|segments| - 1].spanIds| <= k
    ensures forall i :: 0 <= i < |segments| ==> segments[i].header == header
  {
    assert spans[..|spans|] == spans;
  }

  lemma ChunkWithoutIds(spans: seq<Span>, start: nat, end: nat)
    requires start <= end <= |spans| && !HasIds(spans[start..end])
    ensures !HasIds(spans)
  {
  }

  /** The segment holds the `i`-th stride, which is not empty, under that number and header. */
  predicate IsStride(segment: Segment, spans: seq<Span>, k: nat, header: Header, i: nat) {
    && Start(k, i) < |spans| && IsChunk(segment, Stride(spans, k, i))
    && segment.header == header && segment.segmentId == SegmentId(i + 1)
  }

  predicate Strides(segments: seq<Segment>, spans: seq<Span>, k: nat, header: Header) {
    forall i :: 0 <= i < |segments| ==> IsStride(segments[i], spans, k, header, i)
  }

  lemma NewStride(spans: seq<Span>, start: nat, k: nat, header: Header, m: nat, chunk: seq<Span>)
    requires start == Start(k, m) && start < |spans|
    requires chunk == spans[start..Upto(start, k, |spans|)] && HasIds(chunk)
    ensures IsStride(NextSegment(header, m, chunk), spans, k, header, m)
    ensures start + k == Start(k, m + 1)
  {
  }

  lemma NextStride(segments: seq<Segment>, next: seq<Segment>, spans: seq<Span>, k: nat, header: Header,
                   segment: Segment)
    requires Strides(segments, spans, k, header) && IsStride(segment, spans, k, header, |segments|)
    requires next == segments + [segment]
    ensures Strides(next, spans, k, header)
  {
    forall i | 0 <= i < |next|
      ensures IsStride(next[i], spans, k, header, i)
    {
      if i < |segments| { assert IsStride(segments[i], spans, k, header, i); }
    }
  }

  lemma StrideOnTop(segments: seq<Segment>, before: seq<Segment>, last: Segment, spans: seq<Span>, start: nat,
                    end: nat, k: nat, header: Header, chunk: seq<Span>)
    requires Partial(before, spans, start, k, header) && start < |spans| && k >= 1 && start + k == end
    requires chunk == spans[start..Upto(start, k, |spans|)] && IsChunk(last, chunk)
    requires last.header == header && last.segmentId == SegmentId(|before| + 1) && segments == before + [last]
    ensures Partial(segments, spans, end, k, header)
  {
    assert last == NextSegment(header, |before|, chunk);
    PartialStep(before, segments, spans, start, k, header, chunk);
  }

  /** All strides but the last, which ends at `end`, and the last on its own. */
  lemma SplitStrides(segments: seq<Segment>, spans: seq<Span>, k: nat, header: Header, end: nat)
      returns (before: seq<Segment>, last: Segment, start: nat, chunk: seq<Span>)
    requires Strides(segments, spans, k, header) && segments != [] && end == Start(k, |segments|)
    ensures segments == before + [last] && Strides(before, spans, k, header)
    ensures start == Start(k, |before|) && start + k == end && start < |spans|
    ensures last.header == header && last.segmentId == SegmentId(|before| + 1)
    ensures chunk == spans[start..Upto(start, k, |spans|)] && IsChunk(last, chunk)
  {
    var m := |segments| - 1;
    before, last, start := segments[..m], segments[m], Start(k, m);
    assert IsStride(last, spans, k, header, m);
    chunk := Stride(spans, k, m);
  }

  lemma {:induction false} StridesArePartial(segments: seq<Segment>, spans: seq<Span>, k: nat, header: Header,
          end: nat)
    requires Strides(segments, spans, k, header) && k >= 1 && end == Start(k, |segments|)
    ensures Partial(segments, spans, end, k, header)
    decreases |segments|
  {
    if segments == [] {
      PartialStart(segments, spans, end, k, header);
    } else {
      var before, last, start, chunk := SplitStrides(segments, spans, k, header, end);
      StridesArePartial(before, spans, k, header, start);
      StrideOnTop(segments, before, last, spans, start, end, k, header, chunk);
    }
  }

  /** The strides of all spans cover the document. */
  lemma StridesCover(segments: seq<Segment>, spans: seq<Span>, k: nat, header: Header)
    requires Strides(segments, spans, k, header) && k >= 1 && spans != [] && Start(k, |segments|) >= |spans|
    ensures HasIds(spans) && segments != [] && Covers(segments, spans, k) && AreChunks(segments, spans, k)
    ensures 1 <= |segments[|segments| - 1].spanIds| <= k
    ensures forall i :: 0 <= i < |segments| ==> segments[i].header == header
  {
    forall i | 0 <= i < |segments|
      ensures Start(k, i) <= |spans| && IsChunk(segments[i], Stride(spans, k, i)) && segments[i].header == header
    {
      assert IsStride(segments[i], spans, k, header, i);
    }
    StridesArePartial(segments, spans, k, header, Start(k, |segments|));
    PartialDone(segments, spans, Start(k, |segments|), k, header);
  }

  /** The stride loop over a nonempty span list. */
  method Chunked(header: Header, spans: seq<Span>, k: nat) returns (r: Result<seq<Segment>, FanOutError>)
    requires k >= 1 && spans != []
    ensures r.Failure? <==> !HasIds(spans)
    ensures r.Success? ==>
      && r.value != [] && Covers(r.value, spans, k) && AreChunks(r.value, spans, k)
      && 1 <= |r.value[|r.value| - 1].spanIds| <= k
      && (forall i :: 0 <= i < |r.value| ==> r.value[i].header == header)
  {
    var segments: seq<Segment>, start := [], 0;
    while start < |spans|
      invariant Strides(segments, spans, k, header) && start == Start(k, |segments|)
    {
      var chunk := spans[start..Upto(start, k, |spans|)];
      if !HasIds(chunk) {
        ChunkWithoutIds(spans, start, Upto(start, k, |spans|));
        return Failure(MissingSpanId);
      }
      var segment := NextSegment(header, |segments|, chunk);
      var next := segments + [segment];
      NewStride(spans, start, k, header, |segments|, chunk);
      NextStride(segments, next, spans, k, header, segment);
      segments, start := next, start + k;
    }
    StridesCover(segments, spans, k, header);
    r := Success(segments);
  }

  /**
   Fan-out preserves the document: the segments' span ids in order are the document's, every segment
   but the last has exactly `maxSpans` spans, the last has at least one unless there are none at all,
   and joining the segment texts by newlines gives the text of the unsegmented document.
   */
  method FanOut(item: WorkItem, maxSpans: int, modelId: Option<string>, engineFamily: Option<string>)
      returns (r: Result<seq<Segment>, FanOutError>)
    ensures r.Failure? <==> maxSpans < 1 || !item.Valid() || !HasIds(item.bundle.spans)
    ensures r.Success? ==>
      && r.value != [] && Covers(r.value, item.bundle.spans, maxSpans)
      && AreChunks(r.value, item.bundle.spans, maxSpans)
      && |r.value[|r.value| - 1].spanIds| <= maxSpans
      && (if item.bundle.spans == [] then |r.value| == 1 else |r.value[|r.value| - 1].spanIds| >= 1)
      && (forall i :: 0 <= i < |r.value| ==>
        r.value[i].header == HeaderOf(item, modelId, engineFamily)
        && OwnHeader(r.value[i].header, item, modelId, engineFamily))
  {
    if maxSpans < 1 { return Failure(ValueError); }
    if !item.Valid() { return Failure(InvalidItem); }
    var header := HeaderOf(item, modelId, engineFamily);
    if item.bundle.spans == [] {
      var only := Segment(header, "segment-000001", "", []);
      NothingCovered(only);
      assert Stride(item.bundle.spans, maxSpans, 0) == [];
      return Success([only]);
    }
    r := Chunked(header, item.bundle.spans, maxSpans);
  }

  lemma FirstId()
    ensures SegmentId(1) == "segment-000001"
  {
    assert Padded(0, 1) == "0";
    assert Padded(0, 2) == Padded(0, 1) + "0";
    assert Padded(0, 3) == Padded(0, 2) + "0";
    assert Padded(0, 4) == Padded(0, 3) + "0";
    assert Padded(0, 5) == Padded(0, 4) + "0";
    assert Padded(1, 6) == Padded(0, 5) + "1";
  }
}

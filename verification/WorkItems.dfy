/**
 The work item of edc_translation/jobs.py and the message that carries it.

 A Python value is modelled by what this code asks of it: its text (`str(v)`) and its truth value.
 A missing dictionary key is `None`; an exception is a `Failure`.
 */
module WorkItems {
  import opened Wrappers

  datatype Value = Text(s: string) | Other(text: string, truth: bool) {
    function Str(): string {
      if Text? then s else text
    }

    predicate Truthy() {
      if Text? then s != "" else truth
    }
  }

  datatype Span = Span(spanId: Option<Value>, text: Option<Value>, language: Option<Value>)

  datatype Bundle = Bundle(
    documentId: Option<Value>,
    primaryLanguage: Option<Value>,
    spans: seq<Span>,
    rest: string)

  /** What `int(metadata.get("priority", 0) or 0)` does: nothing there, an integer, or a ValueError. */
  datatype Priority = Unset | Parsed(n: int) | Unparsable

  datatype Metadata = Metadata(jobId: Option<Value>, priority: Priority, rest: string)

  datatype WorkItem = WorkItem(
    bundle: Bundle,
    targetLanguage: string,
    providerId: string,
    allowNcLicensed: bool,
    certified: bool,
    tenantId: string,
    glossaryIds: Option<seq<string>>,
    instructionSetId: Option<string>,
    metadata: Metadata,
    jobId: Option<string>,
    workId: Option<string>,
    sourceLanguage: Option<string>)
  {
    /** `validate()` accepts the item. */
    predicate Valid() {
      bundle.documentId.Some?
    }

    function DocumentId(): string
      requires Valid()
    {
      bundle.documentId.value.Str()
    }

    /** The job id, and the work id, can be told: they are given, or the document id stands in. */
    predicate HasJobId() {
      || (jobId.Some? && jobId.value != "")
      || (metadata.jobId.Some? && metadata.jobId.value.Truthy())
      || Valid()
    }

    predicate HasWorkId() {
      (workId.Some? && workId.value != "") || HasJobId()
    }

    function ResolvedJobId(): string
      requires HasJobId()
    {
      if jobId.Some? && jobId.value != "" then jobId.value
      else if metadata.jobId.Some? && metadata.jobId.value.Truthy() then metadata.jobId.value.Str()
      else DocumentId()
    }

    function ResolvedWorkId(): string
      requires HasWorkId()
    {
      if workId.Some? && workId.value != "" then workId.value
      else ResolvedJobId() + ":document"
    }

    function ResolvedSourceLanguage(): string {
      if sourceLanguage.Some? && sourceLanguage.value != "" then sourceLanguage.value
      else DetectedLanguage(bundle)
    }
  }

  function DetectedLanguage(b: Bundle): string {
    if b.primaryLanguage.Some? && b.primaryLanguage.value.Truthy() then b.primaryLanguage.value.Str()
    else FirstSpanLanguage(b.spans)
  }

  function FirstSpanLanguage(spans: seq<Span>): string {
    if spans == [] then "und"
    else if spans[0].language.Some? && spans[0].language.value.Truthy() then spans[0].language.value.Str()
    else FirstSpanLanguage(spans[1..])
  }

  datatype Message = Message(
    jobId: Option<Value>,
    workId: Option<Value>,
    documentId: Option<Value>,
    sourceLanguage: Option<Value>,
    targetLanguage: Option<Value>,
    providerId: Option<Value>,
    tenantId: Option<Value>,
    bundle: Option<Bundle>,
    allowNcLicensed: Option<Value>,
    certified: Option<Value>,
    glossaryIds: Option<seq<Value>>,
    instructionSetId: Option<string>,
    metadata: Option<Metadata>)

  datatype MessageError = MissingKey(key: string) | MissingDocumentId | DocumentIdMismatch

  function Flag(b: bool): Value {
    Other(if b then "True" else "False", b)
  }

  function Texts(ss: seq<string>): (vs: seq<Value>)
    ensures |vs| == |ss|
  {
    seq(|ss|, i requires 0 <= i < |ss| => Text(ss[i]))
  }

  function Strs(vs: seq<Value>): (ss: seq<string>)
    ensures |ss| == |vs|
  {
    seq(|vs|, i requires 0 <= i < |vs| => vs[i].Str())
  }

  function ToMessage(x: WorkItem): Result<Message, MessageError> {
    if !x.Valid() then Failure(MissingDocumentId) else
    Success(Message(
      Some(Text(x.ResolvedJobId())),
      Some(Text(x.ResolvedWorkId())),
      Some(Text(x.DocumentId())),
      Some(Text(x.ResolvedSourceLanguage())),
      Some(Text(x.targetLanguage)),
      Some(Text(x.providerId)),
      Some(Text(x.tenantId)),
      Some(x.bundle),
      Some(Flag(x.allowNcLicensed)),
      Some(Flag(x.certified)),
      Some(Texts(if x.glossaryIds.Some? then x.glossaryIds.value else [])),
      x.instructionSetId,
      Some(x.metadata)))
  }

  function FromMessage(m: Message): Result<WorkItem, MessageError> {
    if m.bundle.None? then Failure(MissingKey("document_bundle"))
    else if m.targetLanguage.None? then Failure(MissingKey("target_language"))
    else if m.providerId.None? then Failure(MissingKey("provider_id"))
    else if m.jobId.None? then Failure(MissingKey("job_id"))
    else if m.workId.None? then Failure(MissingKey("work_id"))
    else
      var x := WorkItem(
        m.bundle.value,
        m.targetLanguage.value.Str(),
        m.providerId.value.Str(),
        m.allowNcLicensed.Some? && m.allowNcLicensed.value.Truthy(),
        m.certified.Some? && m.certified.value.Truthy(),
        if m.tenantId.Some? then m.tenantId.value.Str() else "standalone",
        Some(Strs(if m.glossaryIds.Some? then m.glossaryIds.value else [])),
        m.instructionSetId,
        if m.metadata.Some? then m.metadata.value else Metadata(None, Unset, ""),
        Some(m.jobId.value.Str()),
        Some(m.workId.value.Str()),
        Some(if m.sourceLanguage.Some? && m.sourceLanguage.value.Truthy() then m.sourceLanguage.value.Str() else ""));
      if !x.Valid() then Failure(MissingDocumentId)
      else if m.documentId.Some? && m.documentId.value.Truthy() && m.documentId.value.Str() != x.DocumentId()
        then Failure(DocumentIdMismatch)
      else Success(x)
  }

  // ---------------------------------------------------------------- what an item goes by

  predicate Names(v: Option<Value>) {
    v.Some? && v.value.Truthy()
  }

  /** Texts stand for themselves, and all but the empty one name something. */
  lemma TextsNameThemselves(s: string)
    ensures Text(s).Str() == s
    ensures Names(Some(Text(s))) <==> s != ""
    ensures !Names(None)
  {
  }

  /** When the ids can be told at all: a job id needs one of the three, and a work id stands for itself. */
  lemma IdsCanBeToldIff(x: WorkItem)
    ensures x.HasJobId() <==>
      (x.jobId.Some? && x.jobId.value != "") || Names(x.metadata.jobId) || x.bundle.documentId.Some?
    ensures x.HasWorkId() <==> (x.workId.Some? && x.workId.value != "") || x.HasJobId()
  {
  }

  /** The item's own job id comes first, then the one of its metadata, then its document's; the work id follows. */
  lemma IdsInOrder(x: WorkItem)
    requires x.Valid()
    ensures var own := x.jobId.Some? && x.jobId.value != "";
      && (own ==> x.ResolvedJobId() == x.jobId.value)
      && (!own && Names(x.metadata.jobId) ==> x.ResolvedJobId() == x.metadata.jobId.value.Str())
      && (!own && !Names(x.metadata.jobId) ==> x.ResolvedJobId() == x.bundle.documentId.value.Str())
    ensures x.workId.Some? && x.workId.value != "" ==> x.ResolvedWorkId() == x.workId.value
    ensures x.workId == None || x.workId == Some("") ==> x.ResolvedWorkId() == x.ResolvedJobId() + ":document"
  {
  }

  lemma {:induction false} FirstNamedLanguage(spans: seq<Span>, i: nat)
    requires i <= |spans| && forall k :: 0 <= k < i ==> !Names(spans[k].language)
    requires i < |spans| ==> Names(spans[i].language)
    ensures FirstSpanLanguage(spans) == if i < |spans| then spans[i].language.value.Str() else "und"
  {
    if i > 0 { FirstNamedLanguage(spans[1..], i - 1); }
  }

  /** The item's own language comes first, then the bundle's primary one, then the first a span names, then "und". */
  lemma LanguageInOrder(x: WorkItem, i: nat)
    requires i <= |x.bundle.spans| && forall k :: 0 <= k < i ==> !Names(x.bundle.spans[k].language)
    requires i < |x.bundle.spans| ==> Names(x.bundle.spans[i].language)
    ensures var own, primary := x.sourceLanguage.Some? && x.sourceLanguage.value != "", x.bundle.primaryLanguage;
      x.ResolvedSourceLanguage() ==
        if own then x.sourceLanguage.value
        else if Names(primary) then primary.value.Str()
        else if i < |x.bundle.spans| then x.bundle.spans[i].language.value.Str()
        else "und"
  {
    FirstNamedLanguage(x.bundle.spans, i);
  }

  // ---------------------------------------------------------------- what a message says

  /** Each field of the message is the item's own of that name, as the item resolves it. */
  lemma MessageTells(x: WorkItem)
    ensures ToMessage(x).Success? <==> x.bundle.documentId.Some?
    ensures ToMessage(x).Success? ==>
      var m := ToMessage(x).value;
      && m.jobId == Some(Text(x.ResolvedJobId())) && m.workId == Some(Text(x.ResolvedWorkId()))
      && m.documentId == Some(Text(x.bundle.documentId.value.Str()))
      && m.sourceLanguage == Some(Text(x.ResolvedSourceLanguage()))
      && m.targetLanguage == Some(Text(x.targetLanguage)) && m.providerId == Some(Text(x.providerId))
      && m.tenantId == Some(Text(x.tenantId)) && m.bundle == Some(x.bundle)
      && m.allowNcLicensed == Some(Flag(x.allowNcLicensed)) && m.certified == Some(Flag(x.certified))
      && m.instructionSetId == x.instructionSetId && m.metadata == Some(x.metadata)
  {
  }

  /** Exactly these messages decode: every required key is there, and a document id that names one is the bundle's. */
  lemma DecodesIff(m: Message)
    ensures FromMessage(m).Success? <==>
      && m.bundle.Some? && m.targetLanguage.Some? && m.providerId.Some? && m.jobId.Some? && m.workId.Some?
      && m.bundle.value.documentId.Some?
      && (Names(m.documentId) ==> m.documentId.value.Str() == m.bundle.value.documentId.value.Str())
    ensures FromMessage(m) == Failure(MissingDocumentId) ==> m.bundle.Some? && m.bundle.value.documentId.None?
    ensures FromMessage(m) == Failure(DocumentIdMismatch) ==>
      m.documentId.Some? && m.bundle.Some? && m.bundle.value.documentId.Some?
      && m.documentId.value.Str() != m.bundle.value.documentId.value.Str()
  {
  }

  /** What a decoded item has, with the defaults of what its message leaves out. */
  lemma DecodingTells(m: Message)
    requires FromMessage(m).Success?
    ensures var x := FromMessage(m).value;
      && m.bundle == Some(x.bundle)
      && x.jobId == Some(m.jobId.value.Str()) && x.workId == Some(m.workId.value.Str())
      && x.targetLanguage == m.targetLanguage.value.Str() && x.providerId == m.providerId.value.Str()
      && x.tenantId == (if m.tenantId.Some? then m.tenantId.value.Str() else "standalone")
      && x.sourceLanguage == Some(if Names(m.sourceLanguage) then m.sourceLanguage.value.Str() else "")
      && (x.allowNcLicensed <==> Names(m.allowNcLicensed)) && (x.certified <==> Names(m.certified))
      && x.instructionSetId == m.instructionSetId
      && x.metadata == (if m.metadata.Some? then m.metadata.value else Metadata(None, Unset, ""))
      && x.glossaryIds.Some? && |x.glossaryIds.value| == (if m.glossaryIds.Some? then |m.glossaryIds.value| else 0)
      && forall i :: 0 <= i < |x.glossaryIds.value| ==> x.glossaryIds.value[i] == m.glossaryIds.value[i].Str()
  {
  }

  lemma StrsOfTexts(ss: seq<string>)
    ensures Strs(Texts(ss)) == ss
  {
  }

  /**
   A message survives being decoded and encoded again, and the decoded item names the same job,
   work row, document and language as the item that was encoded.
   */
  lemma MessageRoundTrip(x: WorkItem)
    requires x.Valid()
    ensures ToMessage(x).Success?
    ensures var r := FromMessage(ToMessage(x).value);
      && r.Success? && r.value.Valid()
      && ToMessage(r.value) == ToMessage(x)
      && r.value.ResolvedJobId() == x.ResolvedJobId()
      && r.value.ResolvedWorkId() == x.ResolvedWorkId()
      && r.value.DocumentId() == x.DocumentId()
      && r.value.ResolvedSourceLanguage() == x.ResolvedSourceLanguage()
  {
    StrsOfTexts(if x.glossaryIds.Some? then x.glossaryIds.value else []);
  }

  /** No row is ever filed under the empty work id, whatever the item leaves out. */
  lemma WorkIdIsNeverEmpty(x: WorkItem)
    requires x.Valid()
    ensures x.ResolvedWorkId() != ""
    ensures x.workId == None || x.workId == Some("") ==> x.ResolvedWorkId() == x.ResolvedJobId() + ":document"
  {
  }

  /** Every optional identity field is filled in and agrees with the others: the form decoding produces. */
  predicate Canonical(x: WorkItem) {
    && x.Valid()
    && x.glossaryIds.Some?
    && x.jobId == Some(x.ResolvedJobId())
    && x.workId == Some(x.ResolvedWorkId())
    && x.sourceLanguage == Some(x.ResolvedSourceLanguage())
  }

  /** Exactly the canonical items come back from a message unchanged. */
  lemma RoundTripIsIdentityIffCanonical(x: WorkItem)
    requires x.Valid()
    ensures FromMessage(ToMessage(x).value) == Success(x) <==> Canonical(x)
  {
    StrsOfTexts(if x.glossaryIds.Some? then x.glossaryIds.value else []);
  }
}

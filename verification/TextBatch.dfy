/** The batch repository and batch runner of edc_translation/text_batch.py. */
module TextBatch {
  import opened Wrappers

  datatype Status = Queued | Running | Succeeded | CompletedWithErrors | Failed

  predicate Terminal(s: Status) {
    s == Succeeded || s == CompletedWithErrors || s == Failed
  }

  datatype FileResult = FileResult(path: string, succeeded: bool, error: string)

  datatype BatchJob = BatchJob(
    status: Status,
    totalFiles: nat,
    processedFiles: nat,
    failedFiles: nat,
    files: seq<FileResult>,
    completed: bool,
    error: Option<string>,
    manifestPath: Option<string>)

  const NEW_JOB := BatchJob(Queued, 0, 0, 0, [], false, None, None)

  function Failures(rs: seq<FileResult>): nat {
    if rs == [] then 0 else Failures(rs[..|rs| - 1]) + (if rs[|rs| - 1].succeeded then 0 else 1)
  }

  lemma FailuresAppend(rs: seq<FileResult>, r: FileResult)
    ensures Failures(rs + [r]) == Failures(rs) + (if r.succeeded then 0 else 1)
  {
    assert (rs + [r])[..|rs|] == rs;
  }

  lemma {:induction false} NoFailuresIff(rs: seq<FileResult>)
    ensures Failures(rs) == 0 <==> forall i :: 0 <= i < |rs| ==> rs[i].succeeded
    ensures Failures(rs) <= |rs|
  {
    if rs != [] {
      NoFailuresIff(rs[..|rs| - 1]);
      assert forall i :: 0 <= i < |rs| - 1 ==> rs[..|rs| - 1][i] == rs[i];
    }
  }

  /** The counters agree with the recorded results. */
  predicate CountersAgree(job: BatchJob) {
    job.processedFiles == |job.files| && job.failedFiles == Failures(job.files)
  }

  class TextFileBatchRepository {
    var jobs: map<string, BatchJob>

    constructor ()
      ensures jobs == map[]
    {
      jobs := map[];
    }

    method Create(id: string)
      requires id !in jobs
      modifies this
      ensures jobs == old(jobs)[id := NEW_JOB]
    {
      jobs := jobs[id := NEW_JOB];
    }

    method MarkRunning(id: string)
      requires id in jobs
      modifies this
      ensures jobs == old(jobs)[id := old(jobs)[id].(status := Running)]
    {
      jobs := jobs[id := jobs[id].(status := Running)];
    }

    method SetTotal(id: string, total: nat)
      requires id in jobs
      modifies this
      ensures jobs == old(jobs)[id := old(jobs)[id].(totalFiles := total)]
    {
      jobs := jobs[id := jobs[id].(totalFiles := total)];
    }

    method AddFileResult(id: string, result: FileResult)
      requires id in jobs
      modifies this
      ensures id in jobs && jobs == old(jobs)[id := jobs[id]]
      ensures jobs[id] == old(jobs)[id].(
        files := old(jobs)[id].files + [result],
        processedFiles := old(jobs)[id].processedFiles + 1,
        failedFiles := old(jobs)[id].failedFiles + (if result.succeeded then 0 else 1))
      ensures CountersAgree(old(jobs)[id]) ==> CountersAgree(jobs[id])
    {
      var job := jobs[id];
      FailuresAppend(job.files, result);
      job := job.(files := job.files + [result], processedFiles := job.processedFiles + 1);
      if !result.succeeded { job := job.(failedFiles := job.failedFiles + 1); }
      jobs := jobs[id := job];
    }

    method MarkDone(id: string, status: Status, manifestPath: Option<string>)
      requires id in jobs
      modifies this
      ensures jobs == old(jobs)[id := old(jobs)[id].(
        status := status, completed := true, manifestPath := manifestPath, error := None)]
    {
      jobs := jobs[id := jobs[id].(status := status, completed := true, manifestPath := manifestPath, error := None)];
    }

    method MarkFailed(id: string, error: string)
      requires id in jobs
      modifies this
      ensures jobs == old(jobs)[id := old(jobs)[id].(status := Failed, completed := true, error := Some(error))]
    {
      jobs := jobs[id := jobs[id].(status := Failed, completed := true, error := Some(error))];
    }
  }

  // ---------------------------------------------------------------- what a run meets

  /** One file: converted, failed while being read, translated or written, or no relative path could be formed. */
  datatype FileOutcome = Converted | Raises(error: string) | NoRelativePath(error: string)

  /** What a run meets; `manifestPath` is `translation-batch-report.json` in the output directory. */
  datatype World = World(
    targetIsAuto: bool,
    discovered: Result<seq<string>, string>,
    outputDir: Result<(), string>,
    convert: (string, nat) -> FileOutcome,
    manifestPath: string,
    manifest: Result<(), string>)

  const AUTO_TARGET := "target_language=auto is not supported for translation; select a target language"
  const NO_FILES := "No matching text files were found"

  datatype Options = Options(continueOnError: bool, writeManifest: bool)

  /** File `i` ends the loop. */
  predicate Stops(w: World, o: Options, files: seq<string>, i: nat)
    requires i < |files|
  {
    var outcome := w.convert(files[i], i);
    outcome.NoRelativePath? || (outcome.Raises? && !o.continueOnError)
  }

  /** The first file at or after `from` that ends the loop; the number of files when none does. */
  function FirstStop(w: World, o: Options, files: seq<string>, from: nat): (i: nat)
    requires from <= |files|
    ensures from <= i <= |files|
    ensures forall k :: from <= k < i ==> !Stops(w, o, files, k)
    ensures i < |files| ==> Stops(w, o, files, i)
    decreases |files| - from
  {
    if from == |files| || Stops(w, o, files, from) then from else FirstStop(w, o, files, from + 1)
  }

  /** How many results are recorded: those of the files before the loop ends, and of the one that failed it. */
  function Recorded(w: World, o: Options, files: seq<string>): nat {
    var i := FirstStop(w, o, files, 0);
    if i < |files| && w.convert(files[i], i).Raises? then i + 1 else i
  }

  lemma FirstStopIs(w: World, o: Options, files: seq<string>, i: nat)
    requires i <= |files| && forall k :: 0 <= k < i ==> !Stops(w, o, files, k)
    requires i < |files| ==> Stops(w, o, files, i)
    ensures FirstStop(w, o, files, 0) == i
  {
  }

  /** The loop reaches its end. */
  predicate RunsThrough(w: World, o: Options, files: seq<string>) {
    forall i :: 0 <= i < |files| ==> !Stops(w, o, files, i)
  }

  /** The run gets as far as its first file. */
  predicate Starts(w: World) {
    !w.targetIsAuto && w.discovered.Success? && w.discovered.value != [] && w.outputDir.Success?
  }

  predicate AllConverted(w: World, files: seq<string>) {
    forall i :: 0 <= i < |files| ==> w.convert(files[i], i).Converted?
  }

  /** The results recorded for a prefix of the files, one each and in order. */
  predicate RecordsPrefix(w: World, files: seq<string>, rs: seq<FileResult>) {
    && |rs| <= |files|
    && (forall i :: 0 <= i < |rs| ==>
      && rs[i].path == files[i]
      && !w.convert(files[i], i).NoRelativePath?
      && (rs[i].succeeded <==> w.convert(files[i], i).Converted?)
      && (w.convert(files[i], i).Raises? ==> rs[i].error == w.convert(files[i], i).error))
  }

  predicate StopsAtFirstFailure(rs: seq<FileResult>) {
    forall i :: 0 <= i < |rs| - 1 ==> rs[i].succeeded
  }

  /** The final status, from what the run met. */
  function Verdict(w: World, o: Options): Status {
    if !Starts(w) || !RunsThrough(w, o, w.discovered.value) then Failed
    else if o.writeManifest && w.manifest.Failure? then Failed
    else if AllConverted(w, w.discovered.value) then Succeeded
    else CompletedWithErrors
  }

  /** Where the loop ends: it passes converted files, and failed ones if told to go on, but no missing relative path. */
  lemma FirstStopTells(w: World, o: Options, files: seq<string>)
    ensures var i := FirstStop(w, o, files, 0);
      && i <= |files|
      && (forall k :: 0 <= k < i ==>
        w.convert(files[k], k).Converted? || (w.convert(files[k], k).Raises? && o.continueOnError))
      && (i < |files| ==>
        w.convert(files[i], i).NoRelativePath? || (w.convert(files[i], i).Raises? && !o.continueOnError))
    ensures RunsThrough(w, o, files) <==> FirstStop(w, o, files, 0) == |files|
  {
    var i := FirstStop(w, o, files, 0);
    forall k | 0 <= k < i
      ensures w.convert(files[k], k).Converted? || (w.convert(files[k], k).Raises? && o.continueOnError)
    {
      assert !Stops(w, o, files, k);
    }
    assert i < |files| ==> Stops(w, o, files, i);
  }

  /** Each final status, by what the run met, file by file. */
  lemma VerdictIff(w: World, o: Options)
    ensures var files := if w.discovered.Success? then w.discovered.value else [];
      var begins := !w.targetIsAuto && w.discovered.Success? && files != [] && w.outputDir.Success?;
      var reported := o.writeManifest ==> w.manifest.Success?;
      && (Verdict(w, o) == Succeeded <==>
        begins && reported && forall i :: 0 <= i < |files| ==> w.convert(files[i], i).Converted?)
      && (Verdict(w, o) == CompletedWithErrors <==>
        && begins && reported && o.continueOnError
        && (forall i :: 0 <= i < |files| ==> !w.convert(files[i], i).NoRelativePath?)
        && exists i :: 0 <= i < |files| && w.convert(files[i], i).Raises?)
      && Verdict(w, o) in {Succeeded, CompletedWithErrors, Failed}
  {
    if w.discovered.Success? {
      var files := w.discovered.value;
      if RunsThrough(w, o, files) {
        forall i | 0 <= i < |files|
          ensures w.convert(files[i], i).Converted? || (w.convert(files[i], i).Raises? && o.continueOnError)
        {
          assert !Stops(w, o, files, i);
        }
        if !AllConverted(w, files) {
          var i :| 0 <= i < |files| && !w.convert(files[i], i).Converted?;
          assert w.convert(files[i], i).Raises?;
        }
      } else {
        var i :| 0 <= i < |files| && Stops(w, o, files, i);
        assert !w.convert(files[i], i).Converted?;
      }
    }
  }

  // ---------------------------------------------------------------- the runner

  /** `job` is `start` with results recorded for a prefix of the files. */
  predicate Recording(start: BatchJob, job: BatchJob, w: World, o: Options, files: seq<string>) {
    && job == start.(files := job.files, processedFiles := job.processedFiles, failedFiles := job.failedFiles)
    && CountersAgree(job) && RecordsPrefix(w, files, job.files)
    && (!o.continueOnError ==> StopsAtFirstFailure(job.files))
  }

  lemma RecordingOneMore(start: BatchJob, before: BatchJob, job: BatchJob, w: World, o: Options, files: seq<string>,
                         r: FileResult)
    requires Recording(start, before, w, o, files) && |before.files| < |files|
    requires var i := |before.files|;
      && r.path == files[i] && !w.convert(files[i], i).NoRelativePath?
      && (r.succeeded <==> w.convert(files[i], i).Converted?)
      && (w.convert(files[i], i).Raises? ==> r.error == w.convert(files[i], i).error)
    requires !o.continueOnError ==> forall k :: 0 <= k < |before.files| ==> before.files[k].succeeded
    requires job == before.(
      files := before.files + [r], processedFiles := before.processedFiles + 1, failedFiles := job.failedFiles)
    requires CountersAgree(job)
    ensures Recording(start, job, w, o, files)
  {
  }

  /** The `for path in files` loop; an error is the exception that leaves it. */
  method ProcessFiles(r: TextFileBatchRepository, id: string, w: World, o: Options, files: seq<string>)
      returns (error: Option<string>)
    requires id in r.jobs && r.jobs[id].files == [] && CountersAgree(r.jobs[id])
    modifies r
    ensures id in r.jobs && r.jobs == old(r.jobs)[id := r.jobs[id]]
    ensures Recording(old(r.jobs)[id], r.jobs[id], w, o, files)
    ensures error.None? <==> RunsThrough(w, o, files)
    ensures |r.jobs[id].files| == Recorded(w, o, files)
    ensures error.Some? ==>
      var i := FirstStop(w, o, files, 0);
      && i < |files| && !w.convert(files[i], i).Converted? && error == Some(w.convert(files[i], i).error)
  {
    ghost var start := r.jobs[id];
    var i := 0;
    while i < |files|
      invariant 0 <= i <= |files| && id in r.jobs && r.jobs == old(r.jobs)[id := r.jobs[id]]
      invariant Recording(start, r.jobs[id], w, o, files) && |r.jobs[id].files| == i
      invariant !o.continueOnError ==> forall k :: 0 <= k < i ==> r.jobs[id].files[k].succeeded
      invariant forall k :: 0 <= k < i ==> !Stops(w, o, files, k)
    {
      ghost var before := r.jobs[id];
      var outcome := w.convert(files[i], i);
      if outcome.NoRelativePath? {
        FirstStopIs(w, o, files, i);
        return Some(outcome.error);
      }
      var result := FileResult(files[i], outcome.Converted?, if outcome.Raises? then outcome.error else "");
      r.AddFileResult(id, result);
      RecordingOneMore(start, before, r.jobs[id], w, o, files, result);
      if outcome.Raises? && !o.continueOnError {
        FirstStopIs(w, o, files, i);
        return Some(outcome.error);
      }
      i := i + 1;
    }
    FirstStopIs(w, o, files, i);
    error := None;
  }

  /**
   `_run_text_file_batch_job` on a newly created job: it always ends in a terminal status, the status is
   the one `Verdict` names, and the results and counters record the discovered files up to the one that
   ended the loop, that one included if it failed. A job that got through all its files, with or
   without failures, still ends failed exactly when its manifest cannot be written, which is tried last.
   */
  method Run(r: TextFileBatchRepository, id: string, w: World, o: Options)
    requires id in r.jobs && r.jobs[id] == NEW_JOB
    modifies r
    ensures id in r.jobs && r.jobs == old(r.jobs)[id := r.jobs[id]]
    ensures var job := r.jobs[id];
      && job.status == Verdict(w, o) && Terminal(job.status) && job.completed
      && CountersAgree(job)
      && (job.error.Some? <==> job.status == Failed)
      && (if w.discovered.Success? && !w.targetIsAuto
          then RecordsPrefix(w, w.discovered.value, job.files) && job.totalFiles == |w.discovered.value|
          else job.files == [] && job.totalFiles == 0)
      && |job.files| == (if Starts(w) then Recorded(w, o, w.discovered.value) else 0)
      && (job.status != Failed ==> |job.files| == job.totalFiles)
      && (!o.continueOnError ==> StopsAtFirstFailure(job.files))
      && (Starts(w) && RunsThrough(w, o, w.discovered.value) ==>
        && |job.files| == job.totalFiles
        && (job.failedFiles == 0 <==> AllConverted(w, w.discovered.value))
        && (job.status == Failed <==> o.writeManifest && w.manifest.Failure?)
        && (job.status == Failed ==> job.error == Some(w.manifest.error)))
      // Why a job failed, by how far it got; and the manifest it names, if it got through its files.
      && (w.targetIsAuto ==> job.error == Some(AUTO_TARGET))
      && (!w.targetIsAuto && w.discovered.Failure? ==> job.error == Some(w.discovered.error))
      && (!w.targetIsAuto && w.discovered == Success([]) ==> job.error == Some(NO_FILES))
      && (!w.targetIsAuto && w.discovered.Success? && w.discovered.value != [] && w.outputDir.Failure? ==>
        job.error == Some(w.outputDir.error))
      && (Starts(w) && !RunsThrough(w, o, w.discovered.value) ==>
        var i := FirstStop(w, o, w.discovered.value, 0);
        && i < |w.discovered.value| && !w.convert(w.discovered.value[i], i).Converted?
        && |job.files| == (if w.convert(w.discovered.value[i], i).Raises? then i + 1 else i)
        && job.error == Some(w.convert(w.discovered.value[i], i).error))
      && job.manifestPath ==
        if Starts(w) && RunsThrough(w, o, w.discovered.value) && o.writeManifest then Some(w.manifestPath) else None
  {
    r.MarkRunning(id);
    var error := Attempt(r, id, w, o);
    NoFailuresIff(r.jobs[id].files);
    if error.Some? { r.MarkFailed(id, error.value); }
  }

  /** The body of the outer `try`; an error is the exception its handler catches. */
  method Attempt(r: TextFileBatchRepository, id: string, w: World, o: Options) returns (error: Option<string>)
    requires id in r.jobs && r.jobs[id] == NEW_JOB.(status := Running)
    modifies r
    ensures id in r.jobs && r.jobs == old(r.jobs)[id := r.jobs[id]]
    ensures error.None? <==> Verdict(w, o) != Failed
    ensures var job := r.jobs[id];
      && CountersAgree(job)
      && (error.None? ==> job.status == Verdict(w, o) && job.completed && job.error.None?)
      && (if w.discovered.Success? && !w.targetIsAuto
          then RecordsPrefix(w, w.discovered.value, job.files) && job.totalFiles == |w.discovered.value|
          else job.files == [] && job.totalFiles == 0)
      && |job.files| == (if Starts(w) then Recorded(w, o, w.discovered.value) else 0)
      && (error.None? ==> |job.files| == job.totalFiles)
      && (!o.continueOnError ==> StopsAtFirstFailure(job.files))
      && (error.Some? && Starts(w) && RunsThrough(w, o, w.discovered.value) ==>
        error == Some(w.manifest.error))
      && (w.targetIsAuto ==> error == Some(AUTO_TARGET))
      && (!w.targetIsAuto && w.discovered.Failure? ==> error == Some(w.discovered.error))
      && (!w.targetIsAuto && w.discovered == Success([]) ==> error == Some(NO_FILES))
      && (!w.targetIsAuto && w.discovered.Success? && w.discovered.value != [] && w.outputDir.Failure? ==>
        error == Some(w.outputDir.error))
      && (Starts(w) && !RunsThrough(w, o, w.discovered.value) ==>
        var i := FirstStop(w, o, w.discovered.value, 0);
        && i < |w.discovered.value| && !w.convert(w.discovered.value[i], i).Converted?
        && error == Some(w.convert(w.discovered.value[i], i).error))
      && job.manifestPath ==
        if Starts(w) && RunsThrough(w, o, w.discovered.value) && o.writeManifest then Some(w.manifestPath) else None
  {
    if w.targetIsAuto { return Some(AUTO_TARGET); }
    if w.discovered.Failure? { return Some(w.discovered.error); }
    var files := w.discovered.value;
    r.SetTotal(id, |files|);
    if files == [] { return Some(NO_FILES); }
    if w.outputDir.Failure? { return Some(w.outputDir.error); }
    error := ProcessFiles(r, id, w, o, files);
    if error.Some? { return; }
    NoFailuresIff(r.jobs[id].files);
    var manifestPath := if o.writeManifest then Some(w.manifestPath) else None;
    if r.jobs[id].failedFiles > 0 {
      r.MarkDone(id, CompletedWithErrors, manifestPath);
    } else {
      r.MarkDone(id, Succeeded, manifestPath);
    }
    if o.writeManifest && w.manifest.Failure? { return Some(w.manifest.error); }
  }

  /** What each final status says of the job: the reader of a status need not have seen the run. */
  lemma StatusTells(w: World, o: Options, job: BatchJob)
    requires Starts(w) && RecordsPrefix(w, w.discovered.value, job.files) && CountersAgree(job)
    requires job.status == Verdict(w, o) && (job.status != Failed ==> |job.files| == |w.discovered.value|)
    requires !o.continueOnError ==> StopsAtFirstFailure(job.files)
    ensures job.status == Succeeded ==> job.processedFiles == |w.discovered.value| && job.failedFiles == 0
    ensures job.status == CompletedWithErrors ==>
      job.processedFiles == |w.discovered.value| && job.failedFiles > 0 && o.continueOnError
    ensures !o.continueOnError ==> job.failedFiles <= 1
    ensures !o.continueOnError && job.failedFiles == 1 ==> !job.files[|job.files| - 1].succeeded && job.status == Failed
  {
    var rs := job.files;
    NoFailuresIff(rs);
    if rs != [] {
      NoFailuresIff(rs[..|rs| - 1]);
    }
    if !o.continueOnError && job.failedFiles > 0 {
      var i := |rs| - 1;
      assert !rs[i].succeeded;
      assert Stops(w, o, w.discovered.value, i);
    }
  }
}

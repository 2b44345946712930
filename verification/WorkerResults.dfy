/** What a worker makes of an item (edc_translation/worker.py): a translation bundle, or an error. */
module WorkerResults {
  import opened WorkItems

  datatype Outcome = Produced(bundle: string) | Erred(error: string)

  datatype WorkerResult = WorkerResult(jobId: string, workId: string, documentId: string, outcome: Outcome)

  /** The result carries the item's own ids. */
  function ResultFor(item: WorkItem, outcome: Outcome): WorkerResult
    requires item.Valid()
  {
    WorkerResult(item.ResolvedJobId(), item.ResolvedWorkId(), item.DocumentId(), outcome)
  }
}

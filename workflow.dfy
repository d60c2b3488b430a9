/** The parts working together: what the download endpoint answers once the
    worker has run for a job. */
module Workflow {
  import opened Wrappers
  import opened SystemTypes
  import opened ReportJobs
  import opened Storages
  import opened Generator
  import opened Endpoints

  /** After one successful execution the job is terminal, so the service
      offers it for download, and the endpoint serves the rendered report
      under the name built from its rate date and id. */
  lemma DownloadAfterSuccess(s: WorkerState, id: Guid, a: Attempt, dir: string)
    requires id in s.rows && s.rows[id].id == id
    requires Succeeds(a)
    ensures var s' := ExecuteStep(s, id, a, dir).0;
            && IsTerminal(s'.rows[id].status)
            && Download(id, Some(s'.rows[id]), s'.files)
               == FileResult(GeneratePdfBytes([]), PdfContentType, DownloadFileName(s.rows[id].exchangeRateDate.date, id))
  {
  }

  /** After a whole run under the retry policy: if the last execution
      returned, the endpoint serves the rendered report; if it threw, the
      endpoint answers with a conflict quoting the recorded reason, which is
      the failure prefix and that execution's message. */
  lemma DownloadAfterRun(s: WorkerState, id: Guid, script: seq<Attempt>, retries: nat, dir: string)
    requires retries < |script|
    requires id in s.rows && s.rows[id].id == id
    ensures var (sf, n, r) := RetryRun(s, id, script, retries, dir);
            && id in sf.rows && IsTerminal(sf.rows[id].status)
            && (r == Returned ==>
                  Download(id, Some(sf.rows[id]), sf.files)
                  == FileResult(GeneratePdfBytes([]), PdfContentType, DownloadFileName(s.rows[id].exchangeRateDate.date, id)))
            && (r.Threw? ==>
                  Download(id, Some(sf.rows[id]), sf.files)
                  == Conflict(ConflictPrefix + FailurePrefix + r.message))
  {
    RetryRunEffect(s, id, script, retries, dir);
    RetryFinal(s.rows[id], script, retries, dir);
  }
}

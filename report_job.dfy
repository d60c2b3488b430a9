/** The report job record and its status (ReportJob.cs). */
module ReportJobs {
  import opened Wrappers
  import opened SystemTypes

  /** `ReportStatus`: exactly four states. */
  datatype ReportStatus = Pending | Processing | Completed | Failed

  /** One `ReportJob` row. The nullable `CompletedAt`, `StoragePath` and
      `FailureReason` properties are options. */
  datatype ReportJob = ReportJob(
    id: Guid,
    status: ReportStatus,
    requestedAt: DateTime,
    completedAt: Option<DateTime>,
    exchangeRateDate: DateTime,
    storagePath: Option<string>,
    failureReason: Option<string>)

  /** The states in which a job has been attempted to the end. */
  predicate IsTerminal(s: ReportStatus) {
    s == Completed || s == Failed
  }

  /** The constructor `ReportJob(DateTime)`. The fresh `Guid.NewGuid()` and
      the clock reading `DateTime.UtcNow` are passed in. */
  function NewReportJob(id: Guid, utcNow: DateTime, exchangeRateDate: DateTime): (job: ReportJob)
    ensures job.id == id && job.status == Pending
    ensures job.requestedAt == utcNow && job.exchangeRateDate == exchangeRateDate
    ensures job.completedAt == None && job.storagePath == None && job.failureReason == None
  {
    ReportJob(id, Pending, utcNow, None, exchangeRateDate, None, None)
  }

  /** What every persisted row satisfies under this code: a pending job has
      none of the outcome fields; a completed one has a path and a completion
      time; a failed one has a reason and a completion time. A `Processing`
      row is unconstrained: a retry re-enters `Processing` with the outcome
      fields of the previous attempt still in place. */
  predicate WellFormed(job: ReportJob) {
    && (job.status == Pending ==>
          job.completedAt.None? && job.storagePath.None? && job.failureReason.None?)
    && (job.status == Completed ==> job.storagePath.Some? && job.completedAt.Some?)
    && (job.status == Failed ==> job.failureReason.Some? && job.completedAt.Some?)
  }

  lemma NewReportJobWellFormed(id: Guid, utcNow: DateTime, exchangeRateDate: DateTime)
    ensures WellFormed(NewReportJob(id, utcNow, exchangeRateDate))
  {
  }
}

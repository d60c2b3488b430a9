/** The application service behind the endpoints (ReportService.cs): it
    records a new job and enqueues its generation, and it looks jobs up. */
module Services {
  import opened Wrappers
  import opened SystemTypes
  import opened ReportJobs
  import opened Persistence

  /** Hangfire's `IBackgroundJobClient`, seen as the queue of job ids whose
      `ExecuteAsync` has been enqueued, in order. */
  class BackgroundJobClient {
    var enqueued: seq<Guid>

    constructor ()
      ensures enqueued == []
    {
      enqueued := [];
    }

    /** `Enqueue<IPdfReportGenerator>(g => g.ExecuteAsync(id))`. */
    method Enqueue(reportJobId: Guid)
      modifies this
      ensures enqueued == old(enqueued) + [reportJobId]
    {
      enqueued := enqueued + [reportJobId];
    }
  }

  class ReportService {
    const dbContext: AppDbContext
    const jobClient: BackgroundJobClient

    constructor (dbContext: AppDbContext, jobClient: BackgroundJobClient)
      ensures this.dbContext == dbContext && this.jobClient == jobClient
    {
      this.dbContext := dbContext;
      this.jobClient := jobClient;
    }

    /** `QueueReportGenerationAsync`: a new `Pending` row is added and saved
        first, and only then is its generation enqueued; the new id is
        returned. `newId` is the value of `Guid.NewGuid()` and `utcNow` the
        clock reading taken by the `ReportJob` constructor; a fresh GUID is
        never already a key of the table. */
    method QueueReportGeneration(exchangeRateDate: DateTime, newId: Guid, utcNow: DateTime)
      returns (id: Guid)
      requires dbContext.Valid()
      requires newId !in dbContext.reportJobs
      modifies dbContext, jobClient
      ensures dbContext.Valid()
      ensures id == newId
      ensures dbContext.reportJobs == old(dbContext.reportJobs)[id := NewReportJob(id, utcNow, exchangeRateDate)]
      ensures dbContext.writes == old(dbContext.writes) + [NewReportJob(id, utcNow, exchangeRateDate)]
      ensures jobClient.enqueued == old(jobClient.enqueued) + [id]
    {
      var newJob := NewReportJob(newId, utcNow, exchangeRateDate);
      NewReportJobWellFormed(newId, utcNow, exchangeRateDate);
      dbContext.SaveChanges(newJob);
      jobClient.Enqueue(newJob.id);
      id := newJob.id;
    }

    /** `GetReportStatusAsync`: the row with that id, or none. */
    function GetReportStatus(referenceNo: Guid): (r: Option<ReportJob>)
      requires dbContext.Valid()
      reads dbContext
      ensures r.Some? <==> referenceNo in dbContext.reportJobs
      ensures r.Some? ==> r.value == dbContext.reportJobs[referenceNo] && r.value.id == referenceNo
    {
      dbContext.Find(referenceNo)
    }

    /** `GetReportDownloadDetailsAsync`: the row with that id, but only once
        it is `Completed` or `Failed`. */
    function GetReportDownloadDetails(referenceNo: Guid): (r: Option<ReportJob>)
      requires dbContext.Valid()
      reads dbContext
      ensures r.Some? <==> referenceNo in dbContext.reportJobs && IsTerminal(dbContext.reportJobs[referenceNo].status)
      ensures r.Some? ==> r == GetReportStatus(referenceNo)
    {
      match dbContext.Find(referenceNo)
      case Some(job) => if job.status == Completed || job.status == Failed then Some(job) else None
      case None => None
    }
  }

  /** A job just queued is visible to the status query as `Pending` and is
      not yet offered for download. */
  method QueueThenQuery(service: ReportService, exchangeRateDate: DateTime, newId: Guid, utcNow: DateTime)
    returns (id: Guid, status: Option<ReportJob>, details: Option<ReportJob>)
    requires service.dbContext.Valid()
    requires newId !in service.dbContext.reportJobs
    modifies service.dbContext, service.jobClient
    ensures status == Some(NewReportJob(id, utcNow, exchangeRateDate))
    ensures details == None
    ensures id in service.jobClient.enqueued
  {
    id := service.QueueReportGeneration(exchangeRateDate, newId, utcNow);
    status := service.GetReportStatus(id);
    details := service.GetReportDownloadDetails(id);
  }
}

/** The status response the API returns for a job, and the mapping from a
    job row to it (ReportStatusResponse.cs). */
module StatusResponses {
  import opened Wrappers
  import opened SystemTypes
  import opened Text
  import opened ReportJobs

  /** `ReportStatusResponse`. */
  datatype ReportStatusResponse = ReportStatusResponse(
    referenceNo: Guid,
    status: ReportStatus,
    requestedAt: DateTime,
    completedAt: Option<DateTime>,
    failureReason: Option<string>,
    statusDetail: Option<string>)

  const PendingDetail := "Rapor kuyruğunda bekliyor."
  const ProcessingDetail := "Rapor oluşturuluyor."
  const CompletedDetail := "Rapor başarıyla oluşturuldu ve indirilebilir."
  const FailedDetailPrefix := "Rapor oluşturma işlemi başarısız oldu: "

  /** The human-readable detail for each status. A failed job's detail
      carries its reason; interpolating a null reason gives the empty text. */
  function StatusDetail(job: ReportJob): string {
    match job.status
    case Pending => PendingDetail
    case Processing => ProcessingDetail
    case Completed => CompletedDetail
    case Failed => FailedDetailPrefix + OrEmpty(job.failureReason)
  }

  /** `ToResponseModel`: the id, status, times and reason are copied from the
      row; the storage path and rate date are not exposed; a detail is always
      present, since the closed set of statuses never reaches the `null` arm. */
  function ToResponseModel(job: ReportJob): (r: ReportStatusResponse)
    ensures r.referenceNo == job.id && r.status == job.status
    ensures r.requestedAt == job.requestedAt && r.completedAt == job.completedAt
    ensures r.failureReason == job.failureReason
    ensures r.statusDetail == Some(StatusDetail(job))
  {
    ReportStatusResponse(job.id, job.status, job.requestedAt, job.completedAt, job.failureReason,
                         Some(StatusDetail(job)))
  }

  /** The seventh and fourteenth characters of each status's detail. */
  function Signature(s: ReportStatus): (char, char) {
    match s
    case Pending => ('k', 'n')
    case Processing => ('o', 'u')
    case Completed => ('b', 'l')
    case Failed => ('o', 'm')
  }

  lemma StatusDetailSignature(job: ReportJob)
    ensures |StatusDetail(job)| > 13
    ensures (StatusDetail(job)[6], StatusDetail(job)[13]) == Signature(job.status)
  {
  }

  /** The detail tells the four statuses apart: equal details mean equal
      statuses. */
  lemma StatusDetailIdentifiesStatus(a: ReportJob, b: ReportJob)
    requires StatusDetail(a) == StatusDetail(b)
    ensures a.status == b.status
  {
    StatusDetailSignature(a);
    StatusDetailSignature(b);
  }

  /** Apart from a failed job, the detail depends on the status alone; for a
      failed job it determines the reason text that was interpolated. */
  lemma StatusDetailDeterminesReason(a: ReportJob, b: ReportJob)
    requires a.status == Failed && b.status == Failed
    requires StatusDetail(a) == StatusDetail(b)
    ensures OrEmpty(a.failureReason) == OrEmpty(b.failureReason)
  {
    var n := |FailedDetailPrefix|;
    assert OrEmpty(a.failureReason) == StatusDetail(a)[n..];
    assert OrEmpty(b.failureReason) == StatusDetail(b)[n..];
  }

  /** Two rows with the same response differ at most in the fields the
      response leaves out. */
  lemma ResponseOmitsOnlyPathAndRateDate(a: ReportJob, b: ReportJob)
    requires ToResponseModel(a) == ToResponseModel(b)
    requires a.storagePath == b.storagePath && a.exchangeRateDate == b.exchangeRateDate
    ensures a == b
  {
  }
}

/** The three HTTP endpoints under `/api/reports` (ReportEndpoints.cs): what
    each one answers, decided from the request, the service's lookups and
    the file store. */
module Endpoints {
  import opened Wrappers
  import opened SystemTypes
  import opened Text
  import opened ReportJobs
  import opened Persistence
  import opened Storages
  import opened StatusResponses
  import opened Services

  /** The body of `POST /api/reports`. */
  datatype ReportRequest = ReportRequest(exchangeRateDate: DateTime)

  /** `ReportQueueResponse`. */
  datatype ReportQueueResponse = ReportQueueResponse(referenceNo: Guid, status: string, message: string)
  {
    /** `ReportQueueResponse.Pending`. */
    static function Pending(referenceNo: Guid): ReportQueueResponse {
      ReportQueueResponse(referenceNo, "Pending", QueuedMessage)
    }
  }

  const QueuedMessage := "Rapor oluşturma talebiniz başarıyla alındı ve arka plana atıldı."
  const FutureDateMessage := "İstenen kur tarihi bugünden ileri olamaz."
  const NotReadyMessage := "Rapor bulunamadı veya henüz kuyrukta/işleniyor. Lütfen durumu sorgulayın."
  const ConflictPrefix := "İşlem başarısız oldu ve indirme yapılamıyor. Hata: "
  const MissingPathMessage := "Rapor tamamlanmış görünüyor ancak dosya yolu kaydedilmemiş."
  const MissingFileMessage := "Dosya depolama alanında bulunamadı (Sunucu hatası)."
  const PdfContentType := "application/pdf"

  /** The `IResult`s the endpoints produce. The anonymous `{ Message = … }`
      bodies are their message text. */
  datatype HttpResult =
    | Ok(response: ReportStatusResponse)
    | Accepted(location: string, queued: ReportQueueResponse)
    | NotFound(message: string)
    | BadRequest(message: string)
    | Conflict(message: string)
    | Json(message: string, statusCode: nat)
    | FileResult(content: seq<byte>, contentType: string, fileDownloadName: string)

  /** The not-found message of the status endpoint, which quotes the id. */
  function JobNotFoundMessage(referenceNo: Guid): (m: string)
    ensures |m| == 77
  {
    "Referans numarasına (" + GuidText(referenceNo) + ") ait iş bulunamadı."
  }

  /** The id can be read back out of that message. */
  lemma JobNotFoundMessageNamesJob(referenceNo: Guid)
    ensures GuidDigits(JobNotFoundMessage(referenceNo)[21..57]) == referenceNo
  {
    assert JobNotFoundMessage(referenceNo)[21..57] == GuidText(referenceNo);
    GuidTextRoundTrip(referenceNo);
  }

  /** The `Location` of an accepted request: the status URL of the new job. */
  function StatusLocation(referenceNo: Guid): (loc: string)
    ensures |loc| == 56
  {
    "/api/reports/" + GuidText(referenceNo) + "/status"
  }

  /** The status URL names the job it was issued for. */
  lemma StatusLocationNamesJob(referenceNo: Guid)
    ensures GuidDigits(StatusLocation(referenceNo)[13..49]) == referenceNo
    ensures StatusLocation(referenceNo)[49..] == "/status"
  {
    assert StatusLocation(referenceNo)[13..49] == GuidText(referenceNo);
    GuidTextRoundTrip(referenceNo);
  }

  /** `$"TCMB_Rapor_{ExchangeRateDate:yyyyMMdd}_{referenceNo}.pdf"`. */
  function DownloadFileName(exchangeRateDate: Date, referenceNo: Guid): (name: string)
    ensures |name| == 60
  {
    "TCMB_Rapor_" + FormatYyyyMMdd(exchangeRateDate) + "_" + GuidText(referenceNo) + ".pdf"
  }

  /** The download name shows the rate date and the reference number, so over
      representable dates two downloads share a name only when both agree. */
  lemma DownloadFileNameInjective(d1: Date, id1: Guid, d2: Date, id2: Guid)
    requires ValidDate(d1) && ValidDate(d2)
    requires DownloadFileName(d1, id1) == DownloadFileName(d2, id2)
    ensures d1 == d2 && id1 == id2
  {
    var n1, n2 := DownloadFileName(d1, id1), DownloadFileName(d2, id2);
    assert n1[11..19] == FormatYyyyMMdd(d1) && n2[11..19] == FormatYyyyMMdd(d2);
    assert n1[20..56] == GuidText(id1) && n2[20..56] == GuidText(id2);
    FormatYyyyMMddInjective(d1, d2);
    GuidTextInjective(id1, id2);
  }

  /** The guard of `QueueReport`: the requested day lies after today. */
  predicate IsFutureDate(request: ReportRequest, today: Date) {
    DateAfter(request.exchangeRateDate.date, today)
  }

  /** `GET /api/reports/{referenceNo}/status`. */
  method GetReportStatus(referenceNo: Guid, reportService: ReportService) returns (r: HttpResult)
    requires reportService.dbContext.Valid()
    ensures r.Ok? || r.NotFound?
    ensures r.Ok? <==> referenceNo in reportService.dbContext.reportJobs
    ensures r.Ok? ==> r.response == ToResponseModel(reportService.dbContext.reportJobs[referenceNo])
    ensures r.Ok? ==> r.response.referenceNo == referenceNo
    ensures r.NotFound? ==> r.message == JobNotFoundMessage(referenceNo)
  {
    var job := reportService.GetReportStatus(referenceNo);
    if job.None? {
      return NotFound(JobNotFoundMessage(referenceNo));
    }
    return Ok(ToResponseModel(job.value));
  }

  /** `POST /api/reports`. A date after `today` (the local `DateTime.Today`)
      is refused and nothing is recorded; otherwise the job is queued and its
      status URL returned with the pending response. */
  method QueueReport(request: ReportRequest, reportService: ReportService, today: Date, newId: Guid, utcNow: DateTime)
    returns (r: HttpResult)
    requires reportService.dbContext.Valid()
    requires newId !in reportService.dbContext.reportJobs
    modifies reportService.dbContext, reportService.jobClient
    ensures reportService.dbContext.Valid()
    ensures IsFutureDate(request, today) ==>
              && r == BadRequest(FutureDateMessage)
              && unchanged(reportService.dbContext, reportService.jobClient)
    ensures !IsFutureDate(request, today) ==>
              && r == Accepted(StatusLocation(newId), ReportQueueResponse.Pending(newId))
              && reportService.dbContext.reportJobs
                 == old(reportService.dbContext.reportJobs)[newId := NewReportJob(newId, utcNow, request.exchangeRateDate)]
              && reportService.dbContext.writes
                 == old(reportService.dbContext.writes) + [NewReportJob(newId, utcNow, request.exchangeRateDate)]
              && reportService.jobClient.enqueued == old(reportService.jobClient.enqueued) + [newId]
  {
    if DateAfter(request.exchangeRateDate.date, today) {
      return BadRequest(FutureDateMessage);
    }
    var referenceNo := reportService.QueueReportGeneration(request.exchangeRateDate, newId, utcNow);
    return Accepted(StatusLocation(referenceNo), ReportQueueResponse.Pending(referenceNo));
  }

  /** What `GET /api/reports/{referenceNo}/download` answers, given the
      service's download details and the files in the store. The checks run
      in order: no terminal job; a failed job; a missing path; a missing
      file; otherwise the file. */
  function Download(referenceNo: Guid, details: Option<ReportJob>, files: map<string, seq<byte>>): (r: HttpResult)
    ensures r == NotFound(NotReadyMessage) <==> details.None?
    ensures r.Conflict? <==> details.Some? && details.value.status == Failed
    ensures r.Conflict? ==> r.message == ConflictPrefix + OrEmpty(details.value.failureReason)
    ensures r.Json? <==> details.Some? && details.value.status != Failed && IsNullOrEmpty(details.value.storagePath)
    ensures r.Json? ==> r == Json(MissingPathMessage, 500)
    ensures r == NotFound(MissingFileMessage) <==>
              && details.Some? && details.value.status != Failed && !IsNullOrEmpty(details.value.storagePath)
              && details.value.storagePath.value !in files
    ensures r.FileResult? <==>
              && details.Some? && details.value.status != Failed && !IsNullOrEmpty(details.value.storagePath)
              && details.value.storagePath.value in files
    ensures r.FileResult? ==>
              && r.content == files[details.value.storagePath.value]
              && r.contentType == PdfContentType
              && r.fileDownloadName == DownloadFileName(details.value.exchangeRateDate.date, referenceNo)
  {
    match details
    case None => NotFound(NotReadyMessage)
    case Some(job) =>
      if job.status == Failed then Conflict(ConflictPrefix + OrEmpty(job.failureReason))
      else if IsNullOrEmpty(job.storagePath) then Json(MissingPathMessage, 500)
      else if job.storagePath.value !in files then NotFound(MissingFileMessage)
      else FileResult(files[job.storagePath.value], PdfContentType,
                      DownloadFileName(job.exchangeRateDate.date, referenceNo))
  }

  /** `GET /api/reports/{referenceNo}/download`: the lookups, then the checks
      of `Download`; the store's not-found error becomes the second
      not-found answer. */
  method DownloadReport(referenceNo: Guid, reportService: ReportService, storageStrategy: LocalFileStorageStrategy)
    returns (r: HttpResult)
    requires reportService.dbContext.Valid()
    ensures r == Download(referenceNo, reportService.GetReportDownloadDetails(referenceNo), storageStrategy.files)
  {
    var job := reportService.GetReportDownloadDetails(referenceNo);
    if job.None? {
      return NotFound(NotReadyMessage);
    }
    if job.value.status == Failed {
      return Conflict(ConflictPrefix + OrEmpty(job.value.failureReason));
    }
    if IsNullOrEmpty(job.value.storagePath) {
      return Json(MissingPathMessage, 500);
    }
    var fileStream := storageStrategy.GetReportStream(job.value.storagePath.value);
    if fileStream.Failure? {
      return NotFound(MissingFileMessage);
    }
    return FileResult(fileStream.value, PdfContentType, DownloadFileName(job.value.exchangeRateDate.date, referenceNo));
  }
}

# AsyncPdfProcessor report-job lifecycle in Dafny

AsyncPdfProcessor is an ASP.NET service that produces exchange-rate PDF
reports in the background. A client posts a rate date. The service stores a
`Pending` `ReportJob` and enqueues a Hangfire job. The worker
(`PdfReportGenerator.ExecuteAsync`) persists `Processing`, fetches the rates
from the central bank's XML feed, renders 1024 bytes and saves them under
`LocalReports/{id}.pdf`. It then persists `Completed`, or `Failed` with a
reason and rethrows. Hangfire's `[AutomaticRetry(Attempts = 3)]` re-invokes
the worker after each exception. Clients poll a status endpoint and download
the file once the job is done.

The project models this core:

- `report_job.dfy` has the job row, its four statuses and the constructor.
- `persistence.dfy` has the `ReportJobs` table as a map from id to row. A
  ghost log records every row `SaveChangesAsync` writes.
- `storage.dfy` has the local artifact store as a map from path to bytes.
- `central_bank.dfy` has the rate client: decimal normalisation, the
  unit/rate defaults and the per-element mapping loop.
- `generator.dfy` has the worker body as a method over the table and the
  store, and the retry policy as a bounded loop around it. Both are specified
  by pure functions of the state: `ExecuteStep` for one execution and
  `RetryRun` for a whole run. `RetryWrites` is the sequence of rows a run
  persists, and the lemmas about the lifecycle are stated on it.
- `services.dfy` has `ReportService` (queueing and the two lookups) and the
  Hangfire client as a queue of ids.
- `status_response.dfy` has the status-response mapping.
- `endpoints.dfy` has the three HTTP handlers.
- `workflow.dfy` connects the worker's outcome to what the download endpoint
  then answers.
- `system_types.dfy`, `text.dfy` and `wrappers.dfy` model the .NET values
  used: GUIDs and their text form, dates and the `yyyyMMdd` format,
  `string.Trim`, `string.Replace`, and `Option`/`Result`.

The outside world enters as parameters:

- An `Attempt` gives one execution's feed outcome, an optional disk-write
  exception message and the `DateTime.UtcNow` reading. A script of attempts can
  therefore play "fail, fail, succeed".
- `Guid.NewGuid()`, `DateTime.UtcNow` and `DateTime.Today` are arguments.
- The `tr-TR` and invariant-culture `TryParse` routines are function values
  whose results are not interpreted.

The code behaves in two ways that a reader might not expect. The model keeps
both as written:

- Every retry writes `Processing` again (PdfReportGenerator.cs line 24). The
  row it writes still carries the previous attempt's `CompletedAt` and
  `FailureReason`, so a job goes `Processing → Failed → Processing`. For this
  reason `WellFormed` places no constraint on a `Processing` row.
- A success never clears `FailureReason`. A job that fails and then succeeds
  ends `Completed` with the last failure's reason still set. Its status
  response then shows that reason beside the "completed" detail.

`Attempts = 3` counts retries after the first run, so a job runs at most four
times. The bound is the `retries` parameter, and the policy's value is
`AutomaticRetryAttempts`.

## Model

| member | source | states |
|---|---|---|
| ReportJobs.NewReportJob | src/AsyncPdfProcessor.Domain/Entities/ReportJob.cs:17-23 | a new job has the given id and rate date and the given clock reading as `RequestedAt`, is `Pending`, and has no completion time, path or reason |
| ReportJobs.NewReportJobWellFormed | src/AsyncPdfProcessor.Domain/Entities/ReportJob.cs:8-11 | a new job satisfies the row invariant (a pending job has none of the outcome fields) |
| Persistence.AppDbContext.Find | src/AsyncPdfProcessor.Infrastructure/Services/PdfReportGenerator.cs:21 | `FirstOrDefaultAsync(j => j.Id == id)`: present exactly when the id is a key, and then that row |
| Persistence.AppDbContext.SaveChanges | src/AsyncPdfProcessor.Infrastructure/Services/PdfReportGenerator.cs:25 | the written row replaces the one with its id, is appended to the write log, and the table stays keyed by id and well formed |
| Persistence.AppDbContext.constructor | src/AsyncPdfProcessor.Infrastructure/Persistence/AppDbContext.cs:8 | the table starts empty |
| SystemTypes.GuidText | src/AsyncPdfProcessor.Infrastructure/Storages/LocalFileStorageStrategy.cs:23 | `Guid.ToString()` is 36 characters with hyphens at positions 8, 13, 18 and 23 |
| SystemTypes.GuidTextRoundTrip | src/AsyncPdfProcessor.Api/Endpoints/ReportEndpoints.cs:35 | the 32 digits can be read back from the text form |
| SystemTypes.GuidTextInjective | src/AsyncPdfProcessor.Api/Endpoints/ReportEndpoints.cs:94 | distinct GUIDs print differently |
| SystemTypes.FixedDigits | src/AsyncPdfProcessor.Api/Endpoints/ReportEndpoints.cs:94 | a fixed-width numeric field has exactly `width` decimal digits |
| SystemTypes.FixedDigitsInjective | src/AsyncPdfProcessor.Api/Endpoints/ReportEndpoints.cs:94 | below `10^width`, distinct numbers get distinct fields |
| SystemTypes.FormatYyyyMMdd | src/AsyncPdfProcessor.Api/Endpoints/ReportEndpoints.cs:94 | `yyyyMMdd` is eight decimal digits |
| SystemTypes.FormatYyyyMMddInjective | src/AsyncPdfProcessor.Api/Endpoints/ReportEndpoints.cs:94 | distinct representable dates format differently |
| SystemTypes.DateAfterIsStrictOrder | src/AsyncPdfProcessor.Api/Endpoints/ReportEndpoints.cs:43 | the date comparison of the future-date guard is a strict total order |
| Text.TrimStart | src/AsyncPdfProcessor.Infrastructure/Clients/CentralBankClient.cs:70 | removes exactly the leading white space and leaves a suffix of the input |
| Text.TrimEnd | src/AsyncPdfProcessor.Infrastructure/Clients/CentralBankClient.cs:70 | removes exactly the trailing white space and leaves a prefix of the input |
| Text.Trim | src/AsyncPdfProcessor.Infrastructure/Clients/CentralBankClient.cs:70 | the result neither starts nor ends with white space |
| Text.TrimIsMiddleSlice | src/AsyncPdfProcessor.Infrastructure/Clients/CentralBankClient.cs:70 | the trimmed text is a contiguous slice of the input |
| Text.TrimIdempotent | src/AsyncPdfProcessor.Infrastructure/Clients/CentralBankClient.cs:70 | trimming twice is trimming once |
| Text.BlankIffTrimEmpty | src/AsyncPdfProcessor.Infrastructure/Clients/CentralBankClient.cs:67-70 | a text is all white space exactly when it trims to empty |
| Text.Replace | src/AsyncPdfProcessor.Infrastructure/Clients/CentralBankClient.cs:74 | same length; each occurrence of the old character becomes the new one and every other character stays |
| CentralBank.NormalizeSeparator | src/AsyncPdfProcessor.Infrastructure/Clients/CentralBankClient.cs:72-75 | for a "," culture and a text with '.' but no ',', every '.' becomes ',' and none remains; otherwise the text is unchanged; length is preserved |
| CentralBank.ParseDecimalNormalized | src/AsyncPdfProcessor.Infrastructure/Clients/CentralBankClient.cs:65-84 | null or blank gives the default; otherwise the trimmed, normalised text is parsed by the culture, then by the invariant culture, and the first success wins, else the default |
| CentralBank.ParseIgnoresSurroundingWhiteSpace | src/AsyncPdfProcessor.Infrastructure/Clients/CentralBankClient.cs:43-44 | trimming before the call does not change the parsed value |
| CentralBank.ParseUnit | src/AsyncPdfProcessor.Infrastructure/Clients/CentralBankClient.cs:46-47 | the parsed unit, or 1 when it is missing or does not parse |
| CentralBank.ExchangeRateDefaults | src/AsyncPdfProcessor.Infrastructure/Clients/CentralBankClient.cs:41-59 | code and name are copied; a missing or unparseable unit is 1; a missing or blank buying or selling rate is 0 |
| CentralBank.Currencies | src/AsyncPdfProcessor.Infrastructure/Clients/CentralBankClient.cs:37 | `Elements("Currency")` keeps only children named "Currency" |
| CentralBank.CurrenciesAppend | src/AsyncPdfProcessor.Infrastructure/Clients/CentralBankClient.cs:37 | the filter keeps document order: it distributes over concatenation |
| CentralBank.CurrenciesMembers | src/AsyncPdfProcessor.Infrastructure/Clients/CentralBankClient.cs:37 | an element is kept exactly when it is a child named "Currency" |
| CentralBank.RatesOf | src/AsyncPdfProcessor.Infrastructure/Clients/CentralBankClient.cs:39-60 | one rate per element |
| CentralBank.RatesOfAt | src/AsyncPdfProcessor.Infrastructure/Clients/CentralBankClient.cs:39-60 | the k-th rate is the mapping of the k-th element |
| CentralBank.RatesStep | src/AsyncPdfProcessor.Infrastructure/Clients/CentralBankClient.cs:52-59 | one loop step appends the mapped element exactly when it is a "Currency" child |
| CentralBank.GetTodayExchangeRates | src/AsyncPdfProcessor.Infrastructure/Clients/CentralBankClient.cs:19-63 | an HTTP failure becomes the retry message, any other exception propagates, no root gives an empty list, otherwise one rate per "Currency" child in document order |
| Storages.ReportFileName | src/AsyncPdfProcessor.Infrastructure/Storages/LocalFileStorageStrategy.cs:23 | `{id}.pdf` is 40 characters |
| Storages.Locator | src/AsyncPdfProcessor.Infrastructure/Storages/LocalFileStorageStrategy.cs:23-24 | the full path is the directory, a separator and the file name |
| Storages.LocatorRoundTrip | src/AsyncPdfProcessor.Infrastructure/Storages/LocalFileStorageStrategy.cs:23-24 | the id can be read back from its locator |
| Storages.LocatorInjective | src/AsyncPdfProcessor.Infrastructure/Storages/LocalFileStorageStrategy.cs:23-26 | two jobs never share a file |
| Storages.LocalFileStorageStrategy.constructor | src/AsyncPdfProcessor.Infrastructure/Storages/LocalFileStorageStrategy.cs:11-13 | the directory is the content root combined with `LocalReports` |
| Storages.LocalFileStorageStrategy.SaveReport | src/AsyncPdfProcessor.Infrastructure/Storages/LocalFileStorageStrategy.cs:21-29 | writes the bytes at the id's locator, returns it, and reading it gives the bytes back; a write exception writes nothing; other paths are unchanged |
| Storages.LocalFileStorageStrategy.GetReportStream | src/AsyncPdfProcessor.Infrastructure/Storages/LocalFileStorageStrategy.cs:31-40 | the content exactly when the path exists, otherwise the distinct not-found error naming the path |
| Storages.LocalFileStorageStrategy.DeleteReport | src/AsyncPdfProcessor.Infrastructure/Storages/LocalFileStorageStrategy.cs:42-49 | removes the path if present; afterwards it reads as not found; other paths are unchanged |
| Storages.DeleteTwice | src/AsyncPdfProcessor.Infrastructure/Storages/LocalFileStorageStrategy.cs:42-49 | deleting twice is deleting once |
| Storages.SaveTwice | src/AsyncPdfProcessor.Infrastructure/Storages/LocalFileStorageStrategy.cs:23-26 | saving twice under one id returns the same locator, and the last content wins |
| Generator.GeneratePdfBytes | src/AsyncPdfProcessor.Infrastructure/Services/PdfReportGenerator.cs:52-55 | 1024 zero bytes |
| Generator.GeneratePdfBytesIgnoresRates | src/AsyncPdfProcessor.Infrastructure/Services/PdfReportGenerator.cs:52-55 | the artifact does not depend on the rates |
| Generator.AttemptedOutcome | src/AsyncPdfProcessor.Infrastructure/Services/PdfReportGenerator.cs:27-50 | an attempt ends terminal and well formed with `CompletedAt` set; it is `Completed` exactly when nothing threw; success sets the locator and keeps the reason; failure sets the prefixed message and keeps the path; the fixed fields never change |
| Generator.ExecuteStepEffect | src/AsyncPdfProcessor.Infrastructure/Services/PdfReportGenerator.cs:19-51 | an unknown id changes nothing; otherwise only that row changes, exactly two rows are persisted (`Processing` first, then the terminal row), an exception is rethrown exactly when the row is `Failed`, and the file is written only at the job's locator and only on success |
| Generator.PdfReportGenerator.Execute | src/AsyncPdfProcessor.Infrastructure/Services/PdfReportGenerator.cs:19-51 | the table, write log, files and outcome after the call are `ExecuteStep` of those before it; recorded paths stay the locators of their jobs |
| Generator.PdfReportGenerator.constructor | src/AsyncPdfProcessor.Infrastructure/Services/PdfReportGenerator.cs:9-16 | the worker holds the given client, store and context |
| Generator.RetryWrites | src/AsyncPdfProcessor.Infrastructure/Services/PdfReportGenerator.cs:18-51 | a run persists two rows per execution, at least one and at most `retries + 1` executions |
| Generator.RetryWritesAlternate | src/AsyncPdfProcessor.Infrastructure/Services/PdfReportGenerator.cs:24-41 | persisted rows alternate `Processing`, terminal, `Processing`, …: every retry re-enters `Processing` |
| Generator.RetryExecutions | src/AsyncPdfProcessor.Infrastructure/Services/PdfReportGenerator.cs:18-45 | every execution but the last threw, and the last returned unless the bound was reached |
| Generator.RetryFinal | src/AsyncPdfProcessor.Infrastructure/Services/PdfReportGenerator.cs:33-44 | the job ends terminal and well formed; `Completed` exactly when some execution within the bound succeeds, then at its locator; `Failed` keeps its old path |
| Generator.RetryKeepsFailureReason | src/AsyncPdfProcessor.Infrastructure/Services/PdfReportGenerator.cs:35-42 | the final reason is set exactly when the job had one or the first execution threw; after a failure then success it is the last failure's reason |
| Generator.FailFailSucceed | src/AsyncPdfProcessor.Infrastructure/Services/PdfReportGenerator.cs:18-51 | fail, fail, succeed: six writes; the second execution re-enters `Processing` with the first failure's reason and time; the job ends `Completed` with the second failure's reason |
| Generator.AllAttemptsFail | src/AsyncPdfProcessor.Infrastructure/Services/PdfReportGenerator.cs:18-51 | four failures: eight writes; the job ends `Failed` with the fourth message and its old path |
| Generator.RetryRunEffect | src/AsyncPdfProcessor.Infrastructure/Services/PdfReportGenerator.cs:18-51 | a run leaves the row as the last of `RetryWrites`, appends all of them to the log, counts half as many executions, returns exactly when the job is `Completed` (a throw leaves the prefixed message as the reason), and writes the file exactly then |
| Generator.PdfReportGenerator.RunWithRetries | src/AsyncPdfProcessor.Infrastructure/Services/PdfReportGenerator.cs:18 | the state, execution count and final outcome of the re-invocation loop are `RetryRun` of the state before it |
| Services.BackgroundJobClient.Enqueue | src/AsyncPdfProcessor.Infrastructure/Services/ReportService.cs:21 | appends exactly the given id to the queue |
| Services.BackgroundJobClient.constructor | src/AsyncPdfProcessor.Infrastructure/Services/ReportService.cs:12 | the queue starts empty |
| Services.ReportService.constructor | src/AsyncPdfProcessor.Infrastructure/Services/ReportService.cs:9-12 | the service holds the given context and job client |
| Services.ReportService.QueueReportGeneration | src/AsyncPdfProcessor.Infrastructure/Services/ReportService.cs:14-24 | exactly one new `Pending` row is added, other rows unchanged, one row persisted, and the returned id is the one appended to the queue; any date is accepted |
| Services.ReportService.GetReportStatus | src/AsyncPdfProcessor.Infrastructure/Services/ReportService.cs:26-31 | the row with that id when present, otherwise none |
| Services.ReportService.GetReportDownloadDetails | src/AsyncPdfProcessor.Infrastructure/Services/ReportService.cs:33-39 | present exactly when the job exists and is `Completed` or `Failed`, and then the same row the status lookup gives |
| Services.QueueThenQuery | src/AsyncPdfProcessor.Infrastructure/Services/ReportService.cs:14-39 | a just-queued job looks up as the new `Pending` job, is not offered for download, and is in the queue |
| StatusResponses.ToResponseModel | src/AsyncPdfProcessor.Api/Models/ReportStatusResponse.cs:18-36 | id, status, times and reason are copied; a detail is always present |
| StatusResponses.StatusDetailSignature | src/AsyncPdfProcessor.Api/Models/ReportStatusResponse.cs:20-27 | each status's detail has its own characters at positions 6 and 13; the failed detail starts with its prefix |
| StatusResponses.StatusDetailIdentifiesStatus | src/AsyncPdfProcessor.Api/Models/ReportStatusResponse.cs:20-27 | equal details mean equal statuses |
| StatusResponses.StatusDetailDeterminesReason | src/AsyncPdfProcessor.Api/Models/ReportStatusResponse.cs:25 | a failed job's detail is the prefix followed by the reason, so it determines the reason text |
| StatusResponses.ResponseOmitsOnlyPathAndRateDate | src/AsyncPdfProcessor.Api/Models/ReportStatusResponse.cs:28-35 | rows with one response differ only in the path and the rate date |
| Endpoints.JobNotFoundMessage | src/AsyncPdfProcessor.Api/Endpoints/ReportEndpoints.cs:35 | the not-found message of the status endpoint has a fixed length |
| Endpoints.JobNotFoundMessageNamesJob | src/AsyncPdfProcessor.Api/Endpoints/ReportEndpoints.cs:35 | that message quotes the reference number |
| Endpoints.StatusLocation | src/AsyncPdfProcessor.Api/Endpoints/ReportEndpoints.cs:51 | the status URL has a fixed length |
| Endpoints.StatusLocationNamesJob | src/AsyncPdfProcessor.Api/Endpoints/ReportEndpoints.cs:51 | the status URL names the new job and ends in `/status` |
| Endpoints.DownloadFileName | src/AsyncPdfProcessor.Api/Endpoints/ReportEndpoints.cs:94 | `TCMB_Rapor_{yyyyMMdd}_{id}.pdf` is 60 characters |
| Endpoints.DownloadFileNameInjective | src/AsyncPdfProcessor.Api/Endpoints/ReportEndpoints.cs:94 | the download name determines both the rate date and the reference number |
| Endpoints.GetReportStatus | src/AsyncPdfProcessor.Api/Endpoints/ReportEndpoints.cs:27-39 | `Ok` with the mapped job exactly when the id is known, otherwise `NotFound` quoting the id |
| Endpoints.QueueReport | src/AsyncPdfProcessor.Api/Endpoints/ReportEndpoints.cs:41-54 | a date after today is `BadRequest` with nothing recorded or queued; otherwise one job is queued and the answer is `Accepted` with its status URL and the pending body |
| Endpoints.Download | src/AsyncPdfProcessor.Api/Endpoints/ReportEndpoints.cs:61-95 | in order: no terminal job is the first `NotFound`; `Failed` is `Conflict` quoting the reason; an empty path is the 500 answer; a missing file is the second, distinct `NotFound`; otherwise the stored bytes as `application/pdf` under the derived name |
| Endpoints.DownloadReport | src/AsyncPdfProcessor.Api/Endpoints/ReportEndpoints.cs:56-96 | the handler's answer is `Download` of the service's download details and the store's files |
| Workflow.DownloadAfterSuccess | src/AsyncPdfProcessor.Api/Endpoints/ReportEndpoints.cs:61-95 | after one successful execution the job is offered for download, and the endpoint serves the 1024 rendered bytes under its derived name |
| Workflow.DownloadAfterRun | src/AsyncPdfProcessor.Infrastructure/Services/PdfReportGenerator.cs:18-51 | after a whole run, a returning last execution means the file is served, and a throwing one means `Conflict` quoting the prefixed exception message |

## Left out

- Hangfire's scheduler, back-off delays, worker pool and job storage are left out. Only the re-invocation count is modelled, as a sequential loop.
- EF Core change tracking and the SQL Server mapping are left out, including the status-to-string conversion in `AppDbContext`. The table is a map. Adding a row and saving it are one `SaveChanges` call.
- A failure of `SaveChangesAsync` is not modelled. Every save succeeds, including the one in the `finally` block.
- A `Guid.NewGuid()` that collides with an existing key is not modelled. `QueueReportGeneration` requires a fresh id, which stands for the uniqueness `NewGuid` provides.
- The HTTP download and `XDocument.Parse` are left out. The feed outcome arrives as `FeedResponse`: an HTTP failure, another exception with its message, or the root's children already parsed.
- The bodies of `decimal.TryParse` and `int.TryParse` under each culture are left out. They are function parameters whose results are not interpreted. `decimal` is a real number.
- The `CentralBank:ApiUrl` configuration check in the client's constructor is left out, because it is configuration wiring.
- `ExchangeRate.ToString` is left out, because it is decimal formatting that the core never uses.
- The parameterless `ReportJob()` constructor is left out, because only EF uses it. Properties set outside the listed operations are not modelled.
- Creating the report directory in the storage constructor is left out, and so are `FileStream`. `Path.Combine` is modelled as concatenation with "/".
- A write exception inside `File.WriteAllBytesAsync` leaves no partial file in the model.
- `DateTime.UtcNow`, `DateTime.Today` and `Guid.NewGuid()` are parameters. `DateTime` is a calendar date plus the time of day. Time zones are not modelled.
- A GUID is its 32 lower-case hexadecimal digits in printed order. The byte layout of `System.Guid` is not modelled.
- The `_ => null` arm of the status switch is left out. The datatype has exactly four statuses, so it is unreachable.
- `DependencyInjection.cs`, `Program.cs` and the interface files are left out, because they are wiring and signatures.
- The live-network integration test is left out.
- The order of saving a new job before enqueueing it, and of persisting `Processing` before fetching, is visible only in the method bodies and the write log. No two-object interleaving is modelled: contracts state the final table, log and queue.
- Rendering cannot throw, because the rendered report ignores the rates, as `GeneratePdfBytes` does. The catch block therefore sees only feed and disk-write exceptions.

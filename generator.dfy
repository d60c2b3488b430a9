/** The background worker (PdfReportGenerator.cs): one execution of
    `ExecuteAsync`, and the `[AutomaticRetry(Attempts = 3)]` policy that
    re-invokes it after an exception. */
module Generator {
  import opened Wrappers
  import opened SystemTypes
  import opened ReportJobs
  import opened Persistence
  import opened Storages
  import opened CentralBank

  /** `[AutomaticRetry(Attempts = 3)]`: up to three retries after the first run. */
  const AutomaticRetryAttempts: nat := 3

  /** The prefix of the `FailureReason` written when an attempt throws. */
  const FailurePrefix := "Rapor oluşturulurken hata: "

  /** `GeneratePdfBytes`: 1024 zero bytes, whatever the rates. */
  function GeneratePdfBytes(rates: seq<ExchangeRate>): (pdf: seq<byte>)
    ensures |pdf| == 1024
    ensures forall i :: 0 <= i < |pdf| ==> pdf[i] == 0
  {
    seq(1024, _ => 0)
  }

  lemma GeneratePdfBytesIgnoresRates(a: seq<ExchangeRate>, b: seq<ExchangeRate>)
    ensures GeneratePdfBytes(a) == GeneratePdfBytes(b)
  {
  }

  /** What the outside world does during one execution: the outcome of the
      feed download, the message of an exception the disk write throws (if
      any) and the clock reading `DateTime.UtcNow`. */
  datatype Attempt = Attempt(feed: FeedResponse, saveFault: Option<string>, utcNow: DateTime)

  /** How an execution ends: it returns, or it throws an exception with this message. */
  datatype ExecResult = Returned | Threw(message: string)

  /** The message of the exception an attempt ends in: the feed's error, else
      the disk write's. Rendering never throws. */
  function AttemptFault(a: Attempt): Option<string> {
    if FetchError(a.feed).Some? then FetchError(a.feed) else a.saveFault
  }

  predicate Succeeds(a: Attempt) {
    AttemptFault(a).None?
  }

  /** The row written before the try block. */
  function Started(job: ReportJob): ReportJob {
    job.(status := Processing)
  }

  /** The row written by the `finally` block at the end of one attempt. */
  function Attempted(job: ReportJob, a: Attempt, dir: string): ReportJob {
    var j := Started(job);
    match AttemptFault(a)
    case None =>
      j.(storagePath := Some(Locator(dir, job.id)), status := Completed, completedAt := Some(a.utcNow))
    case Some(m) =>
      j.(status := Failed, failureReason := Some(FailurePrefix + m), completedAt := Some(a.utcNow))
  }

  /** One attempt ends in a terminal, well-formed row. On success the path is
      the locator and `FailureReason` is left as it was; on failure the reason
      is the prefix and the message and `StoragePath` is left as it was. The
      id, request time and rate date never change. */
  lemma AttemptedOutcome(job: ReportJob, a: Attempt, dir: string)
    ensures var done := Attempted(job, a, dir);
            && IsTerminal(done.status) && WellFormed(done)
            && done.id == job.id && done.requestedAt == job.requestedAt
            && done.exchangeRateDate == job.exchangeRateDate
            && done.completedAt == Some(a.utcNow)
            && (done.status == Completed <==> Succeeds(a))
            && (Succeeds(a) ==> done.storagePath == Some(Locator(dir, job.id))
                                && done.failureReason == job.failureReason)
            && (!Succeeds(a) ==> done.storagePath == job.storagePath
                                 && done.failureReason == Some(FailurePrefix + AttemptFault(a).value))
  {
  }

  /** Every recorded storage path is the locator of its own job. */
  ghost predicate PathsCoherent(rows: map<Guid, ReportJob>, dir: string) {
    forall id :: id in rows && rows[id].storagePath.Some? ==> rows[id].storagePath.value == Locator(dir, id)
  }

  /** The rows persisted by a run under the retry policy: two per execution
      (`Processing`, then the outcome), until an execution returns or the
      `retries` re-invocations are used up. */
  function RetryWrites(job: ReportJob, script: seq<Attempt>, retries: nat, dir: string): (w: seq<ReportJob>)
    requires retries < |script|
    ensures 2 <= |w| <= 2 * (retries + 1) && |w| % 2 == 0
    decreases retries
  {
    var done := Attempted(job, script[0], dir);
    [Started(job), done]
    + (if Succeeds(script[0]) || retries == 0 then [] else RetryWrites(done, script[1..], retries - 1, dir))
  }

  function Last(w: seq<ReportJob>): ReportJob
    requires w != []
  {
    w[|w| - 1]
  }

  /** Even positions hold `Processing` rows and odd positions terminal ones. */
  predicate Alternates(w: seq<ReportJob>) {
    forall i :: 0 <= i < |w| ==> if i % 2 == 0 then w[i].status == Processing else IsTerminal(w[i].status)
  }

  /** Writes alternate: each execution first persists `Processing`
      (re-entered on every retry) and then a terminal status. */
  lemma {:induction false} RetryWritesAlternate(job: ReportJob, script: seq<Attempt>, retries: nat, dir: string)
    requires retries < |script|
    ensures Alternates(RetryWrites(job, script, retries, dir))
    decreases retries
  {
    var w := RetryWrites(job, script, retries, dir);
    var done := Attempted(job, script[0], dir);
    AttemptedOutcome(job, script[0], dir);
    if !Succeeds(script[0]) && retries > 0 {
      var rest := RetryWrites(done, script[1..], retries - 1, dir);
      RetryWritesAlternate(done, script[1..], retries - 1, dir);
      assert w == [Started(job), done] + rest;
      forall i | 2 <= i < |w|
        ensures if i % 2 == 0 then w[i].status == Processing else IsTerminal(w[i].status)
      {
        var k := i - 2;
        assert w[i] == rest[k];
        assert k % 2 == i % 2;
      }
    }
  }

  /** The run executes until the first execution that returns, or until the
      bound: every execution but the last threw, and the last returned unless
      all `retries + 1` were used. */
  lemma {:induction false} RetryExecutions(job: ReportJob, script: seq<Attempt>, retries: nat, dir: string)
    requires retries < |script|
    ensures var n := |RetryWrites(job, script, retries, dir)| / 2;
            && 1 <= n <= retries + 1
            && (forall i :: 0 <= i < n - 1 ==> !Succeeds(script[i]))
            && (Succeeds(script[n - 1]) || n == retries + 1)
    decreases retries
  {
    if !Succeeds(script[0]) && retries > 0 {
      var done := Attempted(job, script[0], dir);
      RetryExecutions(done, script[1..], retries - 1, dir);
      var n := |RetryWrites(job, script, retries, dir)| / 2;
      assert n == |RetryWrites(done, script[1..], retries - 1, dir)| / 2 + 1;
      forall i | 0 <= i < n - 1 ensures !Succeeds(script[i]) {
        if i > 0 {
          assert script[i] == script[1..][i - 1];
        }
      }
      assert script[n - 1] == script[1..][n - 2];
    }
  }

  /** The final row of a run: terminal and well formed; `Completed` exactly
      when some execution within the bound succeeds, and then with the
      job's own locator; a run that ends `Failed` leaves `StoragePath` as
      it was. The fixed fields never change. */
  lemma {:induction false} RetryFinal(job: ReportJob, script: seq<Attempt>, retries: nat, dir: string)
    requires retries < |script|
    ensures var f := Last(RetryWrites(job, script, retries, dir));
            && IsTerminal(f.status) && WellFormed(f)
            && f.id == job.id && f.requestedAt == job.requestedAt
            && f.exchangeRateDate == job.exchangeRateDate
            && (f.status == Completed <==> exists i :: 0 <= i <= retries && Succeeds(script[i]))
            && (f.status == Completed ==> f.storagePath == Some(Locator(dir, job.id)))
            && (f.status == Failed ==> f.storagePath == job.storagePath)
    decreases retries
  {
    var w := RetryWrites(job, script, retries, dir);
    var done := Attempted(job, script[0], dir);
    AttemptedOutcome(job, script[0], dir);
    if !Succeeds(script[0]) && retries > 0 {
      var rest := RetryWrites(done, script[1..], retries - 1, dir);
      RetryFinal(done, script[1..], retries - 1, dir);
      assert Last(w) == Last(rest);
      if exists i :: 0 <= i <= retries && Succeeds(script[i]) {
        var i :| 0 <= i <= retries && Succeeds(script[i]);
        assert i > 0 && script[1..][i - 1] == script[i];
      }
      if Last(rest).status == Completed {
        var i :| 0 <= i <= retries - 1 && Succeeds(script[1..][i]);
        assert Succeeds(script[i + 1]);
      }
    } else {
      assert Last(w) == done;
    }
  }

  /** A later success does not clear an earlier failure: the final
      `FailureReason` is set exactly when the job had one or the first
      execution threw, and after a success that followed a failure it is the
      reason the last failed execution recorded. */
  lemma {:induction false} RetryKeepsFailureReason(job: ReportJob, script: seq<Attempt>, retries: nat, dir: string)
    requires retries < |script|
    ensures var w := RetryWrites(job, script, retries, dir);
            var f := Last(w);
            var n := |w| / 2;
            && (f.failureReason.Some? <==> job.failureReason.Some? || !Succeeds(script[0]))
            && (n >= 2 && f.status == Completed ==>
                  && AttemptFault(script[n - 2]).Some?
                  && f.failureReason == Some(FailurePrefix + AttemptFault(script[n - 2]).value))
    decreases retries
  {
    var w := RetryWrites(job, script, retries, dir);
    var done := Attempted(job, script[0], dir);
    AttemptedOutcome(job, script[0], dir);
    if !Succeeds(script[0]) && retries > 0 {
      var rest := RetryWrites(done, script[1..], retries - 1, dir);
      RetryKeepsFailureReason(done, script[1..], retries - 1, dir);
      assert Last(w) == Last(rest);
      var n := |w| / 2;
      assert n == |rest| / 2 + 1;
      if n >= 3 {
        assert script[n - 2] == script[1..][n - 3];
      } else if n == 2 {
        AttemptedOutcome(done, script[1], dir);
        assert rest == [Started(done), Attempted(done, script[1..][0], dir)];
      }
    } else {
      assert Last(w) == done;
    }
  }

  /** "Fail, fail, succeed" under the policy's three retries: three
      executions; the second re-enters `Processing` with the first failure's
      reason and completion time still set; the job ends `Completed` at its
      locator, still carrying the second failure's reason. */
  lemma FailFailSucceed(job: ReportJob, a1: Attempt, a2: Attempt, a3: Attempt, a4: Attempt, dir: string)
    requires !Succeeds(a1) && !Succeeds(a2) && Succeeds(a3)
    ensures var w := RetryWrites(job, [a1, a2, a3, a4], AutomaticRetryAttempts, dir);
            && |w| == 6
            && w[2].status == Processing
            && w[2].failureReason == Some(FailurePrefix + AttemptFault(a1).value)
            && w[2].completedAt == Some(a1.utcNow)
            && Last(w).status == Completed
            && Last(w).storagePath == Some(Locator(dir, job.id))
            && Last(w).failureReason == Some(FailurePrefix + AttemptFault(a2).value)
            && Last(w).completedAt == Some(a3.utcNow)
  {
  }

  /** Every execution fails: four executions, and the job ends `Failed` with
      the last message and the `StoragePath` it had before. */
  lemma AllAttemptsFail(job: ReportJob, a1: Attempt, a2: Attempt, a3: Attempt, a4: Attempt, dir: string)
    requires !Succeeds(a1) && !Succeeds(a2) && !Succeeds(a3) && !Succeeds(a4)
    ensures var w := RetryWrites(job, [a1, a2, a3, a4], AutomaticRetryAttempts, dir);
            && |w| == 8
            && Last(w).status == Failed
            && Last(w).failureReason == Some(FailurePrefix + AttemptFault(a4).value)
            && Last(w).storagePath == job.storagePath
  {
  }

  /** What an execution can change: the job table, the log of persisted
      rows and the report files. */
  datatype WorkerState = WorkerState(
    rows: map<Guid, ReportJob>,
    writes: seq<ReportJob>,
    files: map<string, seq<byte>>)

  /** One execution of `ExecuteAsync` for job `id`, as a function of the state
      before it: the state after it and how it ended. */
  function ExecuteStep(s: WorkerState, id: Guid, a: Attempt, dir: string): (WorkerState, ExecResult) {
    if id !in s.rows then (s, Returned)
    else
      var job := s.rows[id];
      var done := Attempted(job, a, dir);
      var files := if Succeeds(a) then s.files[Locator(dir, id) := GeneratePdfBytes([])] else s.files;
      (WorkerState(s.rows[id := done], s.writes + [Started(job), done], files),
       if Succeeds(a) then Returned else Threw(AttemptFault(a).value))
  }

  /** An execution touches nothing for an unknown id. Otherwise it changes
      only that job's row, persists exactly two rows (first `Processing`,
      then the terminal outcome), writes the report file only on success
      and only at the job's locator, and throws exactly when it fails. */
  lemma ExecuteStepEffect(s: WorkerState, id: Guid, a: Attempt, dir: string)
    ensures var (s', r) := ExecuteStep(s, id, a, dir);
            && (id !in s.rows ==> s' == s && r == Returned)
            && (id in s.rows ==>
                  && s'.rows.Keys == s.rows.Keys
                  && (forall other :: other in s.rows && other != id ==> s'.rows[other] == s.rows[other])
                  && |s'.writes| == |s.writes| + 2 && s'.writes[..|s.writes|] == s.writes
                  && s'.writes[|s.writes|].status == Processing
                  && s'.writes[|s.writes| + 1] == s'.rows[id]
                  && IsTerminal(s'.rows[id].status)
                  && (r.Threw? <==> s'.rows[id].status == Failed)
                  && (forall p :: p != Locator(dir, id) ==>
                        (p in s'.files <==> p in s.files) && (p in s.files ==> s'.files[p] == s.files[p]))
                  && (r.Threw? ==> s'.files == s.files))
  {
  }

  /** A run under the retry policy for job `id`: the final state, the number
      of executions and how the last one ended. */
  function RetryRun(s: WorkerState, id: Guid, script: seq<Attempt>, retries: nat, dir: string): (WorkerState, nat, ExecResult)
    requires retries < |script|
    decreases retries
  {
    var (s1, r) := ExecuteStep(s, id, script[0], dir);
    if r.Returned? || retries == 0 then (s1, 1, r)
    else
      var (s2, n, r2) := RetryRun(s1, id, script[1..], retries - 1, dir);
      (s2, n + 1, r2)
  }

  /** What a run does to the state: for an unknown id one execution and no
      change; for a known one the row ends as the last of `RetryWrites`, all
      of those rows are persisted in order, and the report file is written
      exactly when the job ends `Completed`. */
  lemma {:induction false} RetryRunEffect(s: WorkerState, id: Guid, script: seq<Attempt>, retries: nat, dir: string)
    requires retries < |script|
    ensures var (sf, n, r) := RetryRun(s, id, script, retries, dir);
            && (id !in s.rows ==> sf == s && n == 1 && r == Returned)
            && (id in s.rows ==>
                  var w := RetryWrites(s.rows[id], script, retries, dir);
                  && sf.rows == s.rows[id := Last(w)]
                  && sf.writes == s.writes + w
                  && n == |w| / 2
                  && (r == Returned <==> Last(w).status == Completed)
                  && (r.Threw? ==> Last(w).failureReason == Some(FailurePrefix + r.message))
                  && sf.files == (if Last(w).status == Completed
                                  then s.files[Locator(dir, id) := GeneratePdfBytes([])]
                                  else s.files))
    decreases retries
  {
    if id in s.rows {
      var job := s.rows[id];
      var done := Attempted(job, script[0], dir);
      AttemptedOutcome(job, script[0], dir);
      var (s1, r) := ExecuteStep(s, id, script[0], dir);
      if !(r.Returned? || retries == 0) {
        RetryRunEffect(s1, id, script[1..], retries - 1, dir);
        var w := RetryWrites(job, script, retries, dir);
        var rest := RetryWrites(done, script[1..], retries - 1, dir);
        assert w == [Started(job), done] + rest;
        assert Last(w) == Last(rest);
        assert s1.rows[id := Last(rest)] == s.rows[id := Last(w)];
      }
    }
  }

  /** Where a run stands after execution `i` (counting re-invocations from
      0), which was the `n`-th and ended in `r`: the outcome of the run from
      here on. */
  function Resume(s: WorkerState, n: nat, r: ExecResult, id: Guid, script: seq<Attempt>, retries: nat, i: nat, dir: string)
    : (WorkerState, nat, ExecResult)
    requires i <= retries < |script|
  {
    if r.Returned? || i == retries then (s, n, r)
    else
      var (sf, m, rf) := RetryRun(s, id, script[i + 1..], retries - i - 1, dir);
      (sf, n + m, rf)
  }

  lemma ResumeStart(s: WorkerState, id: Guid, script: seq<Attempt>, retries: nat, dir: string)
    requires retries < |script|
    ensures var (s1, r) := ExecuteStep(s, id, script[0], dir);
            Resume(s1, 1, r, id, script, retries, 0, dir) == RetryRun(s, id, script, retries, dir)
  {
  }

  /** One re-invocation after an exception. */
  lemma ResumeStep(s: WorkerState, n: nat, id: Guid, script: seq<Attempt>, retries: nat, i: nat, dir: string, message: string)
    requires i < retries < |script|
    ensures var (s1, r) := ExecuteStep(s, id, script[i + 1], dir);
            Resume(s, n, Threw(message), id, script, retries, i, dir) == Resume(s1, n + 1, r, id, script, retries, i + 1, dir)
  {
  }

  class PdfReportGenerator {
    const tcmbClient: CentralBankClient
    const storageStrategy: LocalFileStorageStrategy
    const dbContext: AppDbContext

    constructor (tcmbClient: CentralBankClient, storageStrategy: LocalFileStorageStrategy, dbContext: AppDbContext)
      ensures this.tcmbClient == tcmbClient
      ensures this.storageStrategy == storageStrategy && this.dbContext == dbContext
    {
      this.tcmbClient := tcmbClient;
      this.storageStrategy := storageStrategy;
      this.dbContext := dbContext;
    }

    ghost function State(): WorkerState
      reads dbContext, storageStrategy
    {
      WorkerState(dbContext.reportJobs, dbContext.writes, storageStrategy.files)
    }

    /** `ExecuteAsync`. An unknown id returns with nothing written. Otherwise
        `Processing` is persisted, the rates are fetched, the report rendered
        and saved; the outcome (success, or failure with the message) is
        persisted by the `finally` block, and a failure is rethrown. */
    method Execute(reportJobId: Guid, attempt: Attempt) returns (r: ExecResult)
      requires dbContext.Valid()
      modifies dbContext, storageStrategy
      ensures dbContext.Valid()
      ensures (State(), r) == ExecuteStep(old(State()), reportJobId, attempt, storageStrategy.storageDirectory)
      ensures PathsCoherent(old(dbContext.reportJobs), storageStrategy.storageDirectory) ==>
                PathsCoherent(dbContext.reportJobs, storageStrategy.storageDirectory)
    {
      var found := dbContext.Find(reportJobId);
      if found.None? {
        return Returned;
      }
      var job := found.value;

      job := job.(status := Processing);
      dbContext.SaveChanges(job);

      // try
      var fault: Option<string> := None;
      var rates := GetTodayExchangeRates(tcmbClient, attempt.feed);
      if rates.Failure? {
        fault := Some(rates.error);
      } else {
        var pdfContent := GeneratePdfBytes(rates.value);
        var storagePath := storageStrategy.SaveReport(job.id, pdfContent, attempt.saveFault);
        if storagePath.Failure? {
          fault := Some(storagePath.error);
        } else {
          job := job.(storagePath := Some(storagePath.value));
          job := job.(status := Completed);
          job := job.(completedAt := Some(attempt.utcNow));
        }
      }
      // catch
      if fault.Some? {
        job := job.(status := Failed);
        job := job.(failureReason := Some(FailurePrefix + fault.value));
        job := job.(completedAt := Some(attempt.utcNow));
        r := Threw(fault.value);
      } else {
        r := Returned;
      }
      // finally
      dbContext.SaveChanges(job);
      ghost var step := ExecuteStep(old(State()), reportJobId, attempt, storageStrategy.storageDirectory);
      assert job == Attempted(found.value, attempt, storageStrategy.storageDirectory);
      assert dbContext.reportJobs == step.0.rows;
      assert dbContext.writes == step.0.writes;
      assert storageStrategy.files == step.0.files;
      assert r == step.1;
    }

    /** The automatic retry policy: `Execute` is invoked once and re-invoked
        after each exception, at most `retries` more times. `script` supplies
        each execution's outside outcomes. */
    method RunWithRetries(reportJobId: Guid, script: seq<Attempt>, retries: nat)
      returns (executions: nat, last: ExecResult)
      requires retries < |script|
      requires dbContext.Valid()
      modifies dbContext, storageStrategy
      ensures dbContext.Valid()
      ensures (State(), executions, last)
           == RetryRun(old(State()), reportJobId, script, retries, storageStrategy.storageDirectory)
    {
      var dir := storageStrategy.storageDirectory;
      ghost var s0 := State();
      var i := 0;
      last := Execute(reportJobId, script[0]);
      executions := 1;
      ResumeStart(s0, reportJobId, script, retries, dir);
      while last.Threw? && i < retries
        invariant 0 <= i <= retries && executions == i + 1
        invariant dbContext.Valid()
        invariant Resume(State(), executions, last, reportJobId, script, retries, i, dir)
               == RetryRun(s0, reportJobId, script, retries, dir)
      {
        ResumeStep(State(), executions, reportJobId, script, retries, i, dir, last.message);
        i := i + 1;
        last := Execute(reportJobId, script[i]);
        executions := executions + 1;
      }
    }
  }
}

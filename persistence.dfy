/** The `ReportJobs` table of `AppDbContext`, as an in-memory map from id to
    row. Each `SaveChangesAsync` becomes one `SaveChanges` call that writes
    the tracked row; the ghost `writes` records every row written, in order. */
module Persistence {
  import opened Wrappers
  import opened SystemTypes
  import opened ReportJobs

  class AppDbContext {
    var reportJobs: map<Guid, ReportJob>
    ghost var writes: seq<ReportJob>

    /** Rows are keyed by their own id and are well formed. */
    ghost predicate Valid()
      reads this
    {
      forall id :: id in reportJobs ==> reportJobs[id].id == id && WellFormed(reportJobs[id])
    }

    constructor ()
      ensures Valid()
      ensures reportJobs == map[] && writes == []
    {
      reportJobs := map[];
      writes := [];
    }

    /** `ReportJobs.FirstOrDefaultAsync(j => j.Id == id)`. */
    function Find(id: Guid): (r: Option<ReportJob>)
      reads this
      ensures r.Some? <==> id in reportJobs
      ensures r.Some? ==> r.value == reportJobs[id]
    {
      if id in reportJobs then Some(reportJobs[id]) else None
    }

    /** `SaveChangesAsync` for one tracked (or newly added) row. */
    method SaveChanges(job: ReportJob)
      requires Valid() && WellFormed(job)
      modifies this
      ensures Valid()
      ensures reportJobs == old(reportJobs)[job.id := job]
      ensures writes == old(writes) + [job]
    {
      reportJobs := reportJobs[job.id := job];
      writes := writes + [job];
    }
  }
}

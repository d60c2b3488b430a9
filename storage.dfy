/** The local file-system artifact store (LocalFileStorageStrategy.cs): the
    report directory is a map from full path to file content. */
module Storages {
  import opened Wrappers
  import opened SystemTypes

  const ReportsFolderName := "LocalReports"

  const FileNotFoundMessage := "Yerel diskte rapor dosyası bulunamadı."

  /** The `FileNotFoundException` thrown by `GetReportStreamAsync`. */
  datatype FileNotFound = FileNotFound(message: string, fileName: string)

  /** `Path.Combine(dir, name)`, for a `dir` that does not end in a separator. */
  function Combine(dir: string, name: string): string {
    dir + "/" + name
  }

  /** `$"{referenceId}.pdf"`. */
  function ReportFileName(referenceId: Guid): (name: string)
    ensures |name| == 40
  {
    GuidText(referenceId) + ".pdf"
  }

  /** The path `SaveReportAsync` writes for a job id. */
  function Locator(dir: string, referenceId: Guid): (path: string)
    ensures |path| == |dir| + 41
  {
    Combine(dir, ReportFileName(referenceId))
  }

  /** The job id a locator under `dir` names. */
  function LocatorId(dir: string, path: string): string
    requires |path| == |dir| + 41
  {
    GuidDigits(path[|dir| + 1..|dir| + 37])
  }

  lemma LocatorRoundTrip(dir: string, referenceId: Guid)
    ensures LocatorId(dir, Locator(dir, referenceId)) == referenceId
  {
    var path := Locator(dir, referenceId);
    assert path[|dir| + 1..|dir| + 37] == GuidText(referenceId);
    GuidTextRoundTrip(referenceId);
  }

  /** Two jobs never share a file: the locator determines the id. */
  lemma LocatorInjective(dir: string, a: Guid, b: Guid)
    requires Locator(dir, a) == Locator(dir, b)
    ensures a == b
  {
    LocatorRoundTrip(dir, a);
    LocatorRoundTrip(dir, b);
  }

  class LocalFileStorageStrategy {
    const storageDirectory: string
    var files: map<string, seq<byte>>

    /** `Path.Combine(environment.ContentRootPath, "LocalReports")`; the
        files already on disk are given. */
    constructor (contentRootPath: string, existing: map<string, seq<byte>>)
      ensures storageDirectory == Combine(contentRootPath, ReportsFolderName)
      ensures files == existing
    {
      storageDirectory := Combine(contentRootPath, ReportsFolderName);
      files := existing;
    }

    /** `SaveReportAsync`: writes the bytes at the job's locator and returns
        it. `ioFault` is the message of an exception `File.WriteAllBytesAsync`
        may throw, in which case nothing is written. */
    method SaveReport(referenceId: Guid, fileContent: seq<byte>, ioFault: Option<string>)
      returns (r: Result<string, string>)
      modifies this
      ensures ioFault.None? ==> r == Success(Locator(storageDirectory, referenceId))
      ensures ioFault.None? ==> files == old(files)[r.value := fileContent]
      ensures ioFault.None? ==> GetReportStream(r.value) == Success(fileContent)
      ensures ioFault.Some? ==> r == Failure(ioFault.value) && files == old(files)
      ensures forall p :: p != Locator(storageDirectory, referenceId) ==>
                GetReportStream(p) == old(GetReportStream(p))
    {
      var fileName := ReportFileName(referenceId);
      var fullPath := Combine(storageDirectory, fileName);
      if ioFault.Some? {
        return Failure(ioFault.value);
      }
      files := files[fullPath := fileContent];
      r := Success(fullPath);
    }

    /** `GetReportStreamAsync`: the content at the path, or the distinct
        not-found error when no file is there. */
    function GetReportStream(storagePath: string): (r: Result<seq<byte>, FileNotFound>)
      reads this
      ensures r.Success? <==> storagePath in files
      ensures r.Success? ==> r.value == files[storagePath]
      ensures r.Failure? ==> r.error == FileNotFound(FileNotFoundMessage, storagePath)
    {
      if storagePath !in files then Failure(FileNotFound(FileNotFoundMessage, storagePath))
      else Success(files[storagePath])
    }

    /** `DeleteReportAsync`: removes the file if it exists, else does nothing. */
    method DeleteReport(storagePath: string)
      modifies this
      ensures files == old(files) - {storagePath}
      ensures GetReportStream(storagePath).Failure?
      ensures forall p :: p != storagePath ==> GetReportStream(p) == old(GetReportStream(p))
    {
      if storagePath in files {
        files := files - {storagePath};
      }
    }
  }

  /** Deleting twice leaves the store as deleting once does. */
  method DeleteTwice(store: LocalFileStorageStrategy, storagePath: string)
    modifies store
    ensures store.files == old(store.files) - {storagePath}
  {
    store.DeleteReport(storagePath);
    store.DeleteReport(storagePath);
  }

  /** Saving twice under one id returns the same locator, and the second
      content is what the store then holds. */
  method SaveTwice(store: LocalFileStorageStrategy, referenceId: Guid, first: seq<byte>, second: seq<byte>)
    returns (p1: Result<string, string>, p2: Result<string, string>)
    modifies store
    ensures p1 == p2 == Success(Locator(store.storageDirectory, referenceId))
    ensures store.GetReportStream(p2.value) == Success(second)
  {
    p1 := store.SaveReport(referenceId, first, None);
    p2 := store.SaveReport(referenceId, second, None);
  }
}

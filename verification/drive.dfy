/** The remote-file rules of `utils/helpers.py` and `utils/doc_helpers.py`.

Every HTTP request becomes a `Reply` the caller supplies (a status code,
or a transport failure raised by `requests`), and every operation returns
the requests it sent in order together with its result, so that "no
upload happened" is a statement about that list. A raised exception is an
`Err` naming the request that failed.
 */
module Drive {
  import opened Wrappers
  import Folders

  datatype Reply = Code(status: int) | NetworkError

  predicate Is(r: Reply, status: int) {
    r.Code? && r.status == status
  }

  /** `status_code in [200, 201]`. */
  predicate OkOrCreated(r: Reply) {
    Is(r, 200) || Is(r, 201)
  }

  /** Statuses `raise_for_status` raises for (4xx and 5xx), and transport failures. */
  predicate RaisesForStatus(r: Reply) {
    r.NetworkError? || 400 <= r.status < 600
  }

  datatype Call =
    | Probe(path: string)                          // GET the item's metadata
    | Download(path: string)                       // GET the item's content
    | Upload(path: string)                         // PUT the item's content
    | CreateFolder(parent: string, name: string)   // POST a folder under `parent`
    | ExportPdf(path: string)                      // GET the item's content as PDF

  /** A call that changes the drive. */
  predicate Writes(c: Call) {
    c.Upload? || c.CreateFolder?
  }

  datatype Failure =
    | Refused(call: Call, reply: Reply)   // the request failed or got a status the caller rejects
    | Undecodable(path: string)           // the body was not JSON

  datatype Step<T> = Step(result: Result<T, Failure>, calls: seq<Call>)

  datatype FolderAction = AlreadyThere | Created

  /** `ensure_folder_exists`: 200 leaves the folder alone, 404 creates it
  under its parent, anything else raises. */
  function EnsureFolder(path: string, probe: Reply, create: Reply): (s: Step<FolderAction>)
    ensures s.result == Ok(AlreadyThere) <==> Is(probe, 200)
    ensures s.result == Ok(Created) <==> Is(probe, 404) && !RaisesForStatus(create)
    ensures !Is(probe, 404) ==> s.calls == [Probe(path)]
    ensures Is(probe, 404) ==> |s.calls| == 2 && s.calls[0] == Probe(path) && s.calls[1].CreateFolder?
    ensures Is(probe, 404) ==> '/' !in s.calls[1].name
    ensures Is(probe, 404) && '/' in path ==> s.calls[1].parent + "/" + s.calls[1].name == path
  {
    if Is(probe, 404) then
      var (parent, name) := Folders.SplitFolder(path);
      var calls := [Probe(path), CreateFolder(parent, name)];
      if RaisesForStatus(create) then Step(Err(Refused(CreateFolder(parent, name), create)), calls)
      else Step(Ok(Created), calls)
    else if Is(probe, 200) then Step(Ok(AlreadyThere), [Probe(path)])
    else Step(Err(Refused(Probe(path), probe)), [Probe(path)])
  }

  datatype CopyAction = Skipped | Copied

  function FilePath(folder: string, name: string): string
  {
    folder + "/" + name
  }

  /** `copy_file_between_folders`: probe the target; 200 skips, 404 copies
  by downloading from the source and uploading to the target, anything
  else raises. */
  function CopyFile(name: string, source: string, target: string, probe: Reply, download: Reply, upload: Reply): (s: Step<CopyAction>)
    ensures s.result == Ok(Skipped) <==> Is(probe, 200)
    ensures s.result == Ok(Copied) <==> Is(probe, 404) && Is(download, 200) && OkOrCreated(upload)
    ensures |s.calls| >= 1 && s.calls[0] == Probe(FilePath(target, name))
    ensures !Is(probe, 404) ==> |s.calls| == 1
    ensures forall k :: 0 <= k < |s.calls| && s.calls[k].Download? ==> s.calls[k].path == FilePath(source, name)
    ensures forall k :: 0 <= k < |s.calls| && Writes(s.calls[k]) ==> s.calls[k] == Upload(FilePath(target, name))
  {
    var probeCall := Probe(FilePath(target, name));
    var downloadCall := Download(FilePath(source, name));
    var uploadCall := Upload(FilePath(target, name));
    if Is(probe, 200) then Step(Ok(Skipped), [probeCall])
    else if !Is(probe, 404) then Step(Err(Refused(probeCall, probe)), [probeCall])
    else if !Is(download, 200) then Step(Err(Refused(downloadCall, download)), [probeCall, downloadCall])
    else if !OkOrCreated(upload) then Step(Err(Refused(uploadCall, upload)), [probeCall, downloadCall, uploadCall])
    else Step(Ok(Copied), [probeCall, downloadCall, uploadCall])
  }

  /** A file already at the target is left as it is: nothing is downloaded
  or written, whatever the later replies would have been. */
  lemma {:induction false} SkipLeavesTargetUnchanged(name: string, source: string, target: string, probe: Reply, d1: Reply, u1: Reply, d2: Reply, u2: Reply)
    requires Is(probe, 200)
    ensures CopyFile(name, source, target, probe, d1, u1) == CopyFile(name, source, target, probe, d2, u2)
    ensures forall c :: c in CopyFile(name, source, target, probe, d1, u1).calls ==> !Writes(c) && !c.Download?
  {
    assert CopyFile(name, source, target, probe, d1, u1).calls == [Probe(FilePath(target, name))];
  }

  /** A copy writes the target only after a 404 probe and a 200 download. */
  lemma UploadOnlyAfterDownload(name: string, source: string, target: string, probe: Reply, download: Reply, upload: Reply)
    requires exists k :: 0 <= k < |CopyFile(name, source, target, probe, download, upload).calls|
                        && Writes(CopyFile(name, source, target, probe, download, upload).calls[k])
    ensures Is(probe, 404) && Is(download, 200)
  {
  }

  /** `load_json_from_onedrive`: only 200 is accepted, and the body must decode. */
  function LoadJson<T>(path: string, reply: Reply, decoded: Option<T>): (r: Result<T, Failure>)
    ensures r.Ok? <==> Is(reply, 200) && decoded.Some?
    ensures r.Ok? ==> r.value == decoded.value
    ensures !Is(reply, 200) ==> r == Err(Refused(Download(path), reply))
  {
    if !Is(reply, 200) then Err(Refused(Download(path), reply))
    else if decoded.None? then Err(Undecodable(path))
    else Ok(decoded.value)
  }

  /** `upload_json_to_onedrive` and `upload_docx_to_onedrive`: 200 or 201 is accepted. */
  function UploadFile(path: string, reply: Reply): (r: Result<(), Failure>)
    ensures r.Ok? <==> OkOrCreated(reply)
    ensures r.Err? ==> r.error == Refused(Upload(path), reply)
  {
    if OkOrCreated(reply) then Ok(()) else Err(Refused(Upload(path), reply))
  }

  /** `load_docx_from_onedrive`: only 200 is accepted. */
  function LoadDocx(path: string, reply: Reply): (r: Result<(), Failure>)
    ensures r.Ok? <==> Is(reply, 200)
    ensures r.Err? ==> r.error == Refused(Download(path), reply)
  {
    if Is(reply, 200) then Ok(()) else Err(Refused(Download(path), reply))
  }

  /** `download_docx_as_pdf`: export the document as PDF (200 only), then
  upload the PDF (200 or 201); no upload after a failed export. */
  function DocxAsPdf(source: string, target: string, conversion: Reply, upload: Reply): (s: Step<()>)
    ensures s.result.Ok? <==> Is(conversion, 200) && OkOrCreated(upload)
    ensures |s.calls| >= 1 && s.calls[0] == ExportPdf(source)
    ensures !Is(conversion, 200) ==> s.calls == [ExportPdf(source)]
    ensures Is(conversion, 200) ==> s.calls == [ExportPdf(source), Upload(target)]
  {
    if !Is(conversion, 200) then Step(Err(Refused(ExportPdf(source), conversion)), [ExportPdf(source)])
    else if !OkOrCreated(upload) then Step(Err(Refused(Upload(target), upload)), [ExportPdf(source), Upload(target)])
    else Step(Ok(()), [ExportPdf(source), Upload(target)])
  }
}

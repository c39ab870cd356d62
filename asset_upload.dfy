/** The two batch uploads that put a job's input assets on the ComfyUI server before the
    workflow runs (`upload_images` and `upload_files_from_url`, src/rp_handler.py). Every
    item is attempted; the failures are collected, and the batch is an error when any item
    failed. The server's and the downloads' answers are oracles: item i gets `attempt(i)`. */
module AssetUpload {
  import opened Py
  import opened Job

  datatype UploadStatus = Success | Error

  /** The `{"status", "message", "details"}` dict both uploads return. */
  datatype UploadReport = UploadReport(status: UploadStatus, message: string, details: seq<string>)

  /** What became of one item: it was uploaded, it failed with a message that is collected,
      or an exception escaped the loop. */
  datatype ItemResult = Uploaded(message: string) | Failed(message: string) | Aborted(reason: string)

  /** The messages of the failed items, in item order. */
  function Errors(rs: seq<ItemResult>): seq<string> {
    if rs == [] then []
    else Errors(rs[..|rs| - 1]) + (if rs[|rs| - 1].Failed? then [rs[|rs| - 1].message] else [])
  }

  /** The messages of the uploaded items, in item order. */
  function Successes(rs: seq<ItemResult>): seq<string> {
    if rs == [] then []
    else Successes(rs[..|rs| - 1]) + (if rs[|rs| - 1].Uploaded? then [rs[|rs| - 1].message] else [])
  }

  /** The reason of the first item whose exception escaped, if any. */
  function Abort(rs: seq<ItemResult>): Option<string> {
    if rs == [] then None
    else if Abort(rs[..|rs| - 1]).Some? then Abort(rs[..|rs| - 1])
    else if rs[|rs| - 1].Aborted? then Some(rs[|rs| - 1].reason)
    else None
  }

  /** The report of a non-empty batch whose items ended as `rs`: the first escaping exception
      wins; otherwise any failure makes the batch an error whose details are the failure
      messages alone, and a batch without failures lists the success messages. */
  function Aggregate(rs: seq<ItemResult>, failedMessage: string, doneMessage: string): Outcome<UploadReport> {
    match Abort(rs)
    case Some(e) => Raised(e)
    case None =>
      if Errors(rs) != [] then Returned(UploadReport(Error, failedMessage, Errors(rs)))
      else Returned(UploadReport(Success, doneMessage, Successes(rs)))
  }

  /** An exception escapes exactly when some item aborts, and it is the first such item's. */
  lemma {:induction false} AbortIsFirst(rs: seq<ItemResult>)
    ensures Abort(rs).Some? <==> exists k :: 0 <= k < |rs| && rs[k].Aborted?
    ensures Abort(rs).Some? ==> exists k :: (0 <= k < |rs| && rs[k].Aborted? && Abort(rs) == Some(rs[k].reason)
      && forall i :: 0 <= i < k ==> !rs[i].Aborted?)
  {
    if rs != [] {
      var p := rs[..|rs| - 1];
      AbortIsFirst(p);
      assert forall i :: 0 <= i < |p| ==> p[i] == rs[i];
    }
  }

  /** The error list is empty exactly when no item failed, and it names every failed item. */
  lemma {:induction false} ErrorsExactly(rs: seq<ItemResult>)
    ensures Errors(rs) == [] <==> forall i :: 0 <= i < |rs| ==> !rs[i].Failed?
    ensures forall i :: 0 <= i < |rs| && rs[i].Failed? ==> rs[i].message in Errors(rs)
    ensures forall e :: e in Errors(rs) ==> exists i :: 0 <= i < |rs| && rs[i].Failed? && rs[i].message == e
  {
    if rs != [] {
      var p := rs[..|rs| - 1];
      ErrorsExactly(p);
      assert forall i :: 0 <= i < |p| ==> p[i] == rs[i];
    }
  }

  /** Every item ends in exactly one of the three ways, so failures, successes and aborts
      together account for the whole batch. */
  lemma {:induction false} ResultsPartition(rs: seq<ItemResult>)
    ensures |Errors(rs)| + |Successes(rs)| <= |rs|
    ensures Abort(rs).None? ==> |Errors(rs)| + |Successes(rs)| == |rs|
  {
    if rs != [] {
      ResultsPartition(rs[..|rs| - 1]);
    }
  }

  /** When every item was uploaded, the details hold one message per item, in item order. */
  lemma {:induction false} AllUploaded(rs: seq<ItemResult>)
    requires forall i :: 0 <= i < |rs| ==> rs[i].Uploaded?
    ensures |Successes(rs)| == |rs|
    ensures forall i :: 0 <= i < |rs| ==> Successes(rs)[i] == rs[i].message
  {
    if rs != [] {
      var p := rs[..|rs| - 1];
      assert forall i :: 0 <= i < |p| ==> p[i] == rs[i];
      AllUploaded(p);
    }
  }

  /** The report's status is "error" exactly when some item failed and none aborted. */
  lemma AggregateStatus(rs: seq<ItemResult>, failedMessage: string, doneMessage: string)
    requires forall i :: 0 <= i < |rs| ==> !rs[i].Aborted?
    ensures Aggregate(rs, failedMessage, doneMessage).Returned?
    ensures Aggregate(rs, failedMessage, doneMessage).value.status == Error
      <==> exists i :: 0 <= i < |rs| && rs[i].Failed?
  {
    AbortIsFirst(rs);
    ErrorsExactly(rs);
  }

  /** One image as the server answered its upload, or the exception that escapes: neither
      the base64 decoding nor the POST is inside a `try`. */
  datatype ImageAttempt = Thrown(reason: string) | Posted(status: nat, text: string)

  /** How one inline image ends: a decoding or request error escapes, a 200 uploads it, any other
      status fails it with the server's text. */
  function ImageItem(name: string, a: ImageAttempt): (r: ItemResult)
    ensures r.Aborted? <==> a.Thrown?
    ensures r.Uploaded? <==> a.Posted? && a.status == 200
    ensures r.Uploaded? ==> r.message == "Successfully uploaded " + name
    ensures r.Failed? ==> r.message == "Error uploading " + name + ": " + a.text
  {
    match a
    case Thrown(e) => Aborted(e)
    case Posted(status, text) =>
      if status != 200 then Failed("Error uploading " + name + ": " + text)
      else Uploaded("Successfully uploaded " + name)
  }

  function ImageResults(images: seq<ComfyImageInput>, attempt: nat -> ImageAttempt): (rs: seq<ItemResult>)
    ensures |rs| == |images|
    ensures forall i :: 0 <= i < |images| ==> rs[i] == ImageItem(images[i].name, attempt(i))
  {
    seq(|images|, i requires 0 <= i < |images| => ImageItem(images[i].name, attempt(i)))
  }

  /** What uploading the images gives: nothing to report for no images, and otherwise the
      aggregate of the images' results. */
  function ImagesOutcome(images: Option<seq<ComfyImageInput>>, attempt: nat -> ImageAttempt): Outcome<UploadReport> {
    if images.None? || images.value == [] then Returned(UploadReport(Success, "No images to upload", []))
    else Aggregate(ImageResults(images.value, attempt), "Some images failed to upload", "All images uploaded successfully")
  }

  /** `upload_images`: no images is a success with nothing to report; otherwise every image
      is decoded and posted in order, and the report is the aggregate of their results. */
  method UploadImages(images: Option<seq<ComfyImageInput>>, attempt: nat -> ImageAttempt)
    returns (r: Outcome<UploadReport>)
    ensures images.None? || images.value == [] ==>
      r == Returned(UploadReport(Success, "No images to upload", []))
    ensures r == ImagesOutcome(images, attempt)
  {
    if images.None? || images.value == [] {
      return Returned(UploadReport(Success, "No images to upload", []));
    }
    var imgs := images.value;
    ghost var rs := ImageResults(imgs, attempt);
    var responses: seq<string> := [];
    var uploadErrors: seq<string> := [];
    for i := 0 to |imgs|
      invariant responses == Successes(rs[..i]) && uploadErrors == Errors(rs[..i])
      invariant Abort(rs[..i]).None?
    {
      assert rs[..i + 1][..i] == rs[..i];
      var name := imgs[i].name;
      match attempt(i)
      case Thrown(e) =>
        AbortPrefix(rs, i + 1);
        return Raised(e);
      case Posted(status, text) =>
        if status != 200 {
          uploadErrors := uploadErrors + ["Error uploading " + name + ": " + text];
        } else {
          responses := responses + ["Successfully uploaded " + name];
        }
    }
    assert rs[..|imgs|] == rs;
    if uploadErrors != [] {
      return Returned(UploadReport(Error, "Some images failed to upload", uploadErrors));
    }
    return Returned(UploadReport(Success, "All images uploaded successfully", responses));
  }

  /** Once some prefix has aborted, the whole batch reports that same exception. */
  lemma {:induction false} AbortPrefix(rs: seq<ItemResult>, n: nat)
    requires n <= |rs| && Abort(rs[..n]).Some?
    ensures Abort(rs) == Abort(rs[..n])
    decreases |rs| - n
  {
    if n < |rs| {
      assert rs[..n + 1][..n] == rs[..n];
      AbortPrefix(rs, n + 1);
    } else {
      assert rs[..n] == rs;
    }
  }

  /** One file as the server answered its upload, a download error the loop catches, or an
      exception the loop does not catch. */
  datatype UrlAttempt = Responded(status: nat, text: string) | RequestFailed(reason: string) | Escaped(reason: string)

  /** How one remote file ends: a 200 uploads it, another status fails it with the status
      code and the server's text, a request error fails it as a download error, and any
      other exception escapes. */
  function UrlItem(name: string, a: UrlAttempt): (r: ItemResult)
    ensures r.Aborted? <==> a.Escaped?
    ensures r.Uploaded? <==> a.Responded? && a.status == 200
    ensures r.Uploaded? ==> r.message == "Successfully uploaded " + name
    ensures r.Failed? && a.Responded? ==>
      r.message == "Error uploading " + name + ": [" + NatToString(a.status) + "] " + a.text
    ensures a.RequestFailed? ==> r == Failed("Error downloading " + name + ": " + a.reason)
  {
    match a
    case Responded(status, text) =>
      if status != 200 then Failed("Error uploading " + name + ": [" + NatToString(status) + "] " + text)
      else Uploaded("Successfully uploaded " + name)
    case RequestFailed(e) => Failed("Error downloading " + name + ": " + e)
    case Escaped(e) => Aborted(e)
  }

  function UrlResults(fileUrls: seq<ComfyFileUrlInput>, attempt: nat -> UrlAttempt): (rs: seq<ItemResult>)
    ensures |rs| == |fileUrls|
    ensures forall i :: 0 <= i < |fileUrls| ==> rs[i] == UrlItem(fileUrls[i].name, attempt(i))
  {
    seq(|fileUrls|, i requires 0 <= i < |fileUrls| => UrlItem(fileUrls[i].name, attempt(i)))
  }

  /** What uploading the remote files gives: nothing to report for no files, and otherwise
      the aggregate of the files' results. */
  function FilesOutcome(fileUrls: Option<seq<ComfyFileUrlInput>>, attempt: nat -> UrlAttempt): Outcome<UploadReport> {
    if fileUrls.None? || fileUrls.value == [] then Returned(UploadReport(Success, "No files to upload", []))
    else Aggregate(UrlResults(fileUrls.value, attempt), "Some files failed to upload", "All files uploaded successfully")
  }

  /** `upload_files_from_url`: no files is a success with nothing to report; otherwise every
      file is fetched and posted in order, a request error is recorded and the loop goes on,
      and the report is the aggregate of their results. */
  method UploadFilesFromUrl(fileUrls: Option<seq<ComfyFileUrlInput>>, attempt: nat -> UrlAttempt)
    returns (r: Outcome<UploadReport>)
    ensures fileUrls.None? || fileUrls.value == [] ==>
      r == Returned(UploadReport(Success, "No files to upload", []))
    ensures r == FilesOutcome(fileUrls, attempt)
  {
    if fileUrls.None? || fileUrls.value == [] {
      return Returned(UploadReport(Success, "No files to upload", []));
    }
    var files := fileUrls.value;
    ghost var rs := UrlResults(files, attempt);
    var responses: seq<string> := [];
    var uploadErrors: seq<string> := [];
    for i := 0 to |files|
      invariant responses == Successes(rs[..i]) && uploadErrors == Errors(rs[..i])
      invariant Abort(rs[..i]).None?
    {
      assert rs[..i + 1][..i] == rs[..i];
      var name := files[i].name;
      match attempt(i)
      case Escaped(e) =>
        AbortPrefix(rs, i + 1);
        return Raised(e);
      case RequestFailed(e) =>
        uploadErrors := uploadErrors + ["Error downloading " + name + ": " + e];
      case Responded(status, text) =>
        if status != 200 {
          uploadErrors := uploadErrors + ["Error uploading " + name + ": [" + NatToString(status) + "] " + text];
        } else {
          responses := responses + ["Successfully uploaded " + name];
        }
    }
    assert rs[..|files|] == rs;
    if uploadErrors != [] {
      return Returned(UploadReport(Error, "Some files failed to upload", uploadErrors));
    }
    return Returned(UploadReport(Success, "All files uploaded successfully", responses));
  }
}

/** Publishing files to an S3-compatible object store (src/s3.py). The store is an
    oracle: the i-th upload of a call succeeds or fails as `store(i)` says. */
module S3 {
  import opened Py

  /** One upload as the client issues it: the client's endpoint and credentials,
      then the bucket, the local file and the object key. */
  datatype PutRequest = PutRequest(
    endpoint: string, accessKey: string, secretKey: string,
    bucket: string, path: string, key: string)

  /** What the store did with one upload. */
  datatype StoreAttempt = Stored | StoreFailed(reason: string)

  /** The object key of a file: the job id, a slash, and the file's base name (its last "/"-segment). */
  function ObjectKey(jobId: string, path: string): string {
    jobId + "/" + LastSegment(path, '/')
  }

  /** An object key lies under the job's own prefix and holds no further slash, and the
      path it came from is its directory, a slash and the key's base name. */
  lemma ObjectKeyShape(jobId: string, path: string)
    ensures var key := ObjectKey(jobId, path);
      && |key| > |jobId| && key[..|jobId| + 1] == jobId + "/"
      && '/' !in key[|jobId| + 1..]
      && ('/' in path ==> path == AllButLastSegment(path, '/') + "/" + key[|jobId| + 1..])
      && ('/' !in path ==> key == jobId + "/" + path)
  {
    LastSegmentSplit(path, '/');
    var key := ObjectKey(jobId, path);
    assert key[|jobId| + 1..] == LastSegment(path, '/');
  }

  /** The message of the exception `open` raises for a missing file. */
  function NoSuchFile(path: string): string {
    "[Errno 2] No such file or directory: '" + path + "'"
  }

  /** The i-th file is opened and stored: it exists and the store accepts it. */
  predicate Uploads(fileList: seq<string>, fs: set<string>, store: nat -> StoreAttempt, i: nat)
    requires i < |fileList|
  {
    fileList[i] in fs && store(i).Stored?
  }

  /** Opens and uploads each file in order, stopping at the first file that is missing
      or that the store refuses and raising that exception again; otherwise returns one
      URL per file, in order. The client talks to the endpoint with its trailing slashes
      stripped, while the URLs are built from the endpoint as given, without the bucket. */
  method UploadFilesToS3(
    jobId: string, fileList: seq<string>, bucketName: string, endpointUrl: string,
    accessKey: string, secretKey: string, fs: set<string>, store: nat -> StoreAttempt)
    returns (r: Outcome<seq<string>>, puts: seq<PutRequest>)
    ensures |puts| <= |fileList|
    ensures forall i :: 0 <= i < |puts| ==>
      puts[i] == PutRequest(RStrip(endpointUrl, '/'), accessKey, secretKey, bucketName,
                            fileList[i], ObjectKey(jobId, fileList[i]))
    ensures r.Returned? <==> forall i :: 0 <= i < |fileList| ==> Uploads(fileList, fs, store, i)
    ensures r.Returned? ==> |puts| == |fileList| && |r.value| == |fileList|
    ensures r.Returned? ==> forall i :: 0 <= i < |fileList| ==>
      r.value[i] == endpointUrl + "/" + ObjectKey(jobId, fileList[i])
    ensures r.Raised? ==> exists k :: (0 <= k < |fileList|
      && (forall i :: 0 <= i < k ==> Uploads(fileList, fs, store, i))
      && !Uploads(fileList, fs, store, k)
      && (fileList[k] !in fs ==> r.error == NoSuchFile(fileList[k]) && |puts| == k)
      && (fileList[k] in fs ==> r.error == store(k).reason && |puts| == k + 1))
  {
    var clientEndpoint := RStrip(endpointUrl, '/');
    var bucketUrls := [];
    puts := [];
    var i := 0;
    while i < |fileList|
      invariant 0 <= i <= |fileList|
      invariant |bucketUrls| == i && |puts| == i
      invariant forall k :: 0 <= k < i ==> Uploads(fileList, fs, store, k)
      invariant forall k :: 0 <= k < i ==>
        puts[k] == PutRequest(clientEndpoint, accessKey, secretKey, bucketName, fileList[k], ObjectKey(jobId, fileList[k]))
      invariant forall k :: 0 <= k < i ==> bucketUrls[k] == endpointUrl + "/" + ObjectKey(jobId, fileList[k])
    {
      var file := fileList[i];
      if file !in fs {
        assert !Uploads(fileList, fs, store, i);
        return Raised(NoSuchFile(file)), puts;
      }
      var objectKey := ObjectKey(jobId, file);
      puts := puts + [PutRequest(clientEndpoint, accessKey, secretKey, bucketName, file, objectKey)];
      if store(i).StoreFailed? {
        assert !Uploads(fileList, fs, store, i);
        return Raised(store(i).reason), puts;
      }
      bucketUrls := bucketUrls + [endpointUrl + "/" + objectKey];
      i := i + 1;
    }
    r := Returned(bucketUrls);
  }
}

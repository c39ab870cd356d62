/** The publishing half of `process_output_images` (src/rp_handler.py): the collected paths
    go either to the bucket the job names, with credentials looked up under its key prefix,
    or back in the reply one by one, base64-encoded or uploaded to the worker's own bucket.
    The filesystem is one snapshot, the set of paths that exist; the bucket client, the
    worker's own uploader and the encoder are oracles. */
module Publishing {
  import opened Py
  import opened Job
  import opened S3
  import opened Collection

  /** The `{"status", "message"}` dict `process_output_images` returns: the published images
      (URLs or base64 text), or an error message. */
  datatype ImagesResult = Published(images: seq<string>) | PublishFailed(message: string)

  const NoImage := "No image generated"
  const MissingCredentials := "AWS credentials are missing"
  const UploadFailedPrefix := "Error uploading files to s3: "
  const MissingImagePrefix := "the image does not exist in the specified output folder: "

  /** `os.environ.get("COMFY_OUTPUT_PATH", "/comfyui/output")`. */
  function OutputRoot(env: map<string, string>): string {
    EnvGet(env, "COMFY_OUTPUT_PATH", "/comfyui/output")
  }

  // ---------------------------------------------------------------------------
  // check_file_path_exist

  /** The paths that exist, in their original order. */
  function ExistingPaths(paths: seq<string>, fs: set<string>): seq<string> {
    if paths == [] then []
    else ExistingPaths(paths[..|paths| - 1], fs) + (if paths[|paths| - 1] in fs then [paths[|paths| - 1]] else [])
  }

  /** `check_file_path_exist`: the flag says whether every path exists, and the list holds
      the paths that do. */
  method CheckFilePathExist(paths: seq<string>, fs: set<string>) returns (allExist: bool, existing: seq<string>)
    ensures existing == ExistingPaths(paths, fs)
    ensures allExist <==> forall i :: 0 <= i < |paths| ==> paths[i] in fs
  {
    allExist := true;
    existing := [];
    for i := 0 to |paths|
      invariant existing == ExistingPaths(paths[..i], fs)
      invariant allExist <==> forall k :: 0 <= k < i ==> paths[k] in fs
    {
      assert paths[..i + 1][..i] == paths[..i];
      if paths[i] !in fs {
        allExist := false;
      } else {
        existing := existing + [paths[i]];
      }
    }
    assert paths[..|paths|] == paths;
  }

  /** The kept paths are exactly the existing ones, and nothing is dropped exactly when
      every path exists. */
  lemma {:induction false} ExistingPathsExactly(paths: seq<string>, fs: set<string>)
    ensures forall p :: p in ExistingPaths(paths, fs) <==> p in paths && p in fs
    ensures |ExistingPaths(paths, fs)| <= |paths|
    ensures ExistingPaths(paths, fs) == paths <==> forall i :: 0 <= i < |paths| ==> paths[i] in fs
  {
    if paths != [] {
      var p := paths[..|paths| - 1];
      ExistingPathsExactly(p, fs);
      assert paths == p + [paths[|paths| - 1]];
      assert forall i :: 0 <= i < |p| ==> p[i] == paths[i];
      if paths[|paths| - 1] !in fs {
        assert |ExistingPaths(paths, fs)| < |paths|;
      }
    }
  }

  // ---------------------------------------------------------------------------
  // upload_files_to_s3 as rp_handler.py defines it

  /** The position of the first upload the store refuses, or n when it accepts the first n. */
  function FirstRefused(store: nat -> StoreAttempt, n: nat): (k: nat)
    ensures k <= n
    ensures forall i :: 0 <= i < k ==> store(i).Stored?
    ensures k < n ==> store(k).StoreFailed?
  {
    if n == 0 then 0
    else if FirstRefused(store, n - 1) < n - 1 then FirstRefused(store, n - 1)
    else if store(n - 1).StoreFailed? then n - 1
    else n
  }

  /** The URL of an uploaded object: the endpoint without trailing slashes, the bucket, then the key. */
  function BucketUrl(endpointUrl: string, bucket: string, key: string): string {
    RStrip(endpointUrl, '/') + "/" + bucket + "/" + key
  }

  /** What the upload loop returns: one URL per file, in order, when the store accepts
      every file, and otherwise the exception of the first refused upload. */
  function S3Upload(jobId: string, files: seq<string>, bucket: string, endpointUrl: string,
                    store: nat -> StoreAttempt): (r: Outcome<seq<string>>)
    ensures r.Returned? <==> forall i :: 0 <= i < |files| ==> store(i).Stored?
    ensures r.Returned? ==> |r.value| == |files|
    ensures r.Returned? ==> forall i :: 0 <= i < |files| ==>
      r.value[i] == RStrip(endpointUrl, '/') + "/" + bucket + "/" + jobId + "/" + LastSegment(files[i], '/')
    ensures r.Raised? ==> exists k :: (0 <= k < |files| && store(k).StoreFailed?
      && (forall i :: 0 <= i < k ==> store(i).Stored?) && r.error == store(k).reason)
  {
    var k := FirstRefused(store, |files|);
    if k < |files| then Raised(store(k).reason)
    else Returned(seq(|files|, i requires 0 <= i < |files| => BucketUrl(endpointUrl, bucket, ObjectKey(jobId, files[i]))))
  }

  /** The uploads the loop issues: every file up to and including the first refused one. */
  function S3Puts(jobId: string, files: seq<string>, bucket: string, endpointUrl: string,
                  accessKey: string, secretKey: string, store: nat -> StoreAttempt): (puts: seq<PutRequest>)
    ensures |puts| == if FirstRefused(store, |files|) < |files| then FirstRefused(store, |files|) + 1 else |files|
    ensures forall i :: 0 <= i < |puts| ==> (puts[i] ==
      PutRequest(RStrip(endpointUrl, '/'), accessKey, secretKey, bucket, files[i], ObjectKey(jobId, files[i])))
  {
    var k := FirstRefused(store, |files|);
    var n := if k < |files| then k + 1 else |files|;
    seq(n, i requires 0 <= i < n =>
      PutRequest(RStrip(endpointUrl, '/'), accessKey, secretKey, bucket, files[i], ObjectKey(jobId, files[i])))
  }

  /** `upload_files_to_s3` of rp_handler.py: the client and the URLs both use the endpoint with
      its trailing slashes stripped, each URL names the bucket, and the first refused upload
      is raised again. */
  method RpUploadFilesToS3(jobId: string, fileList: seq<string>, bucketName: string, endpointUrl: string,
                           accessKey: string, secretKey: string, store: nat -> StoreAttempt)
    returns (r: Outcome<seq<string>>, puts: seq<PutRequest>)
    ensures r == S3Upload(jobId, fileList, bucketName, endpointUrl, store)
    ensures puts == S3Puts(jobId, fileList, bucketName, endpointUrl, accessKey, secretKey, store)
  {
    var endpoint := RStrip(endpointUrl, '/');
    var bucketUrls: seq<string> := [];
    puts := [];
    for i := 0 to |fileList|
      invariant |bucketUrls| == i && |puts| == i
      invariant forall k :: 0 <= k < i ==> store(k).Stored?
      invariant forall k :: 0 <= k < i ==> bucketUrls[k] == BucketUrl(endpointUrl, bucketName, ObjectKey(jobId, fileList[k]))
      invariant forall k :: 0 <= k < i ==>
        puts[k] == PutRequest(endpoint, accessKey, secretKey, bucketName, fileList[k], ObjectKey(jobId, fileList[k]))
    {
      var objectKey := ObjectKey(jobId, fileList[i]);
      puts := puts + [PutRequest(endpoint, accessKey, secretKey, bucketName, fileList[i], objectKey)];
      if store(i).StoreFailed? {
        FirstRefusedAt(store, |fileList|, i);
        return Raised(store(i).reason), puts;
      }
      bucketUrls := bucketUrls + [endpoint + "/" + bucketName + "/" + objectKey];
    }
    FirstRefusedAt(store, |fileList|, |fileList|);
    assert bucketUrls == seq(|fileList|, i requires 0 <= i < |fileList| =>
      BucketUrl(endpointUrl, bucketName, ObjectKey(jobId, fileList[i])));
    r := Returned(bucketUrls);
  }

  /** The first refusal is where the store first refuses. */
  lemma FirstRefusedAt(store: nat -> StoreAttempt, n: nat, k: nat)
    requires k <= n
    requires forall i :: 0 <= i < k ==> store(i).Stored?
    requires k < n ==> store(k).StoreFailed?
    ensures FirstRefused(store, n) == k
  {
  }

  // ---------------------------------------------------------------------------
  // The embedded branch

  /** `os.environ.get("BUCKET_ENDPOINT_URL", False)` is truthy. */
  predicate BucketEndpointSet(env: map<string, string>) {
    "BUCKET_ENDPOINT_URL" in env && env["BUCKET_ENDPOINT_URL"] != ""
  }

  /** The position of the first path that does not exist, or the number of paths. */
  function FirstMissing(paths: seq<string>, fs: set<string>): (k: nat)
    ensures k <= |paths|
    ensures forall i :: 0 <= i < k ==> paths[i] in fs
    ensures k < |paths| ==> paths[k] !in fs
  {
    if paths == [] || paths[0] !in fs then 0
    else
      assert forall i :: 0 < i < |paths| ==> paths[i] == paths[1..][i - 1];
      1 + FirstMissing(paths[1..], fs)
  }

  /** One image in the reply: uploaded by the worker's own uploader when a bucket endpoint
      is configured, and base64-encoded otherwise. */
  function Embed(jobId: string, path: string, env: map<string, string>,
                 rpUpload: (string, string) -> string, encode: string -> string): string {
    if BucketEndpointSet(env) then rpUpload(jobId, path) else encode(path)
  }

  /** What the embedded branch returns: one image per path, in order, when every path
      exists; otherwise an error naming the first path that does not. */
  function EmbeddedResult(jobId: string, paths: seq<string>, env: map<string, string>, fs: set<string>,
                          rpUpload: (string, string) -> string, encode: string -> string): (r: ImagesResult)
    ensures r.Published? <==> forall i :: 0 <= i < |paths| ==> paths[i] in fs
    ensures r.Published? ==> |r.images| == |paths|
    ensures r.Published? ==> forall i :: 0 <= i < |paths| ==>
      r.images[i] == (if BucketEndpointSet(env) then rpUpload(jobId, paths[i]) else encode(paths[i]))
    ensures r.PublishFailed? ==> exists k :: (0 <= k < |paths| && paths[k] !in fs
      && (forall i :: 0 <= i < k ==> paths[i] in fs) && r.message == MissingImagePrefix + paths[k])
  {
    var k := FirstMissing(paths, fs);
    if k < |paths| then PublishFailed(MissingImagePrefix + paths[k])
    else Published(seq(|paths|, i requires 0 <= i < |paths| => Embed(jobId, paths[i], env, rpUpload, encode)))
  }

  /** The `for path in output_paths` loop of the embedded branch. */
  method PublishEmbedded(jobId: string, paths: seq<string>, env: map<string, string>, fs: set<string>,
                         rpUpload: (string, string) -> string, encode: string -> string)
    returns (r: ImagesResult)
    ensures r == EmbeddedResult(jobId, paths, env, fs, rpUpload, encode)
  {
    var outputImages: seq<string> := [];
    for i := 0 to |paths|
      invariant |outputImages| == i
      invariant forall k :: 0 <= k < i ==> paths[k] in fs
      invariant forall k :: 0 <= k < i ==> outputImages[k] == Embed(jobId, paths[k], env, rpUpload, encode)
    {
      var path := paths[i];
      if path !in fs {
        assert FirstMissing(paths, fs) == i;
        return PublishFailed(MissingImagePrefix + path);
      }
      var image;
      if "BUCKET_ENDPOINT_URL" in env && env["BUCKET_ENDPOINT_URL"] != "" {
        image := rpUpload(jobId, path);
      } else {
        image := encode(path);
      }
      outputImages := outputImages + [image];
    }
    assert FirstMissing(paths, fs) == |paths|;
    r := Published(outputImages);
  }

  // ---------------------------------------------------------------------------
  // process_output_images

  /** The paths `process_output_images` publishes: the output files' paths under the output
      root, followed by their existing sidecars; or the exception raised while collecting them. */
  function OutputPaths(outputs: Value, root: string, fs: set<string>): (r: Outcome<seq<string>>)
    ensures OutputFiles(outputs).Raised? ==> r == Raised(OutputFiles(outputs).error)
    ensures r.Returned? ==> OutputFiles(outputs).Returned?
    ensures OutputFiles(outputs).Returned? && ImagePaths(root, OutputFiles(outputs).value).Raised? ==>
      r == Raised(ImagePaths(root, OutputFiles(outputs).value).error)
    ensures OutputFiles(outputs).Returned? && ImagePaths(root, OutputFiles(outputs).value).Returned? ==> r.Returned?
    ensures r.Returned? ==>
      var files := OutputFiles(outputs).value;
      && ImagePaths(root, files).Returned?
      && r.value == ImagePaths(root, files).value + ExistingSidecars(ImagePaths(root, files).value, fs)
      && |files| <= |r.value|
      && (forall i :: 0 <= i < |files| ==> r.value[i] == DescriptorPath(root, files[i]).value)
  {
    match OutputFiles(outputs)
    case Raised(e) => Raised(e)
    case Returned(files) =>
      match ImagePaths(root, files)
      case Raised(e) => Raised(e)
      case Returned(images) => Returned(images + ExistingSidecars(images, fs))
  }

  /** The job asks for its own bucket: an output definition of type "s3". */
  predicate UsesJobBucket(outputDef: Option<ComfyOutput>) {
    outputDef.Some? && outputDef.value.outputType == S3
  }

  function AccessKeyName(prefix: string): string { prefix + "AWS_ACCESS_KEY_ID" }

  function SecretKeyName(prefix: string): string { prefix + "AWS_SECRET_ACCESS_KEY" }

  /** What `process_output_images` promises. No paths is an error. A job bucket keeps the
      existing paths, needs both credentials under the job's key prefix (otherwise nothing is
      uploaded), and reports an upload exception as an error. Otherwise each path is embedded
      in the reply, and a missing one is an error. An exception while collecting the paths
      escapes. */
  predicate ProcessContract(outputs: Value, jobId: string, outputDef: Option<ComfyOutput>,
                            env: map<string, string>, fs: set<string>, store: nat -> StoreAttempt,
                            rpUpload: (string, string) -> string, encode: string -> string,
                            r: Outcome<ImagesResult>, puts: seq<PutRequest>)
  {
    var ps := OutputPaths(outputs, OutputRoot(env), fs);
    && (ps.Raised? ==> r == Raised(ps.error) && puts == [])
    && (ps == Returned([]) ==> r == Returned(PublishFailed(NoImage)) && puts == [])
    && (ps.Returned? && ps.value != [] && !UsesJobBucket(outputDef) ==>
          r == Returned(EmbeddedResult(jobId, ps.value, env, fs, rpUpload, encode)) && puts == [])
    && (ps.Returned? && ps.value != [] && UsesJobBucket(outputDef) ==>
          var def := outputDef.value;
          var access, secret := AccessKeyName(def.keyPrefix), SecretKeyName(def.keyPrefix);
          && (access !in env || secret !in env ==> r == Returned(PublishFailed(MissingCredentials)) && puts == [])
          && (access in env && secret in env ==>
                var existing := ExistingPaths(ps.value, fs);
                && puts == S3Puts(jobId, existing, def.bucket, def.endpointUrl, env[access], env[secret], store)
                && r == Returned(match S3Upload(jobId, existing, def.bucket, def.endpointUrl, store)
                                 case Returned(urls) => Published(urls)
                                 case Raised(e) => PublishFailed(UploadFailedPrefix + e))))
  }

  /** `process_output_images`, proved against `ProcessContract`. */
  method ProcessOutputImages(outputs: Value, jobId: string, outputDef: Option<ComfyOutput>,
                             env: map<string, string>, fs: set<string>, store: nat -> StoreAttempt,
                             rpUpload: (string, string) -> string, encode: string -> string)
    returns (r: Outcome<ImagesResult>, puts: seq<PutRequest>)
    ensures ProcessContract(outputs, jobId, outputDef, env, fs, store, rpUpload, encode, r, puts)
  {
    puts := [];
    var root := EnvGet(env, "COMFY_OUTPUT_PATH", "/comfyui/output");
    var collected := CollectOutputFiles(outputs);
    if collected.Raised? {
      return Raised(collected.error), puts;
    }
    var outputFiles := collected.value;
    var joined := ImagePaths(root, outputFiles);
    if joined.Raised? {
      return Raised(joined.error), puts;
    }
    var outputPaths := joined.value;
    var outputTextPaths := SidecarPaths(outputPaths, fs);
    outputPaths := outputPaths + outputTextPaths;
    if |outputPaths| == 0 {
      return Returned(PublishFailed(NoImage)), puts;
    }
    if outputDef.Some? && outputDef.value.outputType == S3 {
      var def := outputDef.value;
      var allExist, existing := CheckFilePathExist(outputPaths, fs);
      var accessName, secretName := def.keyPrefix + "AWS_ACCESS_KEY_ID", def.keyPrefix + "AWS_SECRET_ACCESS_KEY";
      if accessName !in env || secretName !in env {
        return Returned(PublishFailed(MissingCredentials)), puts;
      }
      var uploaded;
      uploaded, puts := RpUploadFilesToS3(jobId, existing, def.bucket, def.endpointUrl,
                                          env[accessName], env[secretName], store);
      match uploaded
      case Raised(e) => r := Returned(PublishFailed(UploadFailedPrefix + e));
      case Returned(urls) => r := Returned(Published(urls));
    } else {
      var embedded := PublishEmbedded(jobId, outputPaths, env, fs, rpUpload, encode);
      r := Returned(embedded);
    }
  }
}

# ComfyUI worker job handler, modelled in Dafny

This project models the job-orchestration core of a serverless worker that runs ComfyUI
workflows. For each job, the worker does the following:

- validates the job;
- builds the handler of the job's optional completion trigger and checks its credentials;
- probes the inference server until it answers;
- uploads the job's inline images and remote files to the server;
- queues the workflow;
- polls the prompt's history until the generation fails, completes or runs out of retries;
- collects the output files the workflow wrote, together with their `.txt` sidecars;
- publishes those files, either to the job's own S3 bucket or inline in the reply;
- sends the published list to the trigger, which writes it to a Supabase row.

Everything outside the worker is an oracle:

- the environment is a `map<string, string>`;
- the filesystem is the set of paths that exist;
- each series of calls (probes, uploads, history fetches, bucket uploads) is a function `nat -> answer`, where the i-th call gets the i-th answer;
- the JSON serializer, the value renderer, the base64 encoder, the worker's own uploader and the database client are functions passed in.

Modules follow the source:

| module | what it models |
|---|---|
| `Py` | the Python behaviour the worker relies on: JSON-shaped values, `in`, truthiness, `dict.get`, `str.split`, `str.join`, `str.rstrip`, `os.path.join`, `os.environ.get` |
| `Job` | the pydantic records of `src/job.py` and the field checks they declare |
| `Supabase`, `Trigger` | the trigger record, its handler's `validate` and `handle`, and `create_trigger_handler` |
| `S3` | `src/s3.py` |
| `Validation` | `validate_input` |
| `AssetUpload` | `upload_images` and `upload_files_from_url` |
| `Polling` | `check_server` and the completion poll |
| `Collection` | the output-file collection half of `process_output_images` |
| `Publishing` | `check_file_path_exist`, the `upload_files_to_s3` of `rp_handler.py`, and the publishing half of `process_output_images` |
| `Pipeline` | `handler` |

Loops in the source are methods with `while`/`for` loops. Each is proved against a function that states what the loop computes; the lemmas beside those functions state the properties the source promises.

Some behaviours of the code a reader may not expect:

- **Upload reports.**
  - A failed batch reports only its error messages; the success messages are dropped.
  - A base64 image that cannot be decoded, or an image POST that raises, escapes `upload_images`; the handler does not catch it.
  - A file-download exception other than a request error also escapes `upload_files_from_url`.
- **Availability probe.** It uses the fixed constants 500 probes and 50 ms, not an environment setting. Its verdict is ignored, so the handler goes on whether or not the server answered.
- **Trigger with a failed publish.** When a job has a trigger and publishing reports an error, the `assert isinstance(images, list)` fails. The AssertionError escapes the handler, which is modelled as `Crashed`.
- **Non-empty output fields.** Nothing checks that the bucket, endpoint or key prefix of an output definition is non-empty.

## Model

| member | source | states |
|---|---|---|
| Py.Lookup | src/rp_handler.py:76-100 | `dict.get` finds a value exactly when some entry has the key, and the value found belongs to such an entry |
| Py.Contains | src/rp_handler.py:83 | `key in container` raises a TypeError exactly for a value that is neither dict, string nor list; on a dict it is key membership |
| Py.Split | src/rp_handler.py:376 | `str.split` with one separator gives at least one part, and no part holds the separator |
| Py.JoinSplit | src/rp_handler.py:439 | joining the parts of a split with the same separator gives the string back |
| Py.LastSegmentSplit | src/rp_handler.py:376 | the last segment holds no separator; when the separator occurs, the string is the earlier segments joined, the separator and the last segment; otherwise the last segment is the whole string |
| Py.RStrip | src/rp_handler.py:363 | `rstrip("/")` gives the longest prefix that does not end in "/", and everything it cut was "/" |
| Py.PathJoinRelative | src/rp_handler.py:434 | `os.path.join(root, subfolder, filename)` puts exactly one "/" between the parts when none of them carries its own slash, and an empty subfolder adds nothing |
| Job.ImageInputOf | src/job.py:9-11 | an image input is accepted exactly when `name` and `image` are strings, and keeps both |
| Job.FileUrlInputOf | src/job.py:14-16 | a file-URL input is accepted exactly when `name` and `url` are strings, and keeps both |
| Job.OutputTypeOf | src/job.py:20 | the output type is "s3" or "url" and nothing else |
| Job.ComfyOutputOf | src/job.py:19-23 | an output definition is accepted exactly when its type is known and its bucket, endpoint and key prefix are strings, and it keeps the type and all three strings |
| Job.JobTriggerOf | src/job.py:26-33 | the trigger base is accepted exactly when `service` is a string and `multiple_result` is absent or a string; it keeps the service and a given `multiple_result`, and an absent one is False |
| Job.JobTriggerDefault | src/job.py:30-33 | a trigger given only its service gets `multiple_result` False |
| Supabase.SupabaseJobTriggerOf | src/supabase.py:11-21 | a Supabase trigger is accepted exactly when its base is, its service is "supabase", its key prefix is a non-empty string, table, id field, output field and id are strings, and the two status fields are present as strings or null. It keeps the base and every field |
| Supabase.SupabaseTriggerHandler.Validate | src/supabase.py:30-36 | validation succeeds exactly when both `{prefix}SUPABASE_URL` and `{prefix}SUPABASE_KEY` are in the environment; otherwise it raises the ValueError of the first one missing, URL first |
| Supabase.SupabaseTriggerHandler.Handle | src/supabase.py:38-58 | the update is issued exactly when both credentials are present (otherwise a KeyError names the missing one). It targets the trigger's table, filtered on id field = id. Its data maps the output field to the output, adds status field → status exactly when both are non-empty, and otherwise has that one key. A client exception is raised again, and a reply is returned as its JSON |
| Trigger.TriggerHandler.Validate | src/job.py:36-39 | the interface's `validate` succeeds exactly when the handler's credentials are in the environment |
| Trigger.TriggerHandler.Handle | src/job.py:41-43 | the interface's `handle` issues the update to the trigger's row exactly when validation passes. The update's data has the output field, plus the status field exactly when both status settings are non-empty. It writes the given output under the output field unless the status field is that same field, and the status under the status field. It gives back the client's reply or its exception, and raises otherwise |
| Trigger.CreateTriggerHandler | src/trigger.py:5-15 | a Supabase trigger yields a handler around that same trigger, and only after its validation passed; a failed validation raises that validation's error; any other trigger raises "Unsupported service" |
| S3.ObjectKeyShape | src/s3.py:36-37 | the object key is the job id, "/" and the file's base name: it holds no further "/", and the path is its directory, "/" and that base name |
| S3.UploadFilesToS3 | src/s3.py:5-46 | files are opened and uploaded in order with the stripped endpoint. On success there is one URL per file, in order: the unstripped endpoint, "/" and the object key, without the bucket. Otherwise the first missing or refused file's exception is raised. A missing file leaves exactly the uploads before it issued; a refused file also had its own put issued |
| Validation.AllHaveFirstFailure | src/rp_handler.py:83 | `all(...)` holds exactly when every item has both keys; otherwise its verdict is the first failing item's, so an item that is no container raises only when every earlier item passed |
| Validation.ListCheck | src/rp_handler.py:80-98 | an images/file_urls value passes exactly when it is absent or a list whose items all have `name` and the second key. The check raises exactly when the `all(...)` over a list raises, and then with the exception of the first item that does not pass. Any other failure carries that check's message |
| Validation.OutputCheck | src/rp_handler.py:99-108 | the output value passes exactly when it is absent or a dict holding `type`, `bucket`, `endpoint_url` and `key_prefix`; the check never raises, and a failure carries its message |
| Validation.ValidateEntries | src/rp_handler.py:75-116 | the payload is accepted exactly when all four checks pass, in the order workflow, images, file_urls, output. The accepted result holds exactly those four keys with the payload's values, unknown keys dropped. Otherwise the result is the first failing check's message or exception |
| Validation.ValidateInput | src/rp_handler.py:51-116 | no input gives "Please provide input"; a string that is not JSON gives "Invalid JSON format in input"; a payload that is not a dict makes `.get` raise; a dict payload is decided by the checks |
| Validation.MissingWorkflowRejected | src/rp_handler.py:76-78 | a payload without a workflow is rejected with "Missing 'workflow' parameter", whatever else it holds |
| AssetUpload.AbortIsFirst | src/rp_handler.py:169-172 | an exception escapes a batch exactly when some item raises, and it is the first such item's |
| AssetUpload.ErrorsExactly | src/rp_handler.py:182-183 | the error list is empty exactly when no item failed, and it holds the message of each failed item and nothing else |
| AssetUpload.ResultsPartition | src/rp_handler.py:182-185 | each item is uploaded, failed or raised, so errors and successes together count every item when none raised |
| AssetUpload.AllUploaded | src/rp_handler.py:195-200 | when every item was uploaded, the details hold one message per item, in item order |
| AssetUpload.AggregateStatus | src/rp_handler.py:187-200 | when no item raises, the batch returns a report, and its status is "error" exactly when some item failed |
| AssetUpload.ImageItem | src/rp_handler.py:170-185 | an image whose decoding or POST raises lets the exception escape; a 200 uploads it with "Successfully uploaded {name}"; another status fails it with "Error uploading {name}: {text}" |
| AssetUpload.UploadImages | src/rp_handler.py:150-200 | no images is a success with "No images to upload" and no details; otherwise the report is the aggregate of every image's result, in order |
| AssetUpload.UrlItem | src/rp_handler.py:220-250 | a 200 uploads the file; another status fails it with the status code and text; a request error fails it as a download error; any other exception escapes |
| AssetUpload.UploadFilesFromUrl | src/rp_handler.py:203-264 | no files is a success with "No files to upload"; otherwise every file is attempted, a request error does not stop the loop, and the report is the aggregate of their results |
| Polling.CheckServer | src/rp_handler.py:119-147 | at most `retries` probes, stopping at the first 200. The result is true exactly when some probe within the budget answered 200, and no earlier probe did. A run that fails used the whole budget |
| Polling.StepOf | src/rp_handler.py:586-599 | a fetch counts a retry exactly when the prompt is absent from the history, and no single fetch times the poll out |
| Polling.StepOfMeaning | src/rp_handler.py:589-599 | a fetch error or a record that is not a dict ends the wait with that exception; status "error" fails the generation with the record's `output`; the poll completes exactly on a dict record whose status is not "error" and whose outputs are truthy, with those outputs; any other dict record is waited on without counting a retry |
| Polling.Poll | src/rp_handler.py:584-603 | the loop keeps the poll contract. A stop comes at the first stopping fetch made while the counter was below the bound. A timeout comes right after the fetch that brought the absent count to the bound, or before any fetch when the bound is not positive |
| Polling.PollContractUnique | src/rp_handler.py:584-603 | the poll contract fixes the outcome and the number of fetches |
| Polling.NeverFoundTimesOut | src/rp_handler.py:586-601 | a prompt that never shows up times out with "Max retries reached" after exactly the bound's number of fetches |
| Polling.CompletesAfterAbsent | src/rp_handler.py:590-595 | a prompt absent for n fetches and then finished completes on fetch n+1 when n is below the bound |
| Polling.PendingNeverTimesOut | src/rp_handler.py:590-599 | a record that is present but neither failed nor finished consumes no retries, so the poll never times out, whatever the bound |
| Polling.PollFromNumbers | src/rp_handler.py:584-603 | the loop as written, with both settings numbers, keeps the poll contract from every state the loop reaches |
| Polling.PollFromFetches | src/rp_handler.py:584-603 | the loop as written (`PollFrom`) makes no more fetches than the fuel allows, and it fails on the bound's comparison, before any fetch, exactly when the bound is text |
| Polling.PollAsWritten | src/rp_handler.py:28-30 | the poll of the handler as written, on the environment's settings, fails with the comparison's TypeError before any fetch exactly when `COMFY_POLLING_MAX_RETRIES` is set |
| Polling.PollAsWrittenUnset | src/rp_handler.py:28-30 | with both settings unset, the loop as written is the poll with bound 5000 |
| Polling.SetBoundFailsEveryPoll | src/rp_handler.py:30 | with `COMFY_POLLING_MAX_RETRIES` set, every poll fails before its first fetch with the TypeError of comparing an int with a string |
| Polling.SetIntervalFailsFirstRetry | src/rp_handler.py:28 | with only `COMFY_POLLING_INTERVAL_MS` set, the first absent record fails the poll with the TypeError of dividing a string |
| Collection.IsAnOutputFile | src/rp_handler.py:336-348 | a value is an output file exactly when it is a dict in which `"filename" in output` and `"type" in output` hold and whose `type` is "output"; any other value is not, and the `in` tests run only on a dict |
| Collection.CollectNodeFiles | src/rp_handler.py:425-431 | the slot loop of one node keeps a list slot's output files and a dict slot that is an output file, in slot order |
| Collection.OutputFiles | src/rp_handler.py:420-431 | walking `outputs` raises on a non-dict `outputs` or on the first node that is not a dict. Otherwise it gives all output-file descriptors, in node and slot order, and each one is an output file |
| Collection.CollectOutputFiles | src/rp_handler.py:420-431 | the nested loop computes `OutputFiles` |
| Collection.KeptExactly | src/rp_handler.py:336-348 | a list keeps exactly its items that are dicts with a `filename` and type "output" |
| Collection.AllFilesExactly | src/rp_handler.py:422-431 | the collection holds exactly the output-file descriptors that sit in some slot of some node, alone or inside a list |
| Collection.DescriptorPath | src/rp_handler.py:434 | both keys are looked up before the join: a missing `subfolder`, then a missing `filename`, raises a KeyError naming it; then a `subfolder`, then a `filename`, that is not a string raises the join's TypeError naming its type. A path is returned exactly when both are strings, and it is their `os.path.join` under the root |
| Collection.ImagePaths | src/rp_handler.py:434 | the comprehension gives one joined path per descriptor, in order, exactly when every descriptor can be joined |
| Collection.ImagePathsFirstFailure | src/rp_handler.py:434 | a comprehension that raises raises the first failing descriptor's exception |
| Collection.SidecarPath | src/rp_handler.py:439 | a sidecar path ends in ".txt" |
| Collection.SidecarReplacesExtension | src/rp_handler.py:439 | the sidecar of `stem.ext` is `stem.txt`, and a path with no "." has the bare ".txt" as its sidecar |
| Collection.SidecarPaths | src/rp_handler.py:436-441 | the sidecar loop keeps each image path's sidecar that exists, in image order |
| Collection.ExistingSidecarsExactly | src/rp_handler.py:436-443 | there is at most one sidecar per image path, and the kept ones are exactly the existing sidecars of image paths |
| Publishing.CheckFilePathExist | src/rp_handler.py:314-333 | the flag says whether every path exists, and the list is the paths that do, in order |
| Publishing.ExistingPathsExactly | src/rp_handler.py:325-333 | the kept paths are exactly the existing ones; nothing is dropped exactly when every path exists |
| Publishing.S3Upload | src/rp_handler.py:373-385 | on success there is one URL per file, in order: the stripped endpoint, the bucket and the object key. Otherwise the first refused upload's exception is raised |
| Publishing.S3Puts | src/rp_handler.py:362-379 | every file up to and including the first refused one is uploaded with the stripped endpoint, the job's credentials, the bucket and its object key |
| Publishing.RpUploadFilesToS3 | src/rp_handler.py:351-385 | the upload loop computes `S3Upload` and issues `S3Puts` |
| Publishing.EmbeddedResult | src/rp_handler.py:496-519 | every path exists exactly when the result is published. It then holds one image per path, in order: the worker's own upload when `BUCKET_ENDPOINT_URL` is set, base64 otherwise. Otherwise the error names the first missing path |
| Publishing.PublishEmbedded | src/rp_handler.py:498-519 | the embedded loop computes `EmbeddedResult` |
| Publishing.OutputPaths | src/rp_handler.py:420-443 | an exception while collecting descriptors escapes, and so does the KeyError or TypeError of the first descriptor whose path cannot be built. When both succeed a list is returned: each descriptor's path under the output root, in order, followed by the sidecars of those paths that exist, in image order |
| Publishing.ProcessOutputImages | src/rp_handler.py:388-519 | no paths gives "No image generated". A job bucket keeps the existing paths; with either credential missing it gives "AWS credentials are missing" and uploads nothing; otherwise it uploads them and reports an upload exception as an error. Any other job embeds every path. A collection exception escapes |
| Pipeline.RefreshWorker | src/rp_handler.py:35 | the refresh flag is on exactly when `REFRESH_WORKER` is set and is "true" in any casing, letter by letter; unset means off |
| Pipeline.UploadInputs | src/rp_handler.py:555-565 | the file upload runs only after the image upload succeeded; a failed stage's report is returned as it is and its exception escapes; the stages pass exactly when both succeed |
| Pipeline.AwaitAndDeliver | src/rp_handler.py:582-618 | the poll keeps its contract. A generation error, a timeout or a wait failure ends the job with its message. A completion is published and returned with the refresh flag. A job with a trigger reaches it only after a successful publish. The update goes to the trigger's row, writes `json.dumps` of the published list under the output field (unless the status field is that field) and the status when one is configured. A failed publish or a client exception escapes |
| Pipeline.SubmitAndAwait | src/rp_handler.py:567-618 | a failed queue or node errors end the job with their message before any poll; a clean queue goes on to the poll |
| Pipeline.RunAdmitted | src/rp_handler.py:548-618 | the availability check makes 1 to 500 probes, ending at the first 200, and its verdict is ignored; the uploads run in order and end the job when they fail; the workflow is queued only when both succeed |
| Pipeline.HandleJob | src/rp_handler.py:522-618 | an invalid job or a trigger that cannot be created ends the job with its error before any probe, upload or queue; an admitted job runs the remaining stages in order, and the first failing stage decides |

## Left out

- HTTP, S3, Supabase, the filesystem and the environment are oracles. The ComfyUI endpoints' URLs, the multipart bodies, boto3's retry configuration and the Supabase client's construction are not modelled; `create_client` is folded into the `execute` oracle.
- `time.sleep` is not modelled: only the number of probes and fetches is counted.
- Pydantic parsing of the whole `ComfyWorkerJob` and the text of its ValidationError: the handler receives the parsed job or the error text (`Pipeline.JobInput`). The record checks of `src/job.py` and `src/supabase.py` are modelled one by one.
- `json.loads` and `json.dumps` are oracles (`parseJson`, `dumps`), and so is the f-string rendering of node errors and generation details (`show`).
- A `KeyError` or `TypeError` from `job["id"]` or `job["input"]`, outside the ValidationError handler, is not modelled.
- `queue_workflow` and `get_history` give their parsed answer or their exception directly. A queue reply that lacks `prompt_id` or `node_errors` is part of `QueueFailed`.
- `base64_encode` and `rp_upload.upload_image` are oracles. An exception from either is not modelled.
- The filesystem is one snapshot: a file that appears or disappears between collection and publishing is not modelled.
- Floats in JSON values are not modelled.
- Logging and `print` are not modelled.
- Py.Lower: lower-cases ASCII letters only; `str.lower` on other letters is not modelled.
- Polling.Poll: the fuel bound stops a poll that the source would continue forever, as `StillPolling` (`Pipeline.Unfinished` for the handler).
- Pipeline.HandleJob: the completion poll's bound is a number in the `World` (`pollBound`), the corrected reading of the settings (see Findings). The loop as written, on the environment's text, is `Polling.PollAsWritten`.
- Py.Value: nothing requires a `Dict`'s keys to be pairwise distinct. The oracles' replies (parsed JSON, history records) may carry a repeated key, which no Python dict can; `Py.Lookup` then takes the first entry, and the model promises nothing else for such replies.
- Publishing.RpUploadFilesToS3: an exception while building the boto3 session or client (src/rp_handler.py:362-371) is not modelled; in the source, the handler's `except` at src/rp_handler.py:484 turns it into the "Error uploading files to s3" reply just as for a refused upload.
- `runpod.serverless.start` and the tests are not part of this model.

## Findings

| source | as written | input that shows it | evidently intended | confidence | as-written member | corrected member |
|---|---|---|---|---|---|---|
| src/rp_handler.py:28-30, 586, 598 | `COMFY_POLLING_MAX_RETRIES` and `COMFY_POLLING_INTERVAL_MS` are taken from `os.environ.get` with int defaults. When set, they are strings, so `retries < COMFY_POLLING_MAX_RETRIES` and `COMFY_POLLING_INTERVAL_MS / 1000` raise a TypeError. The `except` turns that into "Error waiting for image generation: …" | `COMFY_POLLING_MAX_RETRIES="100"` in the environment fails every job before its first history fetch. `COMFY_POLLING_INTERVAL_MS="500"` alone fails a job whose first fetch finds no record | the settings converted with `int(...)`, so the loop compares and sleeps with numbers | high; not executed | Polling.SetBoundFailsEveryPoll | Polling.Poll |

The as-written loop is `Polling.PollAsWritten`. `Polling.SetIntervalFailsFirstRetry` shows the interval half of the bug. `Polling.PollAsWrittenUnset` shows that the corrected loop agrees with the code when neither variable is set. The handler model uses the corrected `Polling.Poll`, whose properties `Polling.NeverFoundTimesOut`, `Polling.CompletesAfterAbsent` and `Polling.PendingNeverTimesOut` are proved.

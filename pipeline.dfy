/** The job handler of the worker (`handler`, src/rp_handler.py): the stages a job goes
    through, in order, and how each stage's failure ends the job. Every stage is the
    model of its own module; the outside world (environment, files on disk, the
    inference server, the storage service, the database) is one `World` of oracles. */
module Pipeline {
  import opened Py
  import opened Job
  import opened Supabase
  import opened Trigger
  import opened AssetUpload
  import opened Polling
  import opened S3
  import opened Publishing

  /** `ComfyWorkerJob`: the job id and the job's validated input. */
  datatype ComfyWorkerJob = ComfyWorkerJob(
    id: string,
    workflow: Value,
    images: Option<seq<ComfyImageInput>>,
    fileUrls: Option<seq<ComfyFileUrlInput>>,
    output: Option<ComfyOutput>,
    trigger: Option<SupabaseJobTrigger>)

  /** Building the job from the raw job: the job, or the text of the ValidationError. */
  datatype JobInput = Parsed(job: ComfyWorkerJob) | Invalid(detail: string)

  /** What `queue_workflow` gives: the prompt id and node errors of the server's answer, or
      the exception raised while queuing or while reading either key. */
  datatype QueueReply = Queued(promptId: string, nodeErrors: Value) | QueueFailed(reason: string)

  /** Everything outside the handler. `show` renders a value as an f-string does, `dumps`
      serializes a list of strings as `json.dumps` does. `pollBound` is the completion
      poll's retry bound as a number. */
  datatype World = World(
    env: map<string, string>,
    fs: set<string>,
    probe: nat -> Probe,
    imageAttempt: nat -> ImageAttempt,
    urlAttempt: nat -> UrlAttempt,
    queue: Value -> QueueReply,
    history: nat -> HistoryProbe,
    pollBound: int,
    fuel: nat,
    store: nat -> StoreAttempt,
    rpUpload: (string, string) -> string,
    encode: string -> string,
    show: Value -> string,
    dumps: seq<string> -> string,
    execute: (string, string, UpdateRequest) -> ClientReply)

  /** What `handler` returns: `{"error": ...}`, the failing upload's own report, the images
      result with the refresh flag, or an exception escaping it. `Unfinished` is the model's
      own: the completion poll ran out of fuel. */
  datatype HandlerResult =
    | ErrorReply(error: string)
    | UploadFailed(report: UploadReport)
    | Finished(images: ImagesResult, refreshWorker: bool)
    | Crashed(reason: string)
    | Unfinished

  /** What the stages from the completion poll on did: the poll's outcome and fetches, what
      publishing returned and stored, and the update the trigger issued. */
  datatype Downstream = Downstream(
    poll: Option<(PollOutcome, nat)>,
    images: Option<Outcome<ImagesResult>>,
    puts: seq<PutRequest>,
    update: Option<UpdateRequest>)

  const Untouched := Downstream(None, None, [], None)

  /** What a run did to the outside world: the number of availability probes, whether each
      upload stage ran, whether the workflow was queued, and what came after. */
  datatype Effects = Effects(
    probes: nat,
    imagesUploaded: bool,
    filesUploaded: bool,
    queued: bool,
    downstream: Downstream)

  const Nothing := Effects(0, false, false, false, Untouched)

  const AvailableMaxRetries := 500

  const ValidationPrefix := "Error validating input: "
  const TriggerPrefix := "Error creating trigger handler: "
  const QueuePrefix := "Error queuing workflow: "
  const NodeErrorsPrefix := "Error found when queuing workflow: "
  const GenerationPrefix := "Error in generation: "
  const MaxRetriesMessage := "Max retries reached while waiting for image generation"
  const WaitPrefix := "Error waiting for image generation: "
  const NotAListMessage := "images output should be a list of URLs, or base64 encoded images"

  /** `REFRESH_WORKER`: the variable, lower-cased, is "true" (unset reads "false"). */
  function RefreshWorker(env: map<string, string>): (r: bool)
    ensures "REFRESH_WORKER" !in env ==> !r
    ensures r ==> "REFRESH_WORKER" in env && |env["REFRESH_WORKER"]| == 4
    ensures "REFRESH_WORKER" in env && env["REFRESH_WORKER"] in {"true", "True", "TRUE"} ==> r
    ensures r <==> "REFRESH_WORKER" in env && |env["REFRESH_WORKER"]| == 4
                   && forall i :: 0 <= i < 4 ==> env["REFRESH_WORKER"][i] == "true"[i] || env["REFRESH_WORKER"][i] == "TRUE"[i]
  {
    Lower(EnvGet(env, "REFRESH_WORKER", "false")) == "true"
  }

  /** The job's trigger names a handler that cannot be created. */
  predicate TriggerRefused(job: ComfyWorkerJob, env: map<string, string>) {
    job.trigger.Some? && CreateTriggerHandler(SupabaseTrigger(job.trigger.value), env).Raised?
  }

  /** The job got past validation and its trigger. */
  predicate Admitted(input: JobInput, env: map<string, string>) {
    input.Parsed? && !TriggerRefused(input.job, env)
  }

  predicate Succeeded(u: Outcome<UploadReport>) {
    u.Returned? && u.value.status == Success
  }

  /** Both upload stages succeeded. */
  predicate UploadsSucceed(job: ComfyWorkerJob, w: World) {
    Succeeded(ImagesOutcome(job.images, w.imageAttempt)) && Succeeded(FilesOutcome(job.fileUrls, w.urlAttempt))
  }

  /** The workflow was queued without node errors. */
  predicate QueuedCleanly(job: ComfyWorkerJob, w: World) {
    w.queue(job.workflow).Queued? && !Truthy(w.queue(job.workflow).nodeErrors)
  }

  /** How a failed upload stage ends the job: its exception escapes, and its error report
      is returned as it is. */
  predicate UploadStageEnds(u: Outcome<UploadReport>, result: HandlerResult) {
    && (u.Raised? ==> result == Crashed(u.error))
    && (u.Returned? && u.value.status == Error ==> result == UploadFailed(u.value))
  }

  /** The availability check: at most its 500 probes, ending at the first that answered 200. */
  predicate ServerChecked(probe: nat -> Probe, probes: nat) {
    1 <= probes <= AvailableMaxRetries
    && (forall i :: 0 <= i < probes - 1 ==> !Up(probe(i)))
    && (probes < AvailableMaxRetries ==> Up(probe(probes - 1)))
  }

  /** How the poll's outcome decides the job when it did not complete. */
  predicate PollEnds(outcome: PollOutcome, w: World, result: HandlerResult) {
    match outcome
    case GenerationFailed(d) => result == ErrorReply(GenerationPrefix + w.show(d))
    case TimedOut => result == ErrorReply(MaxRetriesMessage)
    case WaitFailed(e) => result == ErrorReply(WaitPrefix + e)
    case StillPolling => result == Unfinished
    case Completed(_) => true
  }

  /** How publishing and the trigger decide a job whose poll completed: the images result
      with the refresh flag, unless publishing raised, or the job has a trigger and
      publishing gave an error (the assertion fails), or the trigger raised. Only a
      successful publish reaches the trigger, whose update writes the serialized list
      (`json.dumps(images)`) to the output field, and the status when one is configured. */
  predicate Delivered(job: ComfyWorkerJob, w: World, images: Outcome<ImagesResult>,
                      update: Option<UpdateRequest>, result: HandlerResult) {
    && (images.Raised? ==> result == Crashed(images.error) && update == None)
    && (images.Returned? && job.trigger.None? ==>
          result == Finished(images.value, RefreshWorker(w.env)) && update == None)
    && (images.Returned? && job.trigger.Some? && images.value.PublishFailed? ==>
          result == Crashed(NotAListMessage) && update == None)
    && (images.Returned? && job.trigger.Some? && images.value.Published? ==>
          var t := job.trigger.value;
          var h := SupabaseTriggerHandler(t);
          && update.Some?
          && update.value.table == t.table && update.value.column == t.idField && update.value.value == t.id
          && update.value.data.Keys == {t.outputField} + (if t.SetsStatus() then {t.statusField.value} else {})
          && (!t.SetsStatus() || t.statusField.value != t.outputField ==>
                update.value.data[t.outputField] == w.dumps(images.value.images))
          && (t.SetsStatus() ==> update.value.data[t.statusField.value] == t.status.value)
          && h.UrlKey() in w.env && h.KeyKey() in w.env
          && match w.execute(w.env[h.UrlKey()], w.env[h.KeyKey()], update.value)
             case Executed(_) => result == Finished(images.value, RefreshWorker(w.env))
             case ClientFailed(e) => result == Crashed(e))
  }

  /** The trigger handler the handler holds for the job: one around the job's trigger,
      already validated, exactly when the job has a trigger. */
  predicate HandlerFor(job: ComfyWorkerJob, th: Option<TriggerHandler>, env: map<string, string>) {
    && (th.Some? <==> job.trigger.Some?)
    && (th.Some? ==> th.value == SupabaseHandler(SupabaseTriggerHandler(job.trigger.value))
                     && th.value.Validate(env).Returned?)
  }

  /** What the poll and delivery of a cleanly queued job promise: the poll keeps its
      contract, an outcome other than completion decides the job, and a completed poll's
      outputs are published and delivered; nothing is published or sent otherwise. */
  predicate AwaitContract(job: ComfyWorkerJob, w: World, d: Downstream, result: HandlerResult) {
    && d.poll.Some?
    && PollContract(w.pollBound, w.history, w.fuel, d.poll.value.0, d.poll.value.1)
    && PollEnds(d.poll.value.0, w, result)
    && (d.poll.value.0.Completed? <==> d.images.Some?)
    && (d.images.Some? ==>
          && ProcessContract(d.poll.value.0.outputs, job.id, job.output, w.env, w.fs, w.store,
                             w.rpUpload, w.encode, d.images.value, d.puts)
          && Delivered(job, w, d.images.value, d.update, result))
    && (d.images.None? ==> d.puts == [] && d.update == None)
  }

  /** What queuing promises: a failed queue or node errors end the job with their own
      message before any poll; a clean queue goes on to the poll. */
  predicate SubmitContract(job: ComfyWorkerJob, w: World, d: Downstream, result: HandlerResult) {
    && (!QueuedCleanly(job, w) ==>
          d == Untouched &&
          match w.queue(job.workflow)
          case QueueFailed(e) => result == ErrorReply(QueuePrefix + e)
          case Queued(_, errors) => result == ErrorReply(NodeErrorsPrefix + w.show(errors)))
    && (QueuedCleanly(job, w) ==> AwaitContract(job, w, d, result))
  }

  /** What the stages after admission promise: the availability check runs, then each
      upload stage runs only if the one before it succeeded and ends the job if it fails,
      and the workflow is queued only when both succeeded. */
  predicate AdmittedContract(job: ComfyWorkerJob, w: World, fx: Effects, result: HandlerResult) {
    && ServerChecked(w.probe, fx.probes) && fx.imagesUploaded
    && (!Succeeded(ImagesOutcome(job.images, w.imageAttempt)) ==>
          UploadStageEnds(ImagesOutcome(job.images, w.imageAttempt), result) && !fx.filesUploaded)
    && (Succeeded(ImagesOutcome(job.images, w.imageAttempt)) ==> fx.filesUploaded)
    && (Succeeded(ImagesOutcome(job.images, w.imageAttempt)) && !Succeeded(FilesOutcome(job.fileUrls, w.urlAttempt)) ==>
          UploadStageEnds(FilesOutcome(job.fileUrls, w.urlAttempt), result))
    && (!UploadsSucceed(job, w) ==> !fx.queued && fx.downstream == Untouched)
    && (UploadsSucceed(job, w) ==> fx.queued && SubmitContract(job, w, fx.downstream, result))
  }

  /** The completion poll of a cleanly queued job and what follows it. */
  method AwaitAndDeliver(job: ComfyWorkerJob, triggerHandler: Option<TriggerHandler>, w: World)
    returns (result: HandlerResult, d: Downstream)
    requires HandlerFor(job, triggerHandler, w.env)
    ensures AwaitContract(job, w, d, result)
  {
    var outcome, fetches := Poll(w.pollBound, w.history, w.fuel);
    d := Untouched.(poll := Some((outcome, fetches)));
    if outcome.GenerationFailed? {
      return ErrorReply(GenerationPrefix + w.show(outcome.detail)), d;
    } else if outcome.TimedOut? {
      return ErrorReply(MaxRetriesMessage), d;
    } else if outcome.WaitFailed? {
      return ErrorReply(WaitPrefix + outcome.reason), d;
    } else if outcome.StillPolling? {
      return Unfinished, d;
    }

    var imagesResult, puts := ProcessOutputImages(outcome.outputs, job.id, job.output, w.env, w.fs,
                                                  w.store, w.rpUpload, w.encode);
    d := d.(images := Some(imagesResult), puts := puts);
    if imagesResult.Raised? {
      return Crashed(imagesResult.error), d;
    }
    result := Finished(imagesResult.value, RefreshWorker(w.env));

    if triggerHandler.Some? {
      if !imagesResult.value.Published? {
        return Crashed(NotAListMessage), d;
      }
      var output := w.dumps(imagesResult.value.images);
      var request, response := triggerHandler.value.Handle(output, w.env, w.execute);
      d := d.(update := request);
      if response.Raised? {
        return Crashed(response.error), d;
      }
    }
  }

  /** Queuing the workflow, and then the poll and delivery. */
  method SubmitAndAwait(job: ComfyWorkerJob, triggerHandler: Option<TriggerHandler>, w: World)
    returns (result: HandlerResult, d: Downstream)
    requires HandlerFor(job, triggerHandler, w.env)
    ensures SubmitContract(job, w, d, result)
  {
    d := Untouched;
    var queued := w.queue(job.workflow);
    if queued.QueueFailed? {
      return ErrorReply(QueuePrefix + queued.reason), d;
    }
    if Truthy(queued.nodeErrors) {
      return ErrorReply(NodeErrorsPrefix + w.show(queued.nodeErrors)), d;
    }
    result, d := AwaitAndDeliver(job, triggerHandler, w);
  }

  /** The two upload stages: the remote files are uploaded only after the images succeeded,
      and a failing stage gives the job's result. */
  method UploadInputs(job: ComfyWorkerJob, w: World) returns (stop: Option<HandlerResult>, filesUploaded: bool)
    ensures stop.None? <==> UploadsSucceed(job, w)
    ensures filesUploaded <==> Succeeded(ImagesOutcome(job.images, w.imageAttempt))
    ensures !Succeeded(ImagesOutcome(job.images, w.imageAttempt)) ==>
      stop.Some? && UploadStageEnds(ImagesOutcome(job.images, w.imageAttempt), stop.value)
    ensures Succeeded(ImagesOutcome(job.images, w.imageAttempt)) && !Succeeded(FilesOutcome(job.fileUrls, w.urlAttempt)) ==>
      stop.Some? && UploadStageEnds(FilesOutcome(job.fileUrls, w.urlAttempt), stop.value)
  {
    var uploadResult := UploadImages(job.images, w.imageAttempt);
    if uploadResult.Raised? {
      return Some(Crashed(uploadResult.error)), false;
    }
    if uploadResult.value.status == Error {
      return Some(UploadFailed(uploadResult.value)), false;
    }
    var uploadFileResult := UploadFilesFromUrl(job.fileUrls, w.urlAttempt);
    if uploadFileResult.Raised? {
      return Some(Crashed(uploadFileResult.error)), true;
    }
    if uploadFileResult.value.status == Error {
      return Some(UploadFailed(uploadFileResult.value)), true;
    }
    return None, true;
  }

  /** The stages after admission: the availability check, the two uploads, and then
      queuing and what follows. */
  method RunAdmitted(job: ComfyWorkerJob, triggerHandler: Option<TriggerHandler>, w: World)
    returns (result: HandlerResult, fx: Effects)
    requires HandlerFor(job, triggerHandler, w.env)
    ensures AdmittedContract(job, w, fx, result)
  {
    var reachable, probes := CheckServer(AvailableMaxRetries, w.probe);
    var stop, filesUploaded := UploadInputs(job, w);
    if stop.Some? {
      return stop.value, Effects(probes, true, filesUploaded, false, Untouched);
    }
    var d;
    result, d := SubmitAndAwait(job, triggerHandler, w);
    fx := Effects(probes, true, true, true, d);
  }

  /** `handler(job)`. The stages run in order (validation, trigger handler, availability
      check, image upload, file upload, queuing, completion poll, publishing, trigger) and
      the first that fails ends the job with its own result; nothing after it runs. */
  method HandleJob(input: JobInput, w: World) returns (result: HandlerResult, fx: Effects)
    ensures input.Invalid? ==> result == ErrorReply(ValidationPrefix + input.detail) && fx == Nothing
    ensures input.Parsed? && TriggerRefused(input.job, w.env) ==>
      result == ErrorReply(TriggerPrefix + CreateTriggerHandler(SupabaseTrigger(input.job.trigger.value), w.env).error)
      && fx == Nothing
    ensures Admitted(input, w.env) ==> AdmittedContract(input.job, w, fx, result)
  {
    fx := Nothing;
    if input.Invalid? {
      return ErrorReply(ValidationPrefix + input.detail), fx;
    }
    var job := input.job;
    var triggerHandler: Option<TriggerHandler> := None;
    if job.trigger.Some? {
      var created := CreateTriggerHandler(SupabaseTrigger(job.trigger.value), w.env);
      if created.Raised? {
        return ErrorReply(TriggerPrefix + created.error), fx;
      }
      triggerHandler := Some(created.value);
    }
    result, fx := RunAdmitted(job, triggerHandler, w);
  }
}

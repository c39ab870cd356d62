/** The job's typed records (src/job.py): the inputs a job brings, its output
    configuration and the base of its trigger. Each record has the parser that
    its field declarations stand for: required fields of the declared type,
    unknown keys ignored. */
module Job {
  import opened Py

  /** An inline image: a file name and its base64 text. */
  datatype ComfyImageInput = ComfyImageInput(name: string, image: string)

  /** A file to fetch from `url` and upload under `name`. */
  datatype ComfyFileUrlInput = ComfyFileUrlInput(name: string, url: string)

  /** The two publishing modes a job may ask for. */
  datatype OutputType = S3 | Url

  /** Where and how a job's outputs are published. */
  datatype ComfyOutput = ComfyOutput(outputType: OutputType, bucket: string, endpointUrl: string, keyPrefix: string)

  /** The fields every trigger has. `multiple_result` is declared as a string but
      defaults to the boolean False, so the model keeps it as a `Value`. */
  datatype JobTrigger = JobTrigger(service: string, multipleResult: Value := Bool(false))

  /** The string under `key` of a dict value, if the value is a dict and that entry is a string. */
  function StrField(v: Value, key: string): Option<string> {
    if v.Dict? && DictGet(v.entries, key).Str? then Some(DictGet(v.entries, key).s) else None
  }

  /** Validation of a ComfyImageInput: a dict whose `name` and `image` are strings. */
  function ImageInputOf(v: Value): (r: Option<ComfyImageInput>)
    ensures r.Some? <==> v.Dict? && DictGet(v.entries, "name").Str? && DictGet(v.entries, "image").Str?
    ensures r.Some? ==> (DictGet(v.entries, "name") == Str(r.value.name)
                      && DictGet(v.entries, "image") == Str(r.value.image))
  {
    match (StrField(v, "name"), StrField(v, "image"))
    case (Some(n), Some(i)) => Some(ComfyImageInput(n, i))
    case _ => None
  }

  /** Validation of a ComfyFileUrlInput: a dict whose `name` and `url` are strings. */
  function FileUrlInputOf(v: Value): (r: Option<ComfyFileUrlInput>)
    ensures r.Some? <==> v.Dict? && DictGet(v.entries, "name").Str? && DictGet(v.entries, "url").Str?
    ensures r.Some? ==> (DictGet(v.entries, "name") == Str(r.value.name)
                      && DictGet(v.entries, "url") == Str(r.value.url))
  {
    match (StrField(v, "name"), StrField(v, "url"))
    case (Some(n), Some(u)) => Some(ComfyFileUrlInput(n, u))
    case _ => None
  }

  /** The `Literal["s3", "url"]` restriction on the output type. */
  function OutputTypeOf(v: Value): (r: Option<OutputType>)
    ensures r == Some(S3) <==> v == Str("s3")
    ensures r == Some(Url) <==> v == Str("url")
  {
    if v == Str("s3") then Some(S3) else if v == Str("url") then Some(Url) else None
  }

  /** Validation of a ComfyOutput: a known type and string bucket, endpoint and key prefix. */
  function ComfyOutputOf(v: Value): (r: Option<ComfyOutput>)
    ensures r.Some? <==> (v.Dict? && OutputTypeOf(DictGet(v.entries, "type")).Some?
                       && StrField(v, "bucket").Some? && StrField(v, "endpoint_url").Some?
                       && StrField(v, "key_prefix").Some?)
    ensures r.Some? ==> Some(r.value.outputType) == OutputTypeOf(DictGet(v.entries, "type"))
    ensures r.Some? ==> (DictGet(v.entries, "bucket") == Str(r.value.bucket)
                      && DictGet(v.entries, "endpoint_url") == Str(r.value.endpointUrl)
                      && DictGet(v.entries, "key_prefix") == Str(r.value.keyPrefix))
  {
    if v.Dict? then
      match (OutputTypeOf(DictGet(v.entries, "type")), StrField(v, "bucket"),
             StrField(v, "endpoint_url"), StrField(v, "key_prefix"))
      case (Some(t), Some(b), Some(e), Some(k)) => Some(ComfyOutput(t, b, e, k))
      case _ => None
    else None
  }

  /** Validation of the trigger base: `service` is a required string, and
      `multiple_result`, when given, is a string; when absent it is False. */
  function JobTriggerOf(v: Value): (r: Option<JobTrigger>)
    ensures r.Some? ==> v.Dict? && DictGet(v.entries, "service") == Str(r.value.service)
    ensures r.Some? && Lookup(v.entries, "multiple_result").None? ==> r.value.multipleResult == Bool(false)
    ensures r.Some? && Lookup(v.entries, "multiple_result").Some? ==>
      r.value.multipleResult == DictGet(v.entries, "multiple_result")
    ensures r.Some? <==> (StrField(v, "service").Some?
                       && (Lookup(v.entries, "multiple_result").None? || DictGet(v.entries, "multiple_result").Str?))
  {
    match StrField(v, "service")
    case None => None
    case Some(service) =>
      match Lookup(v.entries, "multiple_result")
      case None => Some(JobTrigger(service))
      case Some(m) => if m.Str? then Some(JobTrigger(service, m)) else None
  }

  /** A trigger given only its service gets the documented default for `multiple_result`. */
  lemma JobTriggerDefault(service: string)
    ensures JobTriggerOf(Dict([("service", Str(service))])) == Some(JobTrigger(service, Bool(false)))
  {
  }
}

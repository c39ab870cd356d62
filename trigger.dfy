/** Choosing and validating the handler for a job's trigger (src/trigger.py), and the
    trigger-handler interface of src/job.py with its two operations, `validate` and
    `handle`, closed over the one implementation there is. */
module Trigger {
  import opened Py
  import opened Job
  import opened Supabase

  /** A trigger as `create_trigger_handler` may receive it: a Supabase trigger, or a
      trigger of some other service built on the base fields only. */
  datatype AnyJobTrigger = SupabaseTrigger(supabase: SupabaseJobTrigger) | OtherTrigger(other: JobTrigger)

  /** A trigger handler. Adding a service adds a variant here and nothing elsewhere. */
  datatype TriggerHandler = SupabaseHandler(handler: SupabaseTriggerHandler)
  {
    /** `validate()`: raises unless the environment holds what the handler needs. */
    function Validate(env: map<string, string>): (r: Outcome<()>)
      ensures r.Returned? <==> handler.UrlKey() in env && handler.KeyKey() in env
    {
      match this
      case SupabaseHandler(h) => h.Validate(env)
    }

    /** `handle(output)`: notifies the service of a finished job's serialized output. */
    method Handle(output: string, env: map<string, string>, execute: (string, string, UpdateRequest) -> ClientReply)
      returns (request: Option<UpdateRequest>, r: Outcome<string>)
      ensures request.Some? <==> Validate(env).Returned?
      ensures request.Some? ==> var q := request.value;
        && q.table == handler.trigger.table && q.column == handler.trigger.idField && q.value == handler.trigger.id
        && q.data.Keys == {handler.trigger.outputField}
                          + (if handler.trigger.SetsStatus() then {handler.trigger.statusField.value} else {})
        && (!handler.trigger.SetsStatus() || handler.trigger.statusField.value != handler.trigger.outputField ==>
              q.data[handler.trigger.outputField] == output)
        && (handler.trigger.SetsStatus() ==> q.data[handler.trigger.statusField.value] == handler.trigger.status.value)
      ensures request.Some? ==>
        match execute(env[handler.UrlKey()], env[handler.KeyKey()], request.value)
        case Executed(json) => r == Returned(json)
        case ClientFailed(reason) => r == Raised(reason)
      ensures request.None? ==> r.Raised?
    {
      match this
      case SupabaseHandler(h) =>
        request, r := h.Handle(output, env, execute);
    }
  }

  /** Selects the handler for the trigger's service and validates it before handing it out:
      a Supabase trigger gets a Supabase handler around that same trigger, provided its
      credentials are in the environment; any other trigger raises "Unsupported service". */
  function CreateTriggerHandler(trigger: AnyJobTrigger, env: map<string, string>): (r: Outcome<TriggerHandler>)
    ensures trigger.OtherTrigger? ==> r == Raised("Unsupported service")
    ensures r.Returned? ==> trigger.SupabaseTrigger? && r.value == SupabaseHandler(SupabaseTriggerHandler(trigger.supabase))
    ensures r.Returned? ==> r.value.Validate(env).Returned?
    ensures trigger.SupabaseTrigger? ==>
      (r.Returned? <==> SupabaseTriggerHandler(trigger.supabase).Validate(env).Returned?)
    ensures trigger.SupabaseTrigger? && r.Raised? ==>
      r.error == SupabaseTriggerHandler(trigger.supabase).Validate(env).error
  {
    match trigger
    case SupabaseTrigger(t) =>
      var handler := SupabaseHandler(SupabaseTriggerHandler(t));
      (match handler.Validate(env)
       case Raised(e) => Raised(e)
       case Returned(_) => Returned(handler))
    case OtherTrigger(_) => Raised("Unsupported service")
  }
}

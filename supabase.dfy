/** The database-update trigger (src/supabase.py): its configuration record, the
    check that its credentials are in the environment, and the update it issues
    once a job has finished. */
module Supabase {
  import opened Py
  import opened Job

  /** A Supabase trigger: the base trigger fields plus where to write the result. */
  datatype SupabaseJobTrigger = SupabaseJobTrigger(
    base: JobTrigger,
    keyPrefix: string,
    table: string,
    idField: string,
    outputField: string,
    statusField: Option<string>,
    id: string,
    status: Option<string>)
  {
    /** The field constraints: the service tag is the literal "supabase" and the key prefix is not empty. */
    predicate Valid() {
      base.service == "supabase" && |keyPrefix| >= 1
    }

    /** `status_field and status`: both given and neither empty. */
    predicate SetsStatus() {
      statusField.Some? && statusField.value != "" && status.Some? && status.value != ""
    }
  }

  /** `str | None` field with no default: the key is required, its value a string or null. */
  function OptStrField(v: Value, key: string): Option<Option<string>>
    requires v.Dict?
  {
    match Lookup(v.entries, key)
    case Some(Str(s)) => Some(Some(s))
    case Some(Null) => Some(None)
    case _ => None
  }

  /** Validation of a Supabase trigger record. */
  function SupabaseJobTriggerOf(v: Value): (r: Option<SupabaseJobTrigger>)
    ensures r.Some? ==> r.value.Valid()
    ensures r.Some? ==> (v.Dict? && DictGet(v.entries, "table") == Str(r.value.table)
                      && DictGet(v.entries, "id_field") == Str(r.value.idField)
                      && DictGet(v.entries, "output_field") == Str(r.value.outputField)
                      && DictGet(v.entries, "id") == Str(r.value.id))
    ensures r.Some? ==> (v.Dict? && Lookup(v.entries, "status_field").Some? && Lookup(v.entries, "status").Some?)
    ensures r.Some? ==> (v.Dict? && JobTriggerOf(v) == Some(r.value.base)
                      && DictGet(v.entries, "key_prefix") == Str(r.value.keyPrefix)
                      && OptStrField(v, "status_field") == Some(r.value.statusField)
                      && OptStrField(v, "status") == Some(r.value.status))
    ensures r.Some? <==> (v.Dict? && JobTriggerOf(v).Some? && JobTriggerOf(v).value.service == "supabase"
                       && StrField(v, "key_prefix").Some? && |StrField(v, "key_prefix").value| >= 1
                       && StrField(v, "table").Some? && StrField(v, "id_field").Some?
                       && StrField(v, "output_field").Some? && StrField(v, "id").Some?
                       && OptStrField(v, "status_field").Some? && OptStrField(v, "status").Some?)
    ensures StrField(v, "service") != Some("supabase") ==> r.None?
    ensures StrField(v, "key_prefix") == Some("") ==> r.None?
  {
    match JobTriggerOf(v)
    case None => None
    case Some(base) =>
      match (StrField(v, "key_prefix"), StrField(v, "table"), StrField(v, "id_field"),
             StrField(v, "output_field"), OptStrField(v, "status_field"), StrField(v, "id"),
             OptStrField(v, "status"))
      case (Some(k), Some(t), Some(f), Some(o), Some(sf), Some(i), Some(s)) =>
        var trigger := SupabaseJobTrigger(base, k, t, f, o, sf, i, s);
        if trigger.Valid() then Some(trigger) else None
      case _ => None
  }

  /** The update sent to the database: set `data` on the rows of `table` whose `column` equals `value`. */
  datatype UpdateRequest = UpdateRequest(table: string, data: map<string, string>, column: string, value: string)

  /** What the database client did with an update: its response as JSON text, or the exception it raised. */
  datatype ClientReply = Executed(json: string) | ClientFailed(reason: string)

  /** The handler for one Supabase trigger. */
  datatype SupabaseTriggerHandler = SupabaseTriggerHandler(trigger: SupabaseJobTrigger)
  {
    function UrlKey(): string { trigger.keyPrefix + "SUPABASE_URL" }

    function KeyKey(): string { trigger.keyPrefix + "SUPABASE_KEY" }

    /** Checks the environment for the URL and then for the key of the trigger's prefix,
        raising a ValueError that names the first one missing. */
    function Validate(env: map<string, string>): (r: Outcome<()>)
      ensures r.Returned? <==> UrlKey() in env && KeyKey() in env
      ensures UrlKey() !in env ==> r == Raised(UrlKey() + " not set in environment")
      ensures UrlKey() in env && KeyKey() !in env ==> r == Raised(KeyKey() + " not set in environment")
    {
      if UrlKey() !in env then Raised(UrlKey() + " not set in environment")
      else if KeyKey() !in env then Raised(KeyKey() + " not set in environment")
      else Returned(())
    }

    /** Writes `output` (and the configured status, when both status settings are given) to the
        trigger's row. `execute` is the database client built from the URL and key. A missing
        credential raises a KeyError; a client exception is raised again. */
    method Handle(output: string, env: map<string, string>, execute: (string, string, UpdateRequest) -> ClientReply)
      returns (request: Option<UpdateRequest>, r: Outcome<string>)
      ensures UrlKey() !in env ==> request == None && r == Raised("'" + UrlKey() + "'")
      ensures UrlKey() in env && KeyKey() !in env ==> request == None && r == Raised("'" + KeyKey() + "'")
      ensures request.Some? <==> Validate(env).Returned?
      ensures request.Some? ==> var q := request.value;
        && q.table == trigger.table && q.column == trigger.idField && q.value == trigger.id
        && trigger.outputField in q.data
        && q.data.Keys == {trigger.outputField} + (if trigger.SetsStatus() then {trigger.statusField.value} else {})
        && (trigger.SetsStatus() ==> q.data[trigger.statusField.value] == trigger.status.value)
        && (!trigger.SetsStatus() || trigger.statusField.value != trigger.outputField ==> q.data[trigger.outputField] == output)
        && (!trigger.SetsStatus() ==> q.data == map[trigger.outputField := output])
      ensures request.Some? ==>
        match execute(env[UrlKey()], env[KeyKey()], request.value)
        case Executed(json) => r == Returned(json)
        case ClientFailed(reason) => r == Raised(reason)
    {
      if UrlKey() !in env {
        return None, Raised("'" + UrlKey() + "'");
      }
      if KeyKey() !in env {
        return None, Raised("'" + KeyKey() + "'");
      }
      var url, key := env[UrlKey()], env[KeyKey()];
      var data := map[trigger.outputField := output];
      if trigger.SetsStatus() {
        data := data[trigger.statusField.value := trigger.status.value];
      }
      var q := UpdateRequest(trigger.table, data, trigger.idField, trigger.id);
      request := Some(q);
      match execute(url, key, q)
      case Executed(json) => r := Returned(json);
      case ClientFailed(reason) => r := Raised(reason);
    }
  }
}

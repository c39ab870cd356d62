/** The legacy input validation of the worker (`validate_input`, src/rp_handler.py):
    an ordered chain of checks on the raw job input, each returning its own message,
    where the first failing check decides the result. */
module Validation {
  import opened Py

  /** `(data, None)`, `(None, message)`, or an exception escaping the function. */
  datatype ValidationResult = Accepted(data: Value) | Rejected(message: string) | Crashed(error: string)

  /** The verdict of one check on a parsed payload. */
  datatype Check = Pass | Fail(message: string) | Crash(error: string)

  const NoInput := "Please provide input"
  const BadJson := "Invalid JSON format in input"
  const NoWorkflow := "Missing 'workflow' parameter"
  const BadImages := "'images' must be a list of objects with 'name' and 'image' keys"
  const BadFileUrls := "'file_urls' must be a list of objects with 'name' and 'url' keys"
  const BadOutput := "'output' must be a dictionary with 'type', 'bucket', 'endpoint_url' and 'key_prefix' keys"

  /** The keys a successful validation returns, in order. */
  const KnownKeys: seq<string> := ["workflow", "images", "file_urls", "output"]

  /** The keys an output configuration must have. */
  const OutputKeys: seq<string> := ["type", "bucket", "endpoint_url", "key_prefix"]

  /** `k1 in item and k2 in item`: the second test runs only when the first holds. */
  function ItemHas(item: Value, k1: string, k2: string): Outcome<bool> {
    match Contains(item, k1)
    case Raised(e) => Raised(e)
    case Returned(b) => if b then Contains(item, k2) else Returned(false)
  }

  /** `all(k1 in item and k2 in item for item in items)`, evaluated left to right. */
  function AllHave(items: seq<Value>, k1: string, k2: string): Outcome<bool> {
    if items == [] then Returned(true)
    else
      match ItemHas(items[0], k1, k2)
      case Returned(true) => AllHave(items[1..], k1, k2)
      case other => other
  }

  /** `all` holds exactly when every item has both keys; otherwise its verdict is that of the
      first item that does not, so an item that is no container raises only when every earlier
      item passed. */
  lemma {:induction false} AllHaveFirstFailure(items: seq<Value>, k1: string, k2: string)
    ensures AllHave(items, k1, k2) == Returned(true)
        <==> forall i :: 0 <= i < |items| ==> ItemHas(items[i], k1, k2) == Returned(true)
    ensures AllHave(items, k1, k2) != Returned(true) ==> exists k :: (0 <= k < |items|
        && (forall i :: 0 <= i < k ==> ItemHas(items[i], k1, k2) == Returned(true))
        && AllHave(items, k1, k2) == ItemHas(items[k], k1, k2))
  {
    if items != [] {
      AllHaveFirstFailure(items[1..], k1, k2);
      if ItemHas(items[0], k1, k2) == Returned(true) {
        assert forall i :: 0 < i < |items| ==> items[i] == items[1..][i - 1];
        if AllHave(items, k1, k2) != Returned(true) {
          var k :| 0 <= k < |items[1..]|
            && (forall i :: 0 <= i < k ==> ItemHas(items[1..][i], k1, k2) == Returned(true))
            && AllHave(items[1..], k1, k2) == ItemHas(items[1..][k], k1, k2);
          assert AllHave(items, k1, k2) == ItemHas(items[k + 1], k1, k2);
        }
      } else {
        assert AllHave(items, k1, k2) == ItemHas(items[0], k1, k2);
      }
    }
  }

  /** The check on `images` or `file_urls`: absent, or a list whose items all have `name` and `key`. */
  function ListCheck(v: Value, key: string, message: string): (c: Check)
    ensures c == Pass <==> (v == Null
      || (v.List? && forall i :: 0 <= i < |v.items| ==> ItemHas(v.items[i], "name", key) == Returned(true)))
    ensures c.Fail? ==> c.message == message
    ensures c.Crash? <==> v.List? && AllHave(v.items, "name", key).Raised?
    ensures c.Crash? ==> v.List? && exists k :: (0 <= k < |v.items| && ItemHas(v.items[k], "name", key) == Raised(c.error)
      && forall i :: 0 <= i < k ==> ItemHas(v.items[i], "name", key) == Returned(true))
  {
    if v == Null then Pass
    else if !v.List? then Fail(message)
    else
      AllHaveFirstFailure(v.items, "name", key);
      match AllHave(v.items, "name", key)
      case Raised(e) => Crash(e)
      case Returned(ok) => if ok then Pass else Fail(message)
  }

  /** The check on `output`: absent, or a dict holding all four output keys. The type test
      comes first, so the check never raises. */
  function OutputCheck(v: Value): (c: Check)
    ensures c == Pass <==> (v == Null
      || (v.Dict? && forall i :: 0 <= i < |OutputKeys| ==> Contains(v, OutputKeys[i]) == Returned(true)))
    ensures !c.Crash?
    ensures c.Fail? ==> c.message == BadOutput
  {
    if v == Null then Pass
    else if v.Dict? && forall k :: k in OutputKeys ==> k in Keys(v.entries) then Pass
    else Fail(BadOutput)
  }

  /** The checks on a parsed payload, in the order they run. */
  function Checks(entries: seq<(string, Value)>): seq<Check> {
    [ if DictGet(entries, "workflow") == Null then Fail(NoWorkflow) else Pass,
      ListCheck(DictGet(entries, "images"), "image", BadImages),
      ListCheck(DictGet(entries, "file_urls"), "url", BadFileUrls),
      OutputCheck(DictGet(entries, "output")) ]
  }

  /** What a failing check makes the validation return. */
  function Reported(c: Check): ValidationResult
    requires !c.Pass?
  {
    match c
    case Fail(m) => Rejected(m)
    case Crash(e) => Crashed(e)
  }

  /** What the checks run on: the input itself, or what the JSON parser makes of an input string
      (None when the text is not valid JSON). */
  function Payload(jobInput: Value, parseJson: string -> Option<Value>): Option<Value> {
    if jobInput.Str? then parseJson(jobInput.s) else Some(jobInput)
  }

  /** The checks on a dict payload: the first failing check, in the order workflow, images,
      file_urls, output, decides, and when all pass the result holds exactly the four known
      keys with the payload's values (None for absent ones), every other key dropped. */
  function ValidateEntries(es: seq<(string, Value)>): (r: ValidationResult)
    ensures r.Accepted? <==> forall k :: 0 <= k < |Checks(es)| ==> Checks(es)[k] == Pass
    ensures r.Accepted? ==> (r.data.Dict? && Keys(r.data.entries) == KnownKeys
      && forall i :: 0 <= i < |KnownKeys| ==> r.data.entries[i].1 == DictGet(es, KnownKeys[i]))
    ensures !r.Accepted? ==> exists k :: (0 <= k < |Checks(es)| && (forall j :: 0 <= j < k ==> Checks(es)[j] == Pass)
                                         && !Checks(es)[k].Pass? && r == Reported(Checks(es)[k]))
  {
    var cs := Checks(es);
    var workflow := DictGet(es, "workflow");
    if workflow == Null then
      assert !cs[0].Pass?;
      Rejected(NoWorkflow)
    else
      var images := DictGet(es, "images");
      if !cs[1].Pass? then Reported(cs[1])
      else
        var fileUrls := DictGet(es, "file_urls");
        if !cs[2].Pass? then Reported(cs[2])
        else
          var output := DictGet(es, "output");
          if !cs[3].Pass? then Rejected(BadOutput)
          else
            Accepted(Dict([("workflow", workflow), ("images", images),
                           ("file_urls", fileUrls), ("output", output)]))
  }

  /** `validate_input`. A missing input and unparsable JSON are reported first, and a payload
      that is not a dict makes `.get` raise; a dict payload goes through the checks. */
  function ValidateInput(jobInput: Value, parseJson: string -> Option<Value>): (r: ValidationResult)
    ensures jobInput == Null ==> r == Rejected(NoInput)
    ensures jobInput.Str? && parseJson(jobInput.s).None? ==> r == Rejected(BadJson)
    ensures jobInput != Null && Payload(jobInput, parseJson).Some? && !Payload(jobInput, parseJson).value.Dict? ==>
      r == Crashed(NoAttribute(Payload(jobInput, parseJson).value, "get"))
    ensures jobInput != Null && Payload(jobInput, parseJson).Some? && Payload(jobInput, parseJson).value.Dict? ==>
      r == ValidateEntries(Payload(jobInput, parseJson).value.entries)
  {
    if jobInput == Null then Rejected(NoInput)
    else
      match Payload(jobInput, parseJson)
      case None => Rejected(BadJson)
      case Some(payload) =>
        if !payload.Dict? then Crashed(NoAttribute(payload, "get"))
        else ValidateEntries(payload.entries)
  }

  /** An input without a workflow is rejected with the workflow message, whatever else it holds. */
  lemma MissingWorkflowRejected(entries: seq<(string, Value)>, parseJson: string -> Option<Value>)
    requires Lookup(entries, "workflow").None?
    ensures ValidateInput(Dict(entries), parseJson) == Rejected(NoWorkflow)
  {
  }
}

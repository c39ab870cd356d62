/** The parts of Python's built-in behaviour that the worker relies on: JSON-shaped
    values as `json.loads` produces them, the `in` operator, truthiness, exceptions,
    and the `str` and `os.path` helpers the worker calls. */
module Py {

  datatype Option<+T> = None | Some(value: T)

  /** A call that either returned `value` or raised an exception whose `str()` is `error`. */
  datatype Outcome<+T> = Returned(value: T) | Raised(error: string)

  /** A JSON-shaped Python value. A `Dict` keeps its entries in insertion order
      (Python dicts iterate in that order). Distinct keys are not enforced; a lookup
      takes the first entry with the key. Floats are not modelled. */
  datatype Value =
    | Null
    | Bool(b: bool)
    | Int(i: int)
    | Str(s: string)
    | List(items: seq<Value>)
    | Dict(entries: seq<(string, Value)>)

  /** `type(v).__name__`, as it appears in Python's error messages. */
  function TypeName(v: Value): string {
    match v
    case Null => "NoneType"
    case Bool(_) => "bool"
    case Int(_) => "int"
    case Str(_) => "str"
    case List(_) => "list"
    case Dict(_) => "dict"
  }

  /** Looks `key` up among a dict's entries. */
  function Lookup(entries: seq<(string, Value)>, key: string): (r: Option<Value>)
    ensures r.Some? <==> exists i :: 0 <= i < |entries| && entries[i].0 == key
    ensures r.Some? ==> exists i :: 0 <= i < |entries| && entries[i] == (key, r.value)
  {
    if entries == [] then None
    else if entries[0].0 == key then Some(entries[0].1)
    else
      var r := Lookup(entries[1..], key);
      assert forall i :: 0 < i < |entries| ==> entries[i] == entries[1..][i - 1];
      r
  }

  /** `d.get(key)`: the value under `key`, or None when the key is absent. */
  function DictGet(entries: seq<(string, Value)>, key: string): Value {
    match Lookup(entries, key)
    case Some(v) => v
    case None => Null
  }

  /** The keys of a dict, in iteration order. */
  function Keys(entries: seq<(string, Value)>): (ks: seq<string>)
    ensures |ks| == |entries|
    ensures forall i :: 0 <= i < |entries| ==> ks[i] == entries[i].0
  {
    seq(|entries|, i requires 0 <= i < |entries| => entries[i].0)
  }

  /** `p in s` for two strings: `p` occurs in `s` as a contiguous substring. */
  predicate IsSubstring(p: string, s: string)
    decreases |s|
  {
    p <= s || (s != [] && IsSubstring(p, s[1..]))
  }

  /** Python's `key in container` for a string `key`: key membership for a dict,
      substring search for a string, element equality for a list, and a TypeError
      for every other type. */
  function Contains(container: Value, key: string): (r: Outcome<bool>)
    ensures r.Raised? <==> !(container.Dict? || container.Str? || container.List?)
    ensures container.Dict? ==> r == Returned(key in Keys(container.entries))
  {
    match container
    case Dict(es) => Returned(Lookup(es, key).Some?)
    case Str(s) => Returned(IsSubstring(key, s))
    case List(items) => Returned(Str(key) in items)
    case _ => Raised("argument of type '" + TypeName(container) + "' is not iterable")
  }

  /** The message of the AttributeError raised when `v` lacks the method `attr`. */
  function NoAttribute(v: Value, attr: string): string {
    "'" + TypeName(v) + "' object has no attribute '" + attr + "'"
  }

  /** Python truthiness of a JSON-shaped value. */
  predicate Truthy(v: Value) {
    match v
    case Null => false
    case Bool(b) => b
    case Int(i) => i != 0
    case Str(s) => s != ""
    case List(items) => items != []
    case Dict(es) => es != []
  }

  // ---------------------------------------------------------------------------
  // str methods

  function IndexOf(s: string, c: char): (i: nat)
    requires c in s
    ensures i < |s| && s[i] == c && c !in s[..i]
  {
    if s[0] == c then 0 else 1 + IndexOf(s[1..], c)
  }

  /** `s.split(c)` for a one-character separator: never empty, and no part holds `c`. */
  function Split(s: string, c: char): (parts: seq<string>)
    ensures |parts| >= 1
    ensures forall i :: 0 <= i < |parts| ==> c !in parts[i]
    decreases |s|
  {
    if c in s then
      var i := IndexOf(s, c);
      [s[..i]] + Split(s[i + 1..], c)
    else
      [s]
  }

  /** `c.join(parts)` for a one-character string `c`. */
  function Join(parts: seq<string>, c: char): string {
    if |parts| == 0 then ""
    else if |parts| == 1 then parts[0]
    else parts[0] + [c] + Join(parts[1..], c)
  }

  /** Joining the parts of a split with the same separator gives back the string. */
  lemma {:induction false} JoinSplit(s: string, c: char)
    ensures Join(Split(s, c), c) == s
    decreases |s|
  {
    if c in s {
      var i := IndexOf(s, c);
      var rest := Split(s[i + 1..], c);
      assert Split(s, c) == [s[..i]] + rest;
      assert ([s[..i]] + rest)[1..] == rest;
      JoinSplit(s[i + 1..], c);
      assert s == s[..i] + [c] + s[i + 1..];
    }
  }

  /** `s.split(c)[-1]`: what follows the last `c`. */
  function LastSegment(s: string, c: char): string {
    var parts := Split(s, c);
    parts[|parts| - 1]
  }

  /** `c.join(s.split(c)[:-1])`: what precedes the last `c`, or "" when there is none. */
  function AllButLastSegment(s: string, c: char): string {
    var parts := Split(s, c);
    Join(parts[..|parts| - 1], c)
  }

  /** The two halves of a split at the last separator put the string back together. */
  lemma {:induction false} LastSegmentSplit(s: string, c: char)
    ensures c !in LastSegment(s, c)
    ensures c in s ==> s == AllButLastSegment(s, c) + [c] + LastSegment(s, c)
    ensures c !in s ==> AllButLastSegment(s, c) == "" && LastSegment(s, c) == s
    decreases |s|, 1
  {
    if c in s {
      LastSegmentSplitAt(s, c);
    }
  }

  lemma {:induction false} LastSegmentSplitAt(s: string, c: char)
    requires c in s
    ensures s == AllButLastSegment(s, c) + [c] + LastSegment(s, c)
    decreases |s|, 0
  {
    var i := IndexOf(s, c);
    var pre, post := s[..i], s[i + 1..];
    var parts, rest := Split(s, c), Split(post, c);
    assert parts == [pre] + rest;
    LastOfParts(parts, pre, rest, c);
    if c in post {
      LastSegmentSplit(post, c);
      SplitTwoOrMore(post, c);
      Reassociate(pre, c, post, AllButLastSegment(post, c), LastSegment(post, c));
    } else {
      assert rest == [post];
    }
    assert s == pre + [c] + post;
  }

  /** A string holding the separator splits into two parts or more. */
  lemma SplitTwoOrMore(s: string, c: char)
    requires c in s
    ensures |Split(s, c)| >= 2
  {
    var i := IndexOf(s, c);
    assert Split(s, c) == [s[..i]] + Split(s[i + 1..], c);
  }

  /** The last part and the joined earlier parts of a list of parts with a first part in front. */
  lemma LastOfParts(parts: seq<string>, pre: string, rest: seq<string>, c: char)
    requires parts == [pre] + rest && |rest| >= 1
    ensures parts[|parts| - 1] == rest[|rest| - 1]
    ensures |rest| == 1 ==> Join(parts[..|parts| - 1], c) == pre
    ensures |rest| >= 2 ==> Join(parts[..|parts| - 1], c) == pre + [c] + Join(rest[..|rest| - 1], c)
  {
    var init := rest[..|rest| - 1];
    assert parts[..|parts| - 1] == [pre] + init;
    assert ([pre] + init)[1..] == init;
  }

  lemma Reassociate(pre: string, c: char, post: string, init: string, last: string)
    requires post == init + [c] + last
    ensures pre + [c] + post == (pre + [c] + init) + [c] + last
  {
  }

  /** `s.rstrip(c)` for one character: the longest prefix not ending in `c`. */
  function RStrip(s: string, c: char): (r: string)
    ensures r <= s
    ensures r == [] || r[|r| - 1] != c
    ensures forall i :: |r| <= i < |s| ==> s[i] == c
  {
    if s != [] && s[|s| - 1] == c then RStrip(s[..|s| - 1], c) else s
  }

  /** `s.lower()` restricted to ASCII letters. */
  function Lower(s: string): (r: string)
    ensures |r| == |s|
  {
    seq(|s|, i requires 0 <= i < |s| => if 'A' <= s[i] <= 'Z' then (s[i] as int + 32) as char else s[i])
  }

  /** Decimal text of a natural number, as f"{n}" prints it. */
  function NatToString(n: nat): (r: string)
    ensures |r| >= 1
    ensures forall i :: 0 <= i < |r| ==> '0' <= r[i] <= '9'
  {
    if n < 10 then ["0123456789"[n]] else NatToString(n / 10) + ["0123456789"[n % 10]]
  }

  // ---------------------------------------------------------------------------
  // os.path and os.environ

  /** One step of `posixpath.join`: an absolute component restarts the path, and a
      separator is added unless the path is empty or already ends in one. */
  function PathJoinStep(path: string, b: string): string {
    if |b| > 0 && b[0] == '/' then b
    else if path == [] || path[|path| - 1] == '/' then path + b
    else path + "/" + b
  }

  /** `os.path.join(a, b, c)`. */
  function PathJoin(a: string, b: string, c: string): string {
    PathJoinStep(PathJoinStep(a, b), c)
  }

  /** Joining relative, non-empty components onto a root that does not end in a slash puts
      exactly one slash between each pair; an empty middle component adds nothing. */
  lemma PathJoinRelative(a: string, b: string, c: string)
    requires a != [] && a[|a| - 1] != '/'
    requires b == [] || (b[0] != '/' && b[|b| - 1] != '/')
    requires c != [] && c[0] != '/'
    ensures b != [] ==> PathJoin(a, b, c) == a + "/" + b + "/" + c
    ensures b == [] ==> PathJoin(a, b, c) == a + "/" + c
  {
  }

  /** `os.environ.get(key, default)`. */
  function EnvGet(env: map<string, string>, key: string, default: string): string {
    if key in env then env[key] else default
  }
}

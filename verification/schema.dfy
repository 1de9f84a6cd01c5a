/** The subset of zod schema checking the route handlers use: each field is
    checked in the schema's key order and the FIRST issue is the one a handler
    reports, as `${issue.path}: ${issue.message}`. Messages are those of zod's
    default error map. */
module Schema {
  import opened Wrappers
  import opened JsonValue
  import Decimal

  /** One step of an issue path: an object key or an array index. */
  datatype Segment = Key(name: string) | Index(i: nat)

  datatype Issue = Issue(path: seq<Segment>, message: string)

  function SegmentString(s: Segment): string {
    match s
    case Key(name) => name
    case Index(i) => Decimal.NatToString(i)
  }

  /** `${path}` for a path array: its elements joined with commas. */
  function PathString(path: seq<Segment>): (r: string)
    ensures path == [] ==> r == ""
    ensures |path| == 1 ==> r == SegmentString(path[0])
  {
    if |path| == 0 then ""
    else if |path| == 1 then SegmentString(path[0])
    else PathString(path[..|path| - 1]) + "," + SegmentString(path[|path| - 1])
  }

  /** The text a handler returns for a failed parse: `${path}: ${message}`. */
  function Report(issue: Issue): string {
    PathString(issue.path) + ": " + issue.message
  }

  /** zod's name for the type of a parsed value; `undefined` for an absent one. */
  function TypeName(v: Option<Json>): string {
    match v
    case None => "undefined"
    case Some(JNull) => "null"
    case Some(JBool(_)) => "boolean"
    case Some(JNumber(_)) => "number"
    case Some(JString(_)) => "string"
    case Some(JArray(_)) => "array"
    case Some(JObject(_)) => "object"
  }

  /** The issue for a value of the wrong type: `Required` when it is absent. */
  function TypeIssue(path: seq<Segment>, expected: string, v: Option<Json>): (r: Issue)
    ensures r.path == path
    ensures v.None? <==> r.message == "Required"
  {
    if v.None? then Issue(path, "Required")
    else Issue(path, "Expected " + expected + ", received " + TypeName(v))
  }

  function ExpectString(path: seq<Segment>, v: Option<Json>): (r: Result<string, Issue>)
    ensures r.Success? <==> v.Some? && v.value.JString?
    ensures r.Success? ==> v == Some(JString(r.value))
    ensures r.Failure? ==> r.error.path == path
  {
    if v.Some? && v.value.JString? then Success(v.value.s) else Failure(TypeIssue(path, "string", v))
  }

  function ExpectNumber(path: seq<Segment>, v: Option<Json>): (r: Result<int, Issue>)
    ensures r.Success? <==> v.Some? && v.value.JNumber?
    ensures r.Success? ==> v == Some(JNumber(r.value))
    ensures r.Failure? ==> r.error.path == path
  {
    if v.Some? && v.value.JNumber? then Success(v.value.n) else Failure(TypeIssue(path, "number", v))
  }

  function ExpectBool(path: seq<Segment>, v: Option<Json>): (r: Result<bool, Issue>)
    ensures r.Success? <==> v.Some? && v.value.JBool?
    ensures r.Success? ==> v == Some(JBool(r.value))
    ensures r.Failure? ==> r.error.path == path
  {
    if v.Some? && v.value.JBool? then Success(v.value.b) else Failure(TypeIssue(path, "boolean", v))
  }

  function ExpectObject(path: seq<Segment>, v: Option<Json>): (r: Result<map<string, Json>, Issue>)
    ensures r.Success? <==> v.Some? && v.value.JObject?
    ensures r.Success? ==> v == Some(JObject(r.value))
    ensures r.Failure? ==> r.error.path == path
  {
    if v.Some? && v.value.JObject? then Success(v.value.fields) else Failure(TypeIssue(path, "object", v))
  }

  function ExpectArray(path: seq<Segment>, v: Option<Json>): (r: Result<seq<Json>, Issue>)
    ensures r.Success? <==> v.Some? && v.value.JArray?
    ensures r.Success? ==> v == Some(JArray(r.value))
    ensures r.Failure? ==> r.error.path == path
  {
    if v.Some? && v.value.JArray? then Success(v.value.items) else Failure(TypeIssue(path, "array", v))
  }

  /** zod's `joinValues`: each option quoted, separated by ` | `. */
  function JoinOptions(options: seq<string>): string {
    if |options| == 0 then ""
    else if |options| == 1 then "'" + options[0] + "'"
    else JoinOptions(options[..|options| - 1]) + " | '" + options[|options| - 1] + "'"
  }

  /** `z.enum(options)`: a string equal to one of the options. */
  function ExpectEnum(path: seq<Segment>, v: Option<Json>, options: seq<string>): (r: Result<string, Issue>)
    ensures r.Success? <==> v.Some? && v.value.JString? && v.value.s in options
    ensures r.Success? ==> v == Some(JString(r.value))
    ensures r.Failure? ==> r.error.path == path
  {
    if v.Some? && v.value.JString? then
      if v.value.s in options then Success(v.value.s)
      else Failure(Issue(path, "Invalid enum value. Expected " + JoinOptions(options) + ", received '" + v.value.s + "'"))
    else Failure(TypeIssue(path, JoinOptions(options), v))
  }

  /** `.min(n)` on a string. */
  function MinLength(path: seq<Segment>, s: string, n: nat): (r: Result<string, Issue>)
    ensures r.Success? <==> |s| >= n
    ensures r.Success? ==> r.value == s
    ensures r.Failure? ==> r.error.path == path
  {
    if |s| >= n then Success(s)
    else Failure(Issue(path, "String must contain at least " + Decimal.NatToString(n) + " character(s)"))
  }

  /** `.max(n)` on a string. */
  function MaxLength(path: seq<Segment>, s: string, n: nat): (r: Result<string, Issue>)
    ensures r.Success? <==> |s| <= n
    ensures r.Success? ==> r.value == s
    ensures r.Failure? ==> r.error.path == path
  {
    if |s| <= n then Success(s)
    else Failure(Issue(path, "String must contain at most " + Decimal.NatToString(n) + " character(s)"))
  }

  /** `.refine(check, { message })`: fails with `message` when the check rejects. */
  function Refine(path: seq<Segment>, s: string, ok: bool, message: string): (r: Result<string, Issue>)
    ensures r.Success? <==> ok
    ensures r.Success? ==> r.value == s
    ensures r.Failure? ==> r.error == Issue(path, message)
  {
    if ok then Success(s) else Failure(Issue(path, message))
  }
}

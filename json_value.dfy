/**
 * Decoded JSON as `encoding/json` hands it to untyped code (`map[string]any`, `[]any`,
 * `string`, `float64`, `bool`, nil), and the accessors of package `objx` over it.
 *
 * An object is its list of members in key order, keys distinct; that is the order in which
 * `fmt` prints a map. Numbers are integers (see the README).
 */
module JsonValue {
  import opened Outcomes
  import opened GoLib

  datatype Json =
    | JNull
    | JBool(b: bool)
    | JNumber(n: int)
    | JString(s: string)
    | JArray(items: seq<Json>)
    | JObject(members: seq<(string, Json)>)

  /** The value under `key` in an object's members (the first one); `None` when the key is absent. */
  function Member(members: seq<(string, Json)>, key: string): Option<Json> {
    if |members| == 0 then None
    else if members[0].0 == key then Some(members[0].1)
    else Member(members[1..], key)
  }

  /** A key is found exactly when some member has it, and what is found is that member's value. */
  lemma {:induction false} MemberFound(members: seq<(string, Json)>, key: string)
    ensures var r := Member(members, key);
      (r.Some? <==> exists i :: 0 <= i < |members| && members[i].0 == key) &&
      (r.Some? ==> exists i :: 0 <= i < |members| && members[i] == (key, r.value))
  {
    if |members| > 0 && members[0].0 != key {
      MemberFound(members[1..], key);
      assert forall i :: 0 <= i < |members| - 1 ==> members[1..][i] == members[i + 1];
      if Member(members, key).Some? {
        var i :| 0 <= i < |members| - 1 && members[1..][i] == (key, Member(members, key).value);
        assert members[i + 1] == (key, Member(members, key).value);
      }
    }
  }

  /**
   * objx `Get` along a dotted path, given as its keys: the value reached, or `None` when a key
   * is absent or a value on the way is not an object.
   */
  function Get(v: Option<Json>, path: seq<string>): Option<Json>
    decreases |path|
  {
    if |path| == 0 then v
    else match v
      case Some(JObject(ms)) => Get(Member(ms, path[0]), path[1..])
      case _ => None
  }

  /** objx `IsNil`: absent, or JSON null. */
  predicate IsNil(v: Option<Json>) {
    v.None? || v.value.JNull?
  }

  /** objx `IsStr`. */
  predicate IsStr(v: Option<Json>) {
    v.Some? && v.value.JString?
  }

  /** objx `IsInterSlice`: a JSON array. */
  predicate IsInterSlice(v: Option<Json>) {
    v.Some? && v.value.JArray?
  }

  /** objx `Str`: the string, or "" for anything else. */
  function Str(v: Option<Json>): (r: string)
    ensures IsStr(v) ==> r == v.value.s
    ensures !IsStr(v) ==> r == ""
  {
    if IsStr(v) then v.value.s else ""
  }

  /** An `omitempty` string member of an encoded struct: left out when the string is empty. */
  function OmitEmpty(key: string, value: string): seq<(string, Json)> {
    if |value| == 0 then [] else [(key, JString(value))]
  }

  /** `fmt`'s `%v` of a decoded value (`<nil>` for nil). */
  function Show(v: Json): string
    decreases v, 1
  {
    match v
    case JNull => "<nil>"
    case JBool(b) => if b then "true" else "false"
    case JNumber(n) => IntToString(n)
    case JString(s) => s
    case JArray(items) => "[" + ShowItems(v, items) + "]"
    case JObject(ms) => "map[" + ShowMembers(v, ms) + "]"
  }

  function ShowItems(ghost parent: Json, items: seq<Json>): string
    requires forall i :: 0 <= i < |items| ==> items[i] < parent
    decreases parent, 0, |items|
  {
    if |items| == 0 then ""
    else if |items| == 1 then Show(items[0])
    else Show(items[0]) + " " + ShowItems(parent, items[1..])
  }

  function ShowMembers(ghost parent: Json, ms: seq<(string, Json)>): string
    requires forall i :: 0 <= i < |ms| ==> ms[i].1 < parent
    decreases parent, 0, |ms|
  {
    if |ms| == 0 then ""
    else
      var m := ms[0].0 + ":" + Show(ms[0].1);
      if |ms| == 1 then m else m + " " + ShowMembers(parent, ms[1..])
  }

  /** `%v` of an objx value's `Data()`: absent prints as nil. */
  function ShowData(v: Option<Json>): string {
    if v.None? then "<nil>" else Show(v.value)
  }

  /** `fmt`'s `%T` of a decoded value. */
  function TypeName(v: Json): string {
    match v
    case JNull => "<nil>"
    case JBool(_) => "bool"
    case JNumber(_) => "float64"
    case JString(_) => "string"
    case JArray(_) => "[]interface {}"
    case JObject(_) => "map[string]interface {}"
  }
}

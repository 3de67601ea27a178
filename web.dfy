/** JSON values as the browser and the route handlers see them after
    `JSON.parse`, the JavaScript operations applied to them (truthiness,
    property reads, `String(...)`, object spread), and the abstract outcome of
    one `fetch` to a backend. */
module Web {
  import opened Wrappers
  import opened Text

  /** A parsed JSON value. Numbers are integers in this model. */
  datatype Json =
    | JNull
    | JBool(b: bool)
    | JNum(n: int)
    | JStr(s: string)
    | JArr(items: seq<Json>)
    | JObj(fields: map<string, Json>)

  /** JavaScript truthiness: `null`, `false`, `0` and `""` are falsy. */
  predicate Truthy(j: Json) {
    match j
    case JNull => false
    case JBool(b) => b
    case JNum(n) => n != 0
    case JStr(s) => s != []
    case _ => true
  }

  /** `value.key` for a value that is not `null`: `undefined` (None) unless
      the value is an object holding the key. */
  function Field(j: Json, key: string): (r: Option<Json>)
    ensures r.Some? <==> j.JObj? && key in j.fields
  {
    if j.JObj? && key in j.fields then Some(j.fields[key]) else None
  }

  /** `if (data.error)`: the value has a truthy `error` property. */
  predicate HasError(data: Json) {
    Field(data, "error").Some? && Truthy(Field(data, "error").value)
  }

  /** The message of the `TypeError` thrown by reading a property of `null`. */
  function NullReadMessage(key: string): string {
    "Cannot read properties of null (reading '" + key + "')"
  }

  /** `String(value)`, which is also what a template literal and
      `new Error(value).message` produce. */
  function ToJsString(j: Json): string {
    match j
    case JNull => "null"
    case JBool(b) => if b then "true" else "false"
    case JNum(n) => IntToString(n)
    case JStr(s) => s
    case JArr(items) => ArrayToString(items)
    case JObj(_) => "[object Object]"
  }

  /** `items.join(",")`: `null` elements render as the empty string. */
  function ArrayToString(items: seq<Json>): string {
    if items == [] then ""
    else
      (if items[0] == JNull then "" else ToJsString(items[0]))
      + (if |items| == 1 then "" else "," + ArrayToString(items[1..]))
  }

  /** A template-literal rendering of a property that may be `undefined`. */
  function TemplateValue(v: Option<Json>): string {
    match v
    case None => "undefined"
    case Some(j) => ToJsString(j)
  }

  /** The keys `"0"`, ..., `"n-1"` that spreading an array into an object gives. */
  function IndexKeys(items: seq<Json>): map<string, Json>
    decreases |items|
  {
    if items == [] then map[]
    else IndexKeys(items[..|items| - 1])[NatToString(|items| - 1) := items[|items| - 1]]
  }

  /** `{...value}` for an object or an array. */
  function Spread(j: Json): map<string, Json>
    requires j.JObj? || j.JArr?
  {
    if j.JObj? then j.fields else IndexKeys(j.items)
  }

  /** `{key: value, ...rest}`: the spread entries come later and win. */
  function TaggedObject(key: string, value: Json, rest: map<string, Json>): (r: Json)
    ensures r.JObj? && r.fields.Keys == rest.Keys + {key}
    ensures forall k :: k in rest ==> r.fields[k] == rest[k]
    ensures key !in rest ==> r.fields[key] == value
  {
    JObj(map[key := value] + rest)
  }

  /** Distinct numbers have distinct decimal renderings. */
  lemma {:induction false} NatToStringInjective(a: nat, b: nat)
    requires NatToString(a) == NatToString(b)
    ensures a == b
    decreases a
  {
    if a >= 10 && b >= 10 {
      var sa, sb := NatToString(a), NatToString(b);
      assert sa[|sa| - 1] == sb[|sb| - 1];
      assert DigitChar(a % 10) == DigitChar(b % 10);
      assert sa[..|sa| - 1] == NatToString(a / 10);
      assert sb[..|sb| - 1] == NatToString(b / 10);
      NatToStringInjective(a / 10, b / 10);
    }
  }

  /** The key of each index holds that element. */
  lemma {:induction false} IndexKeysAt(items: seq<Json>, i: nat)
    requires i < |items|
    ensures NatToString(i) in IndexKeys(items)
    ensures IndexKeys(items)[NatToString(i)] == items[i]
    decreases |items|
  {
    var n := |items| - 1;
    if i < n {
      if NatToString(i) == NatToString(n) {
        NatToStringInjective(i, n);
      }
      IndexKeysAt(items[..n], i);
    }
  }

  // ----- one call to a backend -----

  /** The body of a response: text that `JSON.parse` rejects (with the
      parser's error message), or the parsed value. */
  datatype Body = NotJson(text: string, syntaxError: string) | Parsed(value: Json)

  /** What one `fetch` came to: it threw (network failure, with the error's
      message), or the backend replied with a status and a body. */
  datatype Upstream = Threw(message: string) | Replied(status: nat, body: Body)

  /** `response.ok`. */
  predicate IsOkStatus(status: nat) {
    200 <= status <= 299
  }

  /** `response.status || 500`. */
  function StatusOr500(status: nat): (r: nat)
    ensures r != 0
    ensures status != 0 ==> r == status
  {
    if status == 0 then 500 else status
  }

  /** `error?.message || fallback`. */
  function MessageOr(message: string, fallback: string): string {
    if message == "" then fallback else message
  }

  /** The JSON response a route handler returns. */
  datatype Response = Response(status: nat, body: Json)

  /** The body `{error: message}`. */
  function ErrorBody(message: string): Json {
    JObj(map["error" := JStr(message)])
  }
}

/** The part of the org.json library the loader uses: the parsed value and
    the JSONObject / JSONArray accessors, with their throwing and defaulting
    behaviour. The text parser itself stays abstract (see `Parser`). */
module OrgJson {
  import opened Wrappers
  import JavaStrings

  /** A parsed JSON value. A number keeps the text that `Number.toString()`
      gives for the value the parser built. An object keeps its members in
      a fixed order; lookup finds the first member with the key. */
  datatype Json =
    | JNull
    | JBool(b: bool)
    | JNumber(text: string)
    | JString(s: string)
    | JArray(elems: seq<Json>)
    | JObject(members: seq<Member>)

  datatype Member = Member(key: string, value: Json)

  type JsonObject = seq<Member>

  /** `new JSONObject(text)`: `None` stands for the JSONException it throws. */
  type Parser = string -> Option<JsonObject>

  /** `opt(key)`: the value stored under `key`, if any. */
  function Opt(o: JsonObject, key: string): (r: Option<Json>)
    ensures r.None? <==> forall i :: 0 <= i < |o| ==> o[i].key != key
    ensures r.Some? ==> exists i :: 0 <= i < |o| && o[i] == Member(key, r.value)
  {
    if |o| == 0 then None
    else if o[0].key == key then Some(o[0].value)
    else
      var r := Opt(o[1..], key);
      assert forall i :: 0 <= i < |o[1..]| ==> o[1..][i] == o[i + 1];
      r
  }

  /** `optString(key)`: "" for a missing key or JSON null, otherwise the
      value's `toString()`. */
  function OptString(o: JsonObject, key: string): (r: string)
    ensures Opt(o, key) == None || Opt(o, key) == Some(JNull) ==> r == ""
    ensures Opt(o, key).Some? && Opt(o, key).value.JString? ==> r == Opt(o, key).value.s
  {
    match Opt(o, key)
    case None => ""
    case Some(JNull) => ""
    case Some(v) => ToString(v)
  }

  /** `getString(key)`: the string stored under `key`; JSONException when the
      key is missing or its value is not a string. */
  function GetString(o: JsonObject, key: string): (r: Result<string>)
    ensures r.Ok? <==> Opt(o, key).Some? && Opt(o, key).value.JString?
    ensures r.Ok? ==> r.value == Opt(o, key).value.s
    ensures r.Err? ==> r.error == JsonException
  {
    match Opt(o, key)
    case Some(JString(s)) => Ok(s)
    case _ => Err(JsonException)
  }

  /** `optJSONObject(key)`: the object stored under `key`, else none (JSON
      null is not an object). */
  function OptObject(o: JsonObject, key: string): (r: Option<JsonObject>)
    ensures r.Some? <==> Opt(o, key).Some? && Opt(o, key).value.JObject?
    ensures r.Some? ==> r.value == Opt(o, key).value.members
  {
    match Opt(o, key)
    case Some(JObject(ms)) => Some(ms)
    case _ => None
  }

  /** `optJSONArray(key)`: the array stored under `key`, else none. */
  function OptArray(o: JsonObject, key: string): (r: Option<seq<Json>>)
    ensures r.Some? <==> Opt(o, key).Some? && Opt(o, key).value.JArray?
    ensures r.Some? ==> r.value == Opt(o, key).value.elems
  {
    match Opt(o, key)
    case Some(JArray(a)) => Some(a)
    case _ => None
  }

  /** `getJSONObject(key)`: JSONException unless `key` holds an object. */
  function GetObject(o: JsonObject, key: string): (r: Result<JsonObject>)
    ensures r.Ok? <==> OptObject(o, key).Some?
    ensures r.Ok? ==> r.value == OptObject(o, key).value
    ensures r.Err? ==> r.error == JsonException
  {
    match Opt(o, key)
    case Some(JObject(ms)) => Ok(ms)
    case _ => Err(JsonException)
  }

  /** `JSONArray.getString(i)`: JSONException when `i` is out of range or the
      element is not a string. */
  function ElementString(a: seq<Json>, i: int): (r: Result<string>)
    ensures r.Ok? <==> 0 <= i < |a| && a[i].JString?
    ensures r.Ok? ==> r.value == a[i].s
    ensures r.Err? ==> r.error == JsonException
  {
    if 0 <= i < |a| && a[i].JString? then Ok(a[i].s) else Err(JsonException)
  }

  /** `JSONArray.getJSONObject(i)`: JSONException unless element `i` exists
      and is an object. */
  function ElementObject(a: seq<Json>, i: int): (r: Result<JsonObject>)
    ensures r.Ok? <==> 0 <= i < |a| && a[i].JObject?
    ensures r.Ok? ==> r.value == a[i].members
    ensures r.Err? ==> r.error == JsonException
  {
    if 0 <= i < |a| && a[i].JObject? then Ok(a[i].members) else Err(JsonException)
  }

  /** `getString` and `optString` agree on a string value; `optString` also
      turns a number into its text where `getString` throws. */
  lemma OptStringAgreesWithGetString(o: JsonObject, key: string)
    ensures GetString(o, key).Ok? ==> OptString(o, key) == GetString(o, key).value
    ensures Opt(o, key).Some? && Opt(o, key).value.JNumber? ==>
      GetString(o, key) == Err(JsonException) && OptString(o, key) == Opt(o, key).value.text
  {
  }

  /** A missing key and a JSON null behave alike: no accessor finds a value,
      the throwing ones throw JSONException and `optString` gives "". */
  lemma AbsentOrNullHoldsNothing(o: JsonObject, key: string)
    requires Opt(o, key).None? || Opt(o, key) == Some(JNull)
    ensures OptObject(o, key).None? && OptArray(o, key).None?
    ensures GetObject(o, key) == Err(JsonException) && GetString(o, key) == Err(JsonException)
    ensures OptString(o, key) == ""
  {
  }

  /** A stored value has one kind: at most one of the typed accessors finds it. */
  lemma ValueHasOneKind(o: JsonObject, key: string)
    ensures OptObject(o, key).Some? ==> OptArray(o, key).None? && GetString(o, key).Err?
    ensures OptArray(o, key).Some? ==> GetObject(o, key).Err? && GetString(o, key).Err?
    ensures GetString(o, key).Ok? ==> OptObject(o, key).None? && OptArray(o, key).None?
  {
  }

  /** `JSONArray.getString(i)` and `getJSONObject(i)` accept and reject
      element `i` exactly as the JSONObject accessors accept and reject the
      same value stored under a key; an index out of range throws. */
  lemma ElementAccessorsMatchObject(a: seq<Json>, i: int, key: string)
    ensures 0 <= i < |a| ==>
      ElementString(a, i) == GetString([Member(key, a[i])], key)
      && ElementObject(a, i) == GetObject([Member(key, a[i])], key)
    ensures !(0 <= i < |a|) ==>
      ElementString(a, i) == Err(JsonException) && ElementObject(a, i) == Err(JsonException)
  {
  }

  /** `toString()` of a stored value: a string is itself, a number its own
      text, objects and arrays their compact JSON text. */
  function ToString(v: Json): string {
    match v
    case JString(s) => s
    case JNumber(t) => t
    case _ => Write(v)
  }

  /** The compact JSON text `JSONObject.toString()` / `JSONArray.toString()`
      write for a value (members in the value's own order). */
  function Write(v: Json): string
    decreases v
  {
    match v
    case JNull => "null"
    case JBool(b) => if b then "true" else "false"
    case JNumber(t) => NumberToString(t)
    case JString(s) => Quote(s)
    case JArray(elems) =>
      "[" + Join(seq(|elems|, i requires 0 <= i < |elems| => Write(elems[i]))) + "]"
    case JObject(ms) =>
      "{" + Join(seq(|ms|, i requires 0 <= i < |ms| => Quote(ms[i].key) + ":" + Write(ms[i].value))) + "}"
  }

  /** The parts separated by commas. */
  function Join(parts: seq<string>): string {
    if |parts| == 0 then ""
    else if |parts| == 1 then parts[0]
    else parts[0] + "," + Join(parts[1..])
  }

  /** `JSONObject.numberToString`: a decimal without exponent loses its
      trailing zeros and then a trailing point. */
  function NumberToString(t: string): string {
    if JavaStrings.IndexOf(t, '.') > 0 && 'e' !in t && 'E' !in t
    then DropTrailing(DropTrailing(t, '0', |t|), '.', 1)
    else t
  }

  /** Removes up to `n` copies of `c` from the end of `t`. */
  function DropTrailing(t: string, c: char, n: nat): string
    decreases n
  {
    if n > 0 && |t| > 0 && t[|t| - 1] == c then DropTrailing(t[..|t| - 1], c, n - 1) else t
  }

  /** `JSONObject.quote`: the string in double quotes with JSON escapes. */
  function Quote(s: string): string {
    "\"" + QuoteFrom(s, 0 as char) + "\""
  }

  /** Escapes `s`, `prev` being the character just before it. */
  function QuoteFrom(s: string, prev: char): string
    decreases |s|
  {
    if |s| == 0 then "" else Escape(prev, s[0]) + QuoteFrom(s[1..], s[0])
  }

  /** How `quote` writes the character `c` that follows `prev`. */
  function Escape(prev: char, c: char): string {
    if c == '\\' || c == '"' then ['\\', c]
    else if c == '/' then (if prev == '<' then "\\/" else "/")
    else if c == 8 as char then "\\b"
    else if c == '\t' then "\\t"
    else if c == '\n' then "\\n"
    else if c == 12 as char then "\\f"
    else if c == '\r' then "\\r"
    else if c < ' ' || (0x80 as char <= c < 0xa0 as char) || (0x2000 as char <= c < 0x2100 as char)
    then "\\u" + Hex4(c as int % 0x1_0000)
    else [c]
  }

  /** Four lower-case hexadecimal digits of `n`. */
  function Hex4(n: nat): string
    requires n < 0x1_0000
  {
    [HexDigit(n / 0x1000), HexDigit(n / 0x100 % 16), HexDigit(n / 16 % 16), HexDigit(n % 16)]
  }

  function HexDigit(d: nat): char
    requires d < 16
  {
    "0123456789abcdef"[d]
  }
}

/** Parsed JSON values as the mail generator receives them from its two endpoints, and the text
    JavaScript's `+` produces when such a value is concatenated to a string. */
module Json {
  import opened Common

  /** A number is carried by the decimal text JavaScript's `String()` gives it; nothing here
      computes with numbers. */
  datatype Json =
    | JNull
    | JBool(b: bool)
    | JNumber(text: string)
    | JString(s: string)
    | JArray(items: seq<Json>)
    | JObject(fields: map<string, Json>)

  /** `record[key]` on a JSON object; None stands for `undefined`. */
  function Field(fields: map<string, Json>, key: string): (r: Option<Json>)
    ensures r.Some? <==> key in fields
    ensures r.Some? ==> r.value == fields[key]
  {
    if key in fields then Some(fields[key]) else None
  }

  /** `typeof record[key] === 'string' ? record[key] : undefined`. */
  function StringField(fields: map<string, Json>, key: string): (r: Option<string>)
    ensures r.Some? <==> key in fields && fields[key].JString?
    ensures r.Some? ==> fields[key] == JString(r.value)
  {
    if key in fields && fields[key].JString? then Some(fields[key].s) else None
  }

  /** The text `"" + v` yields for a present value. */
  function Text(v: Json): (t: string)
    ensures v.JNull? ==> t == "null"
    ensures v.JBool? ==> t == (if v.b then "true" else "false")
    ensures v.JNumber? ==> t == v.text
    ensures v.JString? ==> t == v.s
    ensures v.JObject? ==> t == "[object Object]"
    ensures v.JArray? && v.items == [] ==> t == ""
    ensures v.JArray? && |v.items| == 1 ==> t == (if v.items[0].JNull? then "" else Text(v.items[0]))
    decreases v
  {
    match v
    case JNull => "null"
    case JBool(b) => if b then "true" else "false"
    case JNumber(t) => t
    case JString(s) => s
    case JArray(items) =>
      // Array.prototype.toString: the elements joined with ",", null elements as empty text
      Join(seq(|items|, i requires 0 <= i < |items| => if items[i].JNull? then "" else Text(items[i])), ",")
    case JObject(_) => "[object Object]"
  }

  /** The text `"" + v` yields for a possibly missing value: `undefined` prints as such. */
  function OptText(v: Option<Json>): (t: string)
    ensures v.None? ==> t == "undefined"
    ensures v.Some? && v.value.JString? ==> t == v.value.s
  {
    match v
    case None => "undefined"
    case Some(x) => Text(x)
  }

  /** `"" + v[key]` for a parsed value `v` and one of the keys `fach` and `note`: None when `v` is
      null (the access throws a TypeError); an object yields its own field or `undefined`, and every
      other value reads `undefined`, since no primitive or array has a property of those names. */
  function PropertyText(v: Json, key: string): (r: Option<string>)
    requires key == "fach" || key == "note"
    ensures r.None? <==> v.JNull?
    ensures v.JObject? ==> r == Some(OptText(Field(v.fields, key)))
    ensures !v.JObject? && !v.JNull? ==> r == Some("undefined")
  {
    match v
    case JNull => None
    case JObject(fields) => Some(OptText(Field(fields, key)))
    case _ => Some("undefined")
  }
}

/** The parsed JSON tokens the services read (Newtonsoft JToken), and the two
    conversions they apply to a token: ToString() and ToObject<bool>(). */
module Json {
  import opened Text

  /** A parsed token. Numbers are integers; an object maps each property name to
      its value. */
  datatype Json =
    | JNull
    | JBool(b: bool)
    | JNum(n: int)
    | JStr(s: string)
    | JArr(items: seq<Json>)
    | JObj(fields: map<string, Json>)

  /** The text of a JSON file: a parsed document, or text that does not
      parse. */
  datatype Content = Document(doc: Json) | Malformed

  /** obj[key] on a JObject: the property's token, or None (C# null) when the
      property is absent. A property whose value is JSON null is present. */
  function Get(fields: map<string, Json>, key: string): (r: Option<Json>)
    ensures r.Some? <==> key in fields
    ensures r.Some? ==> r.value == fields[key]
  {
    if key in fields then Some(fields[key]) else None
  }

  /** A string member as DataContractJsonSerializer reads it: the serializer
      runs no constructor or initializer, so an absent or null member leaves
      the property empty ("" in this model, C# null), and any token but a
      string makes the whole read fail (None). */
  function StringMember(fields: map<string, Json>, key: string): (r: Option<string>)
    ensures r.None? <==> key in fields && !fields[key].JStr? && !fields[key].JNull?
    ensures key in fields && fields[key].JStr? ==> r == Some(fields[key].s)
    ensures key !in fields ==> r == Some("")
  {
    if key !in fields then Some("")
    else
      match fields[key]
      case JStr(s) => Some(s)
      case JNull => Some("")
      case _ => None
  }

  /** token.ToString() for a scalar token: a string's own text, "" for null,
      "True"/"False" for a boolean and the decimal text of an integer. Arrays and
      objects render as indented JSON, which this model does not reproduce and
      maps to "". */
  function ToText(j: Json): (r: string)
    ensures j.JStr? ==> r == j.s
    ensures j.JNull? ==> r == ""
  {
    match j
    case JNull => ""
    case JBool(b) => if b then "True" else "False"
    case JNum(n) => IntToString(n)
    case JStr(s) => s
    case JArr(_) => ""
    case JObj(_) => ""
  }

  /** token?.ToString() ?? fallback: the fallback is used only when the property
      is absent. */
  function TextOr(t: Option<Json>, fallback: string): (r: string)
    ensures t.None? ==> r == fallback
    ensures t.Some? ==> r == ToText(t.value)
  {
    match t
    case None => fallback
    case Some(j) => ToText(j)
  }

  /** token.ToObject<bool>(): a boolean as is, an integer as "not zero", the
      strings "true" and "false" in any letter case and with surrounding
      whitespace; None stands for the exception every other token raises
      (null, arrays, objects, other strings). */
  function ToBool(j: Json): (r: Option<bool>)
    ensures j.JBool? ==> r == Some(j.b)
    ensures j.JNum? ==> r == Some(j.n != 0)
    ensures j.JNull? || j.JArr? || j.JObj? ==> r == None
    ensures j.JStr? && EqualsIgnoreCase(Trim(j.s), "true") ==> r == Some(true)
    ensures j.JStr? && EqualsIgnoreCase(Trim(j.s), "false") ==> r == Some(false)
    ensures j.JStr? && r.Some? ==> EqualsIgnoreCase(Trim(j.s), "true") || EqualsIgnoreCase(Trim(j.s), "false")
  {
    match j
    case JBool(b) => Some(b)
    case JNum(n) => Some(n != 0)
    case JStr(s) =>
      if EqualsIgnoreCase(Trim(s), "true") then Some(true)
      else if EqualsIgnoreCase(Trim(s), "false") then Some(false)
      else None
    case _ => None
  }
}

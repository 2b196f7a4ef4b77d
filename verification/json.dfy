/** JSON values as the toolkit sees them through Gson's tree model. Gson's
    text parser and printer are not part of this model: requests arrive
    already parsed and responses leave as values. */
module JsonValues {
  import opened Common
  import opened Decimal

  /** `JNull` stands both for Java `null` and for `JsonNull.INSTANCE`; the
      toolkit treats the two alike wherever it reads a value. Numbers are
      the integral ones the toolkit produces (ids, counts, results). */
  datatype Json =
    | JNull
    | JBool(b: bool)
    | JNum(n: int)
    | JStr(s: string)
    | JArr(items: seq<Json>)
    | JObj(members: map<string, Json>)

  /** `JsonElement.getAsString()`: a primitive gives its text, an array of
      exactly one element gives that element's text. Anything else throws,
      and the `Err` text is the exception's message: the simple class name
      for null and objects, Gson's size complaint for other arrays. */
  function AsString(j: Json): (r: Result<string>)
    ensures j.JStr? ==> r == Ok(j.s)
    ensures j.JNum? ==> r == Ok(IntToString(j.n))
    ensures j.JBool? ==> r == Ok(if j.b then "true" else "false")
    ensures j.JNull? ==> r == Err("JsonNull")
    ensures j.JObj? ==> r == Err("JsonObject")
    ensures j.JArr? && |j.items| != 1 ==> r.Err?
    ensures j.JArr? && |j.items| == 1 ==> r == AsString(j.items[0])
  {
    match j
    case JNull => Err("JsonNull")
    case JBool(b) => Ok(if b then "true" else "false")
    case JNum(n) => Ok(IntToString(n))
    case JStr(s) => Ok(s)
    case JArr(items) =>
      if |items| == 1 then AsString(items[0])
      else Err("Array must have size 1, but has size " + IntToString(|items|))
    case JObj(_) => Err("JsonObject")
  }
}

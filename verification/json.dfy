/** The values `JSON.parse` can produce. `JNull` doubles as JavaScript's
    `null` wherever the library hands a value on to listeners. */
module JsonValues {

  datatype Json =
    | JNull
    | JBool(b: bool)
    | JNumber(n: real)
    | JString(s: string)
    | JArray(items: seq<Json>)
    | JObject(fields: map<string, Json>)

  /** The member name under which a stored entry keeps its payload
      (the other member, `expires`, is dropped by the change-event layer). */
  const ValueMember: string := "value"

  /** The inner payload `parsed?.value ?? null` of a decoded entry: the `value`
      member of an object, and null for every other decoded value (null itself,
      arrays, strings, numbers, booleans) and for an object without that member. */
  function ValueField(j: Json): (v: Json)
    ensures v != JNull ==> j.JObject? && ValueMember in j.fields && j.fields[ValueMember] == v
    ensures j.JObject? && ValueMember in j.fields ==> v == j.fields[ValueMember]
  {
    match j
    case JObject(fields) => if ValueMember in fields then fields[ValueMember] else JNull
    case _ => JNull
  }
}

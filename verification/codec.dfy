/** `jsonParse`: the decoding of one side of a native storage notification. */
module Codec {
  import opened Wrappers
  import opened JsonValues

  /** `JSON.parse` applied to a text: a decoded value, or the text of the
      error it throws. Its grammar is not modelled; every operation here is
      parameterised by it. */
  type Parser = string -> Result<Json, string>

  /** A string-typed field of a native notification as JavaScript may hand it
      over: `undefined` (a field missing from a hand-built event), `null` (no
      entry on that side, or no key on a full clear) or a text. */
  datatype Raw = Undefined | Null | Text(text: string)

  /** The literal text some hosts return for a missing entry. */
  const UndefinedText: string := "undefined"

  /** Both `undefined` and the text "undefined" are turned into `null` before
      parsing. `JSON.parse(null)` coerces its argument to the text "null" and
      returns null, so a null argument yields null whatever the parser does
      with "undefined". Any other text is handed to the parser unchanged. */
  function JsonParse(parse: Parser, data: Raw): (r: Result<Json, string>)
    ensures data == Undefined || data == Null || data == Text(UndefinedText) ==> r == Success(JNull)
    ensures data.Text? && data.text != UndefinedText ==> r == parse(data.text)
    ensures r.Failure? ==> data.Text? && data.text != UndefinedText && parse(data.text).Failure?
  {
    var dest := if data == Text(UndefinedText) || data == Undefined then Null else data;
    match dest
    case Text(s) => parse(s)
    case _ => Success(JNull)
  }

  /** The result never depends on how the parser treats the text "undefined":
      two parsers that differ only there decode every slot alike. */
  lemma JsonParseSkipsUndefinedText(p: Parser, q: Parser, data: Raw)
    requires forall s :: s != UndefinedText ==> p(s) == q(s)
    ensures JsonParse(p, data) == JsonParse(q, data)
  {
  }
}

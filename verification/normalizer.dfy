/** The first half of `each`: turning a native storage notification into the
    library's canonical change event. */
module Normalizer {
  import opened Wrappers
  import opened JsonValues
  import opened Diagnostics
  import opened Codec

  /** A native `StorageEvent` as `each` reads it. `key` is `Null` for the
      null key a full clear carries, and `Undefined` when a hand-built event
      has no key at all. */
  datatype Notification = Notification(
    kind: string,
    key: Raw,
    newValue: Raw,
    oldValue: Raw,
    url: string,
    isTrusted: bool)

  /** The canonical event handed to every listener. The values are the inner
      payloads of the stored entries, `JNull` standing for null. */
  datatype Event = Event(
    kind: string,
    key: Raw,
    newValue: Json,
    oldValue: Json,
    url: string,
    isTrusted: bool,
    native: Notification)

  /** The event together with the decode warning, if one was raised. */
  datatype Normalized = Normalized(event: Event, warning: Option<Warning>)

  /** Some side of the notification fails to decode. Decoding stops at the
      first failure, so the old side only matters when the new side decodes. */
  predicate DecodeFails(parse: Parser, n: Notification)
  {
    JsonParse(parse, n.newValue).Failure? || JsonParse(parse, n.oldValue).Failure?
  }

  /** Both sides are decoded inside one `try`, new side first; the first error
      abandons the block, leaving whatever was assigned so far and null for the
      rest, and raises exactly one warning naming the source url. The key falls
      back to `defaultKey` exactly when the native key is null; the check is
      strict, so a missing (`undefined`) key passes through unchanged. */
  function Normalize(parse: Parser, n: Notification, defaultKey: Raw): (r: Normalized)
    ensures r.event.kind == n.kind && r.event.url == n.url && r.event.isTrusted == n.isTrusted
    ensures r.event.native == n
    ensures n.key != Null ==> r.event.key == n.key
    ensures n.key == Undefined ==> r.event.key == Undefined
    ensures n.key == Null ==> r.event.key == defaultKey
    ensures r.warning.Some? <==> DecodeFails(parse, n)
    ensures r.warning.Some? ==> r.warning.value.JsonParseWarning? && r.warning.value.url == n.url
    // the new side fails: its error is reported and both sides stay null
    ensures JsonParse(parse, n.newValue).Failure? ==>
      && r.event.newValue == JNull && r.event.oldValue == JNull
      && r.warning == Some(JsonParseWarning(n.url, JsonParse(parse, n.newValue).error))
    // the new side decodes: it keeps its payload whatever happens to the old side
    ensures JsonParse(parse, n.newValue).Success? ==>
      r.event.newValue == ValueField(JsonParse(parse, n.newValue).value)
    // only the old side fails: its error is reported and it stays null
    ensures JsonParse(parse, n.newValue).Success? && JsonParse(parse, n.oldValue).Failure? ==>
      && r.event.oldValue == JNull
      && r.warning == Some(JsonParseWarning(n.url, JsonParse(parse, n.oldValue).error))
    ensures !DecodeFails(parse, n) ==>
      r.event.oldValue == ValueField(JsonParse(parse, n.oldValue).value)
  {
    var (newValue, oldValue, warning) :=
      match JsonParse(parse, n.newValue)
      case Failure(e) => (JNull, JNull, Some(JsonParseWarning(n.url, e)))
      case Success(nj) =>
        match JsonParse(parse, n.oldValue)
        case Failure(e) => (ValueField(nj), JNull, Some(JsonParseWarning(n.url, e)))
        case Success(oj) => (ValueField(nj), ValueField(oj), None);
    var key := if n.key == Null then defaultKey else n.key;
    Normalized(Event(n.kind, key, newValue, oldValue, n.url, n.isTrusted, n), warning)
  }

  /** A side that is absent (`undefined`, null or the text "undefined") reaches
      listeners as null, whether or not the other side decodes. */
  lemma AbsentSideIsNull(parse: Parser, n: Notification, defaultKey: Raw)
    ensures n.newValue in {Undefined, Null, Text(UndefinedText)} ==>
      Normalize(parse, n, defaultKey).event.newValue == JNull
    ensures n.oldValue in {Undefined, Null, Text(UndefinedText)} ==>
      Normalize(parse, n, defaultKey).event.oldValue == JNull
  {
  }

  /** Once the new side fails, the old side is never decoded: the event does
      not depend on how the parser treats the old text. */
  lemma OldSideUnreadAfterNewFails(p: Parser, q: Parser, n: Notification, defaultKey: Raw)
    requires JsonParse(p, n.newValue).Failure?
    requires JsonParse(q, n.newValue) == JsonParse(p, n.newValue)
    ensures Normalize(p, n, defaultKey) == Normalize(q, n, defaultKey)
  {
  }
}

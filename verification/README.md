# Change-event normaliser and dispatcher of storetify

storetify is a key-value facade over a browser `Storage` backend. It adds
expiry, namespacing and change notifications. Every change to an entry,
whether made in this context or broadcast by the host from another one,
reaches listeners through one routine in `src/utils.ts`. That routine is
`each`. It decodes the `{value, expires}` texts carried by a native storage
notification and builds one canonical event. It then calls every listener
in order. A failed decode becomes a console warning and still produces an
event; a listener that throws an ordinary error becomes a console warning
and the remaining listeners still run. This project models that routine, its
decoding helper `jsonParse`, and the key guard `isValidKey`.

Modules, one per concern of `src/utils.ts`:

- `Wrappers`: `Option` and `Result`.
- `JsonValues`: the values `JSON.parse` produces. It also holds
  `ValueField`, which is `parsed?.value ?? null`.
- `Diagnostics`: the three console warnings, their rendered text, and a
  substring predicate.
- `Codec`: `jsonParse`. `JSON.parse` is a parameter of type `Parser`, an
  arbitrary function from text to a decoded value or an error.
- `Normalizer`: the native notification, the canonical event and
  `Normalize`. `Normalize` is the decoding and event construction of
  `each`, lines 43-60.
- `Dispatcher`: listeners, the effect log and `Each`. `Each` returns the
  ordered log of calls and warnings. `Fire` models one visit of the
  `forEach` callback and `Dispatch` the `forEach` itself. `Expected`,
  `FaultReports` and `Quiet` are reference definitions, and the lemmas
  connect `Dispatch` to them.
- `KeyCheck`: `isValidKey`.

Modelling choices:

- `JSON.parse(null)` coerces its argument to the text `"null"` and returns
  null. The model therefore returns null directly for `undefined`, for
  null, and for the text `"undefined"`. None of these ever reaches the
  parser parameter.
- A listener is a value with an identity, a name (`""` when the function
  has none), an "is a function" flag and an optional error it throws.
- JavaScript `null` in event values is `JNull`. A key, like a value slot,
  is `Undefined`, `Null` or a text, so the strict `=== null` test on the
  key is modelled exactly.
- Both sides are decoded inside one `try`, new side first. If the new side
  fails to decode, the old side is never decoded, and both sides of the
  event are null.
- An unnamed listener is called "anonymous function" in its warning.

## Model

| member | source | states |
|---|---|---|
| `JsonValues.ValueField` | src/utils.ts:47-48 | a non-null event value is always the `value` member of a decoded object; an object with that member yields it |
| `Codec.JsonParse` | src/utils.ts:38-41 | `undefined`, null and the text "undefined" decode to null whatever the parser does; every other text is decoded by the parser; a failure can only come from the parser on a real text |
| `Codec.JsonParseSkipsUndefinedText` | src/utils.ts:39 | two parsers that differ only on the text "undefined" decode every slot alike, so that text is never parsed |
| `Normalizer.Normalize` | src/utils.ts:43-60 | type, url, isTrusted and the native notification are copied; the key is the native key, or `defaultKey` exactly when the native key is null, and a missing key stays missing; a warning with the url is raised iff some side fails; a new-side failure leaves both sides null; a decoded new side keeps its payload even if the old side fails |
| `Normalizer.AbsentSideIsNull` | src/utils.ts:44-48 | an absent side (`undefined`, null or "undefined") reaches listeners as null, whether or not the other side decodes |
| `Normalizer.OldSideUnreadAfterNewFails` | src/utils.ts:46-49 | once the new side fails, the event does not depend on how the old text would decode |
| `Dispatcher.Fire` | src/utils.ts:63-70 | a non-function entry does nothing; a function entry is called first with the event, and is followed by exactly one warning with its label and error when it throws |
| `Dispatcher.Dispatch` | src/utils.ts:62-72 | the `forEach`: at most two effects per entry, every call receives the same event, and every warning is a listener warning |
| `Dispatcher.Label` | src/utils.ts:67 | the warning label is never empty and is the function's name whenever it has one |
| `Dispatcher.DispatchCallsEachFunctionOnce` | src/utils.ts:62-66 | the calls of a dispatch are exactly one per function entry, in list order, all with the same event; non-function entries are skipped |
| `Dispatcher.DispatchWarnsPerFault` | src/utils.ts:62-72 | the warnings of a dispatch are exactly one per throwing function entry, in list order |
| `Dispatcher.LaterListenersStillRun` | src/utils.ts:62-72 | whatever entry `i` does, the entries after it get the same dispatch they would get on their own |
| `Dispatcher.FaultsDoNotChangeCalls` | src/utils.ts:64-70 | the calls made are those of the same list with every fault removed |
| `Dispatcher.ThrowingListenerWarnsOnceByName` | src/utils.ts:63-70 | a throwing function yields exactly one warning, whose text contains its name or "anonymous function" |
| `Dispatcher.DispatchAppend` | src/utils.ts:62 | dispatching a concatenated list is dispatching each part in turn |
| `Dispatcher.Each` | src/utils.ts:43-73 | the log is the decode warning (if any) followed by the dispatch of the one normalised event; its calls are one per function entry in order; its warnings are the decode warning exactly when decoding fails, then one per throwing function |
| `Diagnostics.ListenerWarningMentionsLabel` | src/utils.ts:67-69 | a listener warning's text contains the listener's label and the lead "has an exception in your" |
| `Diagnostics.JsonParseWarningMentions` | src/utils.ts:50 | a decode warning's text contains "has an exception in your json parse", the source url and the error |
| `KeyCheck.IsValidKey` | src/utils.ts:75-79 | exactly one warning, with the text "store failed, entry a valid string key.", iff the key is not a string; no warning otherwise |

## Left out

- `getGlobal`, `hasBindWindowEventStorage` and `setBindWindowEventStorage` (src/utils.ts:5-20): they detect the host's global object and set a global flag. This is environment plumbing with no logic to verify.
- `dispatchStorageEvent` (src/utils.ts:22-36): it builds a DOM `StorageEvent` and dispatches it on the host, which is host I/O.
- The grammar of `JSON.parse`: it is an opaque, possibly failing parameter.
- Dispatcher.Each: a listener's error is an error whose text is a string. A listener that throws a value that cannot be turned into text, such as a Symbol or an object without a prototype, makes the warning template itself throw inside the `catch` (src/utils.ts:67-68). That error escapes `each`, and later listeners are skipped. `Listener.fault` cannot represent such a value, so the model does not cover this case.
- JSON numbers are `real`; floating-point behaviour is not modelled.
- Side effects of listeners are not modelled. A listener that changes the list during the `forEach`, or mutates the event's nested values, is outside the model. A listener's failure is a fixed property of the listener, not a function of the event.
- The exact text of console output is modelled by `Render`. Only the fixed invalid-key text and the parts named in the table are stated as properties. An error object's text is taken as a given string.
- `KeyCheck.IsValidKey` takes a key that is a JSON value. Keys that are `undefined`, functions or symbols are not separately represented. They behave like any other non-string key.
- The store facade, namespacing, entry encoding with expiry, expiry-on-read, the observer registry and `publish` are not part of this model. Their source files are not among those modelled.
- Timer-driven expiry scenarios depend on the wall clock and are not modelled.

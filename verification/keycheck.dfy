/** `isValidKey`: the guard run before a read or a write of the store. */
module KeyCheck {
  import opened JsonValues
  import opened Diagnostics

  /** The warnings the guard emits for a key of any type: one invalid-key
      warning when the key is not a string, none otherwise. It has no other
      effect and never throws. */
  function IsValidKey(key: Json): (warnings: seq<Warning>)
    ensures |warnings| <= 1
    ensures warnings == [] <==> key.JString?
    ensures forall k :: 0 <= k < |warnings| ==> Render(warnings[k]) == "store failed, entry a valid string key."
  {
    if key.JString? then [] else [InvalidKeyWarning]
  }
}

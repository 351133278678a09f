/** The warnings the change-event layer writes to the console, and the text
    each one is rendered to. */
module Diagnostics {

  datatype Warning =
      /** A stored payload failed to decode; carries the notification's url
          and the text of the raised error. */
    | JsonParseWarning(url: string, error: string)
      /** A listener threw; carries the listener's label (its name, or
          "anonymous function") and the text of the raised error. */
    | ListenerWarning(subject: string, error: string)
      /** A write or read was attempted with a key that is not a string. */
    | InvalidKeyWarning

  const JsonParseLead: string := "has an exception in your json parse, from "
  const ListenerLead: string := "has an exception in your "
  const InvalidKeyText: string := "store failed, entry a valid string key."

  /** The console text of a warning, following the template literals of the
      library (the listener template spans three source lines, so its text holds
      two line breaks and the indentation of those lines). */
  function Render(w: Warning): string
  {
    match w
    case JsonParseWarning(url, error) => JsonParseLead + url + ", .eg " + error
    case ListenerWarning(subject, error) =>
      ListenerLead + subject + "( ev ){\n          " + error + "\n        }"
    case InvalidKeyWarning => InvalidKeyText
  }

  /** `t` occurs somewhere inside `s`: the `expect.stringContaining` test. */
  predicate Contains(s: string, t: string)
    decreases |s|
  {
    t <= s || (|s| > 0 && Contains(s[1..], t))
  }

  lemma {:induction false} ContainsInfix(pre: string, t: string, post: string)
    ensures Contains(pre + t + post, t)
    decreases |pre|
  {
    var s := pre + t + post;
    if pre == [] {
      assert s == t + post;
      assert t <= s;
    } else {
      assert s[1..] == pre[1..] + t + post;
      ContainsInfix(pre[1..], t, post);
    }
  }

  /** A listener warning names the listener it is about. */
  lemma ListenerWarningMentionsLabel(subject: string, error: string)
    ensures Contains(Render(ListenerWarning(subject, error)), subject)
    ensures Contains(Render(ListenerWarning(subject, error)), ListenerLead)
  {
    var post := "( ev ){\n          " + error + "\n        }";
    assert Render(ListenerWarning(subject, error)) == ListenerLead + subject + post;
    ContainsInfix(ListenerLead, subject, post);
    assert Render(ListenerWarning(subject, error)) == [] + ListenerLead + (subject + post);
    ContainsInfix([], ListenerLead, subject + post);
  }

  /** A decode warning carries the fixed lead text, the source url and the error. */
  lemma JsonParseWarningMentions(url: string, error: string)
    ensures Contains(Render(JsonParseWarning(url, error)), "has an exception in your json parse")
    ensures Contains(Render(JsonParseWarning(url, error)), url)
    ensures Contains(Render(JsonParseWarning(url, error)), error)
  {
    var r := Render(JsonParseWarning(url, error));
    var lead := "has an exception in your json parse";
    assert JsonParseLead == lead + ", from ";
    assert r == [] + lead + (", from " + url + ", .eg " + error);
    ContainsInfix([], lead, ", from " + url + ", .eg " + error);
    assert r == JsonParseLead + url + (", .eg " + error);
    ContainsInfix(JsonParseLead, url, ", .eg " + error);
    assert r == JsonParseLead + url + ", .eg " + error + [];
    ContainsInfix(JsonParseLead + url + ", .eg ", error, []);
  }
}

/** `each`: normalise a native notification once, then hand the resulting
    event to every listener in turn, isolating each listener's failure. */
module Dispatcher {
  import opened Wrappers
  import opened Diagnostics
  import opened Codec
  import opened Normalizer

  /** An entry of the listener list. `isFunction` is the `typeof … ===
      "function"` test; `name` is the function's `name` ("" when unnamed);
      `fault` is the error text the call throws, if it throws. */
  datatype Listener = Listener(id: nat, name: string, isFunction: bool, fault: Option<string>)

  /** One observable step of a dispatch, in the order it happens. */
  datatype Effect =
    | Invoked(listener: nat, event: Event)
    | Warned(warning: Warning)

  const AnonymousLabel: string := "anonymous function"

  /** The name a listener warning uses: the function's name, or
      "anonymous function" when that name is empty. */
  function Label(f: Listener): (l: string)
    ensures l != ""
    ensures f.name != "" ==> l == f.name
  {
    if f.name == "" then AnonymousLabel else f.name
  }

  /** What one entry of the list contributes: nothing for a non-function, a
      call for a function, followed by a warning when that call throws. */
  function Fire(f: Listener, e: Event): (out: seq<Effect>)
    ensures !f.isFunction ==> out == []
    ensures f.isFunction ==> |out| >= 1 && out[0] == Invoked(f.id, e)
    ensures |out| == 2 <==> f.isFunction && f.fault.Some?
    ensures |out| <= 2
    ensures forall k :: 1 <= k < |out| ==> out[k] == Warned(ListenerWarning(Label(f), f.fault.value))
  {
    if !f.isFunction then []
    else
      [Invoked(f.id, e)] + match f.fault
        case None => []
        case Some(err) => [Warned(ListenerWarning(Label(f), err))]
  }

  /** The `forEach` over the listener list. */
  function Dispatch(funcs: seq<Listener>, e: Event): (out: seq<Effect>)
    ensures |out| <= 2 * |funcs|
    ensures forall k :: 0 <= k < |out| && out[k].Invoked? ==> out[k].event == e
    ensures forall k :: 0 <= k < |out| && out[k].Warned? ==> out[k].warning.ListenerWarning?
    decreases |funcs|
  {
    if funcs == [] then [] else Fire(funcs[0], e) + Dispatch(funcs[1..], e)
  }

  // ----- projections of a log -----

  /** The calls of a log, in order. */
  function Calls(log: seq<Effect>): (r: seq<Effect>)
    ensures |r| <= |log|
    ensures forall x :: x in r <==> x in log && x.Invoked?
    decreases |log|
  {
    if log == [] then []
    else (if log[0].Invoked? then [log[0]] else []) + Calls(log[1..])
  }

  /** The warnings of a log, in order. */
  function Warnings(log: seq<Effect>): (r: seq<Warning>)
    ensures |r| <= |log|
    ensures forall w :: w in r <==> Warned(w) in log
    decreases |log|
  {
    if log == [] then []
    else (if log[0].Warned? then [log[0].warning] else []) + Warnings(log[1..])
  }

  lemma {:induction false} CallsAppend(a: seq<Effect>, b: seq<Effect>)
    ensures Calls(a + b) == Calls(a) + Calls(b)
    decreases |a|
  {
    if a == [] {
      assert a + b == b;
    } else {
      assert (a + b)[1..] == a[1..] + b;
      CallsAppend(a[1..], b);
    }
  }

  lemma {:induction false} WarningsAppend(a: seq<Effect>, b: seq<Effect>)
    ensures Warnings(a + b) == Warnings(a) + Warnings(b)
    decreases |a|
  {
    if a == [] {
      assert a + b == b;
    } else {
      assert (a + b)[1..] == a[1..] + b;
      WarningsAppend(a[1..], b);
    }
  }

  // ----- reference definitions of what a dispatch must do -----

  /** The entries that are functions, in list order. */
  function Callable(funcs: seq<Listener>): (r: seq<Listener>)
    ensures |r| <= |funcs|
    ensures forall f :: f in r <==> f in funcs && f.isFunction
    decreases |funcs|
  {
    if funcs == [] then []
    else (if funcs[0].isFunction then [funcs[0]] else []) + Callable(funcs[1..])
  }

  /** One call per callable entry, in list order, each with the same event. */
  function Expected(funcs: seq<Listener>, e: Event): (r: seq<Effect>)
  {
    var c := Callable(funcs);
    seq(|c|, k requires 0 <= k < |c| => Invoked(c[k].id, e))
  }

  /** One warning per callable entry that throws, in list order. */
  function FaultReports(funcs: seq<Listener>): (r: seq<Warning>)
    ensures |r| <= |funcs|
    ensures forall k :: 0 <= k < |r| ==> r[k].ListenerWarning?
    decreases |funcs|
  {
    if funcs == [] then []
    else
      var f := funcs[0];
      (if f.isFunction && f.fault.Some? then [ListenerWarning(Label(f), f.fault.value)] else [])
      + FaultReports(funcs[1..])
  }

  /** The same entries with every fault removed. */
  function Quiet(funcs: seq<Listener>): (r: seq<Listener>)
  {
    seq(|funcs|, k requires 0 <= k < |funcs| => funcs[k].(fault := None))
  }

  // ----- properties of a dispatch -----

  lemma {:induction false} DispatchAppend(a: seq<Listener>, b: seq<Listener>, e: Event)
    ensures Dispatch(a + b, e) == Dispatch(a, e) + Dispatch(b, e)
    decreases |a|
  {
    if a == [] {
      assert a + b == b;
    } else {
      assert (a + b)[1..] == a[1..] + b;
      DispatchAppend(a[1..], b, e);
    }
  }

  /** Isolation: whatever listener `i` does, the listeners after it get
      exactly the dispatch they would get on their own. */
  lemma LaterListenersStillRun(funcs: seq<Listener>, i: nat, e: Event)
    requires i < |funcs|
    ensures Dispatch(funcs, e) == Dispatch(funcs[..i], e) + Fire(funcs[i], e) + Dispatch(funcs[i + 1..], e)
  {
    assert funcs == funcs[..i] + ([funcs[i]] + funcs[i + 1..]);
    DispatchAppend(funcs[..i], [funcs[i]] + funcs[i + 1..], e);
    DispatchAppend([funcs[i]], funcs[i + 1..], e);
    assert Dispatch([funcs[i]], e) == Fire(funcs[i], e) + Dispatch([], e);
  }

  /** Every function entry is called exactly once, in list order, with the
      same event; every other entry is skipped. */
  lemma ExpectedCons(funcs: seq<Listener>, e: Event)
    requires funcs != []
    ensures Expected(funcs, e) ==
      (if funcs[0].isFunction then [Invoked(funcs[0].id, e)] else []) + Expected(funcs[1..], e)
  {
    var head := if funcs[0].isFunction then [funcs[0]] else [];
    assert Callable(funcs) == head + Callable(funcs[1..]);
  }

  lemma {:induction false} DispatchCallsEachFunctionOnce(funcs: seq<Listener>, e: Event)
    ensures Calls(Dispatch(funcs, e)) == Expected(funcs, e)
    decreases |funcs|
  {
    if funcs != [] {
      var f := funcs[0];
      var rest := funcs[1..];
      DispatchCallsEachFunctionOnce(rest, e);
      CallsAppend(Fire(f, e), Dispatch(rest, e));
      ExpectedCons(funcs, e);
      if f.isFunction {
        var tail := if f.fault.Some? then [Warned(ListenerWarning(Label(f), f.fault.value))] else [];
        assert Fire(f, e) == [Invoked(f.id, e)] + tail;
        CallsAppend([Invoked(f.id, e)], tail);
        assert Calls(tail) == [] by {
          if f.fault.Some? { assert tail[1..] == []; }
        }
        assert Calls([Invoked(f.id, e)]) == [Invoked(f.id, e)] by {
          assert [Invoked(f.id, e)][1..] == [];
        }
      }
    }
  }

  /** Each throwing function produces exactly one warning naming it, in list
      order, and nothing else in a dispatch warns. */
  lemma {:induction false} DispatchWarnsPerFault(funcs: seq<Listener>, e: Event)
    ensures Warnings(Dispatch(funcs, e)) == FaultReports(funcs)
    decreases |funcs|
  {
    if funcs != [] {
      var f := funcs[0];
      var rest := funcs[1..];
      DispatchWarnsPerFault(rest, e);
      WarningsAppend(Fire(f, e), Dispatch(rest, e));
      if f.isFunction {
        var tail := if f.fault.Some? then [Warned(ListenerWarning(Label(f), f.fault.value))] else [];
        assert Fire(f, e) == [Invoked(f.id, e)] + tail;
        WarningsAppend([Invoked(f.id, e)], tail);
        assert Warnings([Invoked(f.id, e)]) == [] by {
          assert [Invoked(f.id, e)][1..] == [];
        }
        if f.fault.Some? {
          assert tail[1..] == [];
        }
      }
    }
  }

  /** A throwing function yields exactly one warning, and its text names the
      function, or says "anonymous function" when the function has no name. */
  lemma ThrowingListenerWarnsOnceByName(f: Listener, e: Event)
    requires f.isFunction && f.fault.Some?
    ensures |Warnings(Fire(f, e))| == 1
    ensures Contains(Render(Warnings(Fire(f, e))[0]), if f.name == "" then AnonymousLabel else f.name)
  {
    var w := ListenerWarning(Label(f), f.fault.value);
    assert Fire(f, e) == [Invoked(f.id, e), Warned(w)];
    assert Fire(f, e)[1..] == [Warned(w)];
    assert Fire(f, e)[1..][1..] == [];
    assert Warnings(Fire(f, e)) == [w];
    ListenerWarningMentionsLabel(Label(f), f.fault.value);
  }

  /** A throwing listener never changes who gets called: the calls are those
      of the same list with every fault removed. */
  lemma FaultsDoNotChangeCalls(funcs: seq<Listener>, e: Event)
    ensures Calls(Dispatch(funcs, e)) == Calls(Dispatch(Quiet(funcs), e))
  {
    DispatchCallsEachFunctionOnce(funcs, e);
    DispatchCallsEachFunctionOnce(Quiet(funcs), e);
    QuietKeepsCallable(funcs);
  }

  lemma {:induction false} QuietKeepsCallable(funcs: seq<Listener>)
    ensures |Callable(Quiet(funcs))| == |Callable(funcs)|
    ensures forall k :: 0 <= k < |Callable(funcs)| ==> Callable(Quiet(funcs))[k].id == Callable(funcs)[k].id
    decreases |funcs|
  {
    if funcs != [] {
      QuietKeepsCallable(funcs[1..]);
      assert Quiet(funcs)[1..] == Quiet(funcs[1..]);
      assert Quiet(funcs)[0] == funcs[0].(fault := None);
    }
  }

  /** The decode warning, if any, that precedes the calls. */
  function Prelude(nz: Normalized): (r: seq<Effect>)
  {
    if nz.warning.Some? then [Warned(nz.warning.value)] else []
  }

  /** `each`: the event is built once; the decode warning, if any, comes first;
      then every entry of `funcs` is visited in order. A decode failure
      or a listener throwing an error with a text is only a warning. */
  method Each(parse: Parser, funcs: seq<Listener>, n: Notification, defaultKey: Raw)
    returns (log: seq<Effect>)
    ensures log == Prelude(Normalize(parse, n, defaultKey)) + Dispatch(funcs, Normalize(parse, n, defaultKey).event)
    ensures Calls(log) == Expected(funcs, Normalize(parse, n, defaultKey).event)
    ensures Warnings(log) ==
      (if DecodeFails(parse, n) then [Normalize(parse, n, defaultKey).warning.value] else []) + FaultReports(funcs)
  {
    var nz := Normalize(parse, n, defaultKey);
    log := Prelude(nz);
    var i := 0;
    while i < |funcs|
      invariant i <= |funcs|
      invariant log == Prelude(nz) + Dispatch(funcs[..i], nz.event)
    {
      DispatchAppend(funcs[..i], [funcs[i]], nz.event);
      assert funcs[..i + 1] == funcs[..i] + [funcs[i]];
      assert Dispatch([funcs[i]], nz.event) == Fire(funcs[i], nz.event) + Dispatch([], nz.event);
      log := log + Fire(funcs[i], nz.event);
      i := i + 1;
    }
    assert funcs[..i] == funcs;
    CallsAppend(Prelude(nz), Dispatch(funcs, nz.event));
    WarningsAppend(Prelude(nz), Dispatch(funcs, nz.event));
    DispatchCallsEachFunctionOnce(funcs, nz.event);
    DispatchWarnsPerFault(funcs, nz.event);
    if nz.warning.Some? {
      assert Prelude(nz)[1..] == [];
    }
  }
}

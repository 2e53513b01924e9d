/** `Tidal.prototype.publish`: resolve the argument list, then invoke the
    channel's callbacks from the last subscribed to the first. Callbacks are
    foreign code, so the model produces the trace of invocations instead of
    running them. */
module Publishing {
  import opened State

  /** An argument value, as far as `publish` tells values apart: a falsy
      one (`undefined`, `null`, `0`, `''`, `false`); a plain object without
      a `length` property; a value that `apply` refuses as an argument list
      (a non-zero number, `true`, a symbol); or an array. */
  datatype Value = Falsy | Plain(id: nat) | Scalar(id: nat) | Arr(items: seq<Value>)

  /** One invocation `fn.apply(ctx, args)`. */
  datatype Call = Call(fn: Fn, ctx: Ctx, args: seq<Value>)

  /** What a publish call does: the invocations made, in order, and how the
      call ends. */
  datatype Delivery = Delivery(trace: seq<Call>, completion: Completion)

  /** The argument list built from the trailing arguments of `publish`
      (`arguments.length > 2 ? slice(arguments, 1) : arguments[1] || []`):
      several trailing arguments are the list themselves; a single array is
      the list; an absent or falsy one gives the empty list. A single plain
      object has an undefined `length`, so `apply` reads it as an empty
      list. A single `Scalar` has no list to give: `None`, and `apply` will
      throw on it. */
  function ResolveArgs(trailing: seq<Value>): (r: Option<seq<Value>>)
    ensures r.None? <==> |trailing| == 1 && trailing[0].Scalar?
    ensures |trailing| > 1 ==> r == Some(trailing)
    ensures trailing == [] || trailing == [Falsy] ==> r == Some([])
    ensures |trailing| == 1 && trailing[0].Plain? ==> r == Some([])
    ensures |trailing| == 1 && trailing[0].Arr? ==> r == Some(trailing[0].items)
    ensures r.Some? && |r.value| > 0 ==>
      r.value == trailing || (|trailing| == 1 && trailing[0] == Arr(r.value))
  {
    if |trailing| > 1 then Some(trailing)
    else if |trailing| == 0 then Some([])
    else match trailing[0]
      case Falsy => Some([])
      case Plain(_) => Some([])
      case Arr(items) => Some(items)
      case Scalar(_) => None
  }

  /** The two call forms of publish agree: `publish(name, [a, b, ...])` and
      `publish(name, a, b, ...)` deliver the same list, for any list that is
      not a single value (a lone value is read as the list itself). */
  lemma BothCallFormsAgree(xs: seq<Value>)
    requires |xs| != 1
    ensures ResolveArgs([Arr(xs)]) == ResolveArgs(xs) == Some(xs)
  {
  }

  function CallOf(h: Sub, args: seq<Value>): Call
  {
    Call(h.fn, h.ctx, args)
  }

  /** The loop `while (i--)` over the first `i` records: invoke
      `hs[i-1]`, then `hs[i-2]`, ... down to `hs[0]`. A callback in `raises`
      throws after being invoked, and the loop stops there; the flag in the
      result says so. */
  function Dispatch(hs: seq<Sub>, i: nat, args: seq<Value>, raises: set<Fn>): (r: (seq<Call>, bool))
    requires i <= |hs|
    ensures |r.0| <= i
    ensures forall k :: 0 <= k < |r.0| ==> r.0[k] == CallOf(hs[i - 1 - k], args)
    ensures r.1 <==> exists k :: 0 <= k < i && hs[k].fn in raises
    ensures !r.1 ==> |r.0| == i
    ensures r.1 ==> 0 < |r.0| && hs[i - |r.0|].fn in raises
    ensures forall k :: i - |r.0| < k < i ==> hs[k].fn !in raises
    decreases i
  {
    if i == 0 then ([], false)
    else
      var c := CallOf(hs[i - 1], args);
      if hs[i - 1].fn in raises then ([c], true)
      else
        var rest := Dispatch(hs, i - 1, args, raises);
        ([c] + rest.0, rest.1)
  }

  /** `publish(name, ...trailing)`. An absent channel returns `undefined`
      without invoking anything. Otherwise the invocations are the channel's
      records from the last one down, each with its own context and the
      resolved list; the call returns the dispatcher unless a TypeError or a
      throwing callback ends it. */
  function Publish(t: Tidal, name: string, trailing: seq<Value>, raises: set<Fn>): (d: Delivery)
    ensures name !in t.cache ==> d == Delivery([], Normal(Undefined))
    ensures name in t.cache ==> d.completion != Normal(Undefined)
    ensures |d.trace| <= |ChannelIn(t.cache, name)|
    ensures forall k :: 0 <= k < |d.trace| ==>
      && name in t.cache && ResolveArgs(trailing).Some?
      && d.trace[k] == CallOf(t.cache[name][|t.cache[name]| - 1 - k], ResolveArgs(trailing).value)
    ensures d.completion == Threw ==> name in t.cache && |t.cache[name]| > 0
  {
    if name !in t.cache then Delivery([], Normal(Undefined))
    else
      var hs := t.cache[name];
      match ResolveArgs(trailing)
      case None => if |hs| == 0 then Delivery([], Normal(This)) else Delivery([], Threw)
      case Some(args) =>
        var r := Dispatch(hs, |hs|, args, raises);
        Delivery(r.0, if r.1 then Threw else Normal(This))
  }

  /** Reference order: the records last to first. */
  function Reverse(hs: seq<Sub>): (r: seq<Sub>)
  {
    if hs == [] then [] else Reverse(hs[1..]) + [hs[0]]
  }

  lemma {:induction false} ReverseIndex(hs: seq<Sub>)
    ensures |Reverse(hs)| == |hs|
    ensures forall k :: 0 <= k < |hs| ==> Reverse(hs)[k] == hs[|hs| - 1 - k]
  {
    if hs != [] {
      ReverseIndex(hs[1..]);
    }
  }

  /** Reversing only reorders: every record appears as often as before. */
  lemma {:induction false} ReverseIsPermutation(hs: seq<Sub>)
    ensures multiset(Reverse(hs)) == multiset(hs)
  {
    if hs != [] {
      ReverseIsPermutation(hs[1..]);
      assert hs == [hs[0]] + hs[1..];
    }
  }

  /** The invocations a list of records gets, in list order. */
  function CallsOf(hs: seq<Sub>, args: seq<Value>): (r: seq<Call>)
    ensures |r| == |hs|
    ensures forall k :: 0 <= k < |hs| ==> r[k] == CallOf(hs[k], args)
  {
    seq(|hs|, k requires 0 <= k < |hs| => CallOf(hs[k], args))
  }

  /** Publishing to an existing channel whose callbacks all return invokes
      each record exactly once, in reverse subscription order, with its own
      context and the one resolved argument list, and returns the
      dispatcher. */
  lemma PublishInvokesAllInReverse(t: Tidal, name: string, trailing: seq<Value>, raises: set<Fn>)
    requires name in t.cache && ResolveArgs(trailing).Some?
    requires forall s :: s in t.cache[name] ==> s.fn !in raises
    ensures Publish(t, name, trailing, raises)
      == Delivery(CallsOf(Reverse(t.cache[name]), ResolveArgs(trailing).value), Normal(This))
  {
    var hs := t.cache[name];
    var args := ResolveArgs(trailing).value;
    ReverseIndex(hs);
    var r := Dispatch(hs, |hs|, args, raises);
    assert !r.1;
    assert r.0 == CallsOf(Reverse(hs), args);
  }

  /** When a callback throws, the invocations made are the first ones of the
      full reverse order, ending with the throwing callback; the ones after it
      never run and the error reaches the caller. */
  lemma PublishStopsAtThrow(t: Tidal, name: string, trailing: seq<Value>, raises: set<Fn>)
    requires name in t.cache && ResolveArgs(trailing).Some?
    ensures var d := Publish(t, name, trailing, raises);
      var full := CallsOf(Reverse(t.cache[name]), ResolveArgs(trailing).value);
      && |d.trace| <= |full|
      && d.trace == full[..|d.trace|]
      && (d.completion == Threw <==> exists s :: s in t.cache[name] && s.fn in raises)
      && (d.completion == Threw ==> d.trace[|d.trace| - 1].fn in raises)
      && (d.completion != Threw ==> d.trace == full && d.completion == Normal(This))
  {
    var hs := t.cache[name];
    var args := ResolveArgs(trailing).value;
    ReverseIndex(hs);
    var r := Dispatch(hs, |hs|, args, raises);
    if r.1 {
      var k :| 0 <= k < |hs| && hs[k].fn in raises;
      assert hs[k] in hs;
    } else {
      forall s | s in hs ensures s.fn !in raises {
        var k :| 0 <= k < |hs| && hs[k] == s;
      }
    }
  }

  /** Publishing to a channel that does not exist invokes nothing and
      returns `undefined`. */
  lemma PublishAbsentChannel(t: Tidal, name: string, trailing: seq<Value>, raises: set<Fn>)
    requires name !in t.cache
    ensures Publish(t, name, trailing, raises) == Delivery([], Normal(Undefined))
  {
  }

  /** A single non-zero number, `true` or symbol is handed to `apply` as
      the argument list, which throws at the first callback: nothing is
      invoked, and an empty channel returns normally. */
  lemma PublishScalarArgument(t: Tidal, name: string, v: nat, raises: set<Fn>)
    requires name in t.cache
    ensures var d := Publish(t, name, [Scalar(v)], raises);
      && d.trace == []
      && (d.completion == Threw <==> |t.cache[name]| > 0)
      && (d.completion != Threw ==> d.completion == Normal(This))
  {
  }

  /** A single plain object is not an argument list, yet nothing throws:
      `apply` reads its missing `length` as 0, so every callback is invoked
      with no arguments, last subscribed first. */
  lemma PublishPlainObjectArgument(t: Tidal, name: string, v: nat)
    requires name in t.cache
    ensures Publish(t, name, [Plain(v)], {}) == Delivery(CallsOf(Reverse(t.cache[name]), []), Normal(This))
  {
    PublishInvokesAllInReverse(t, name, [Plain(v)], {});
  }
}

/** Sequences of calls on one dispatcher: uid tokens, the subscribe /
    unsubscribe round trip, and concrete runs that show the removal loop
    throwing. */
module Lifecycle {
  import opened State
  import opened Subscribing
  import opened Removal
  import opened Unsubscribing
  import opened Publishing
  import opened Corrected

  /** A call that changes the dispatcher. `publish` changes nothing, so it
      does not appear here. */
  datatype Op = DoSubscribe(name: string, fn: Fn, context: Option<Ctx>) | DoUnsubscribe(sel: Selector)

  /** Results of a run: the final dispatcher and the tokens the subscribe
      calls returned, in call order. */
  datatype Trace = Trace(state: Tidal, tokens: seq<int>)

  /** The number of subscribe calls in a run. */
  function SubscribeCount(ops: seq<Op>): (n: nat)
    ensures n <= |ops|
    decreases |ops|
  {
    if ops == [] then 0
    else (if ops[0].DoSubscribe? then 1 else 0) + SubscribeCount(ops[1..])
  }

  /** Runs the calls in order. A TypeError ends the call that threw it, not
      the dispatcher: the next call sees the state that call left behind. */
  function Run(t: Tidal, ops: seq<Op>): (r: Trace)
    ensures |r.tokens| == SubscribeCount(ops)
    ensures r.state.uid == t.uid + |r.tokens|
    ensures forall k :: 0 <= k < |r.tokens| ==> r.tokens[k] == t.uid + 1 + k
    decreases |ops|
  {
    if ops == [] then Trace(t, [])
    else match ops[0]
      case DoSubscribe(name, fn, context) =>
        var r := Subscribe(t, name, fn, context);
        var rest := Run(r.state, ops[1..]);
        Trace(rest.state, [r.token] + rest.tokens)
      case DoUnsubscribe(sel) => Run(Unsubscribe(t, sel).state, ops[1..])
  }

  /** Along any run of subscribe and unsubscribe calls the registry stays
      valid. */
  lemma {:induction false} RunKeepsValid(t: Tidal, ops: seq<Op>)
    requires Valid(t)
    ensures Valid(Run(t, ops).state)
    decreases |ops|
  {
    if ops != [] {
      match ops[0]
      case DoSubscribe(name, fn, context) =>
        SubscribeKeepsValid(t, name, fn, context);
        RunKeepsValid(Subscribe(t, name, fn, context).state, ops[1..]);
      case DoUnsubscribe(sel) =>
        UnsubscribeKeepsValid(t, sel);
        RunKeepsValid(Unsubscribe(t, sel).state, ops[1..]);
    }
  }

  /** From a fresh dispatcher the tokens are 0, 1, 2, ... in call order,
      whatever unsubscribe calls come between: strictly increasing and never
      reused. */
  lemma TokensCountFromZero(ops: seq<Op>)
    ensures var r := Run(Init(), ops);
      && |r.tokens| == SubscribeCount(ops)
      && (forall k :: 0 <= k < |r.tokens| ==> r.tokens[k] == k)
      && (forall i, j :: 0 <= i < j < |r.tokens| ==> r.tokens[i] < r.tokens[j])
      && Valid(r.state)
  {
    RunKeepsValid(Init(), ops);
  }

  /** Unsubscribing by the token subscribe has just returned undoes the
      subscription: the call returns normally, the registry is back to what
      it was (a channel the subscription created stays, empty), and only the
      counter has moved on. The record being the last of its channel, the
      code as written and the corrected call agree here. */
  lemma UnsubscribeTokenUndoesSubscribe(t: Tidal, name: string, fn: Fn, context: Option<Ctx>)
    requires Valid(t)
    ensures var r := Subscribe(t, name, fn, context);
      var s := Unsubscribe(r.state, ByUid(r.token));
      && s.completion == Normal(This)
      && s.state.cache == t.cache[name := ChannelIn(t.cache, name)]
      && s.state.uid == t.uid + 1
      && UnsubscribeIntended(r.state, ByUid(r.token)) == s
  {
    var r := Subscribe(t, name, fn, context);
    SubscribedTokenIsUnique(t, name, fn, context);
    UndoAppended(t.cache, r.state, name, Sub(fn, BoundCtx(context), r.token));
    AsWrittenAgreesWhenNormal(r.state, ByUid(r.token));
  }

  /** The registry level of the round trip: with the new record last in its
      channel and every older uid smaller, unsubscribing its uid restores the
      channel and returns the dispatcher. */
  lemma UndoAppended(cache: map<string, seq<Sub>>, t': Tidal, name: string, x: Sub)
    requires t'.cache == cache[name := ChannelIn(cache, name) + [x]]
    requires Enumerates(t'.order, t'.cache) && Unique(t'.cache, UidIs(x.uid))
    requires forall n, y :: n in cache && y in cache[n] ==> y.uid < x.uid
    ensures Unsubscribe(t', ByUid(x.uid))
      == Step(t'.(cache := cache[name := ChannelIn(cache, name)]), Normal(This))
  {
    var base := cache[name := ChannelIn(cache, name)];
    ScanSelectorRunsScan(t', ByUid(x.uid));
    AppendedMatchRemoved(cache, name, x, UidIs(x.uid));
    ScanRemovesLastMatches(t'.cache, t'.order, UidIs(x.uid), base);
  }

  /** A scan over a registry in which the only match of each channel, if
      any, sits in its last slot returns normally with each channel's
      survivors. */
  lemma ScanRemovesLastMatches(cache: map<string, seq<Sub>>, order: seq<string>, c: Criterion, base: map<string, seq<Sub>>)
    requires Enumerates(order, cache) && Unique(cache, c)
    requires cache.Keys == base.Keys
    requires forall n :: n in cache ==> !NonFinalMatch(cache[n], c) && Survivors(cache[n], c) == base[n]
    ensures Scan(cache, order, c) == Ok(base)
  {
    var r := Scan(cache, order, c);
    assert r.Ok? by {
      ScanThrowsIffSomeChannel(cache, order, c);
    }
    assert forall n :: n in cache ==> r.value[n] == base[n] by {
      ScanRemovesUnique(cache, order, c);
    }
    assert r.value == base;
  }

  /** Right after subscribing, the registry is still enumerated by its
      order, only the new record carries the new token, and every older
      record carries a smaller uid. */
  lemma SubscribedTokenIsUnique(t: Tidal, name: string, fn: Fn, context: Option<Ctx>)
    requires Valid(t)
    ensures var r := Subscribe(t, name, fn, context);
      && Enumerates(r.state.order, r.state.cache)
      && Unique(r.state.cache, UidIs(r.token))
      && forall n, y :: n in t.cache && y in t.cache[n] ==> y.uid < r.token
  {
    var r := Subscribe(t, name, fn, context);
    SubscribeKeepsValid(t, name, fn, context);
    UidIsUnique(r.state, r.token);
    SubscribeFreshToken(t, name, fn, context);
  }

  /** A record appended to a registry in which nothing else matches is the
      only record a removal takes away, and it sits in its channel's last
      slot. */
  lemma AppendedMatchRemoved(cache: map<string, seq<Sub>>, name: string, x: Sub, c: Criterion)
    requires forall n, y :: n in cache && y in cache[n] ==> y.uid < x.uid
    requires c == UidIs(x.uid)
    ensures var old_hs := ChannelIn(cache, name);
      var cache' := cache[name := old_hs + [x]];
      && (forall n :: n in cache' ==> !NonFinalMatch(cache'[n], c))
      && (forall n :: n in cache' ==> Survivors(cache'[n], c) == cache[name := old_hs][n])
  {
    var old_hs := ChannelIn(cache, name);
    var cache' := cache[name := old_hs + [x]];
    assert forall y :: y in old_hs ==> !Matches(y, c);
    NoMatchUnchanged(old_hs, c);
    SurvivorsAppend(old_hs, x, c);
    assert old_hs + [] == old_hs;
    forall n | n in cache'
      ensures !NonFinalMatch(cache'[n], c) && Survivors(cache'[n], c) == cache[name := old_hs][n]
    {
      if n == name {
        var hs := cache'[n];
        forall j | 0 <= j < |hs| - 1 ensures !Matches(hs[j], c) {
          assert hs[j] == old_hs[j] && hs[j] in old_hs;
        }
      } else {
        assert forall y :: y in cache[n] ==> !Matches(y, c);
        NoMatchUnchanged(cache[n], c);
      }
    }
  }

  /** After `unsubscribe(name)` the channel still works: a new subscription
      on it is the only one a later publish reaches. */
  lemma WipeThenResubscribe(t: Tidal, name: string, fn: Fn, context: Option<Ctx>, trailing: seq<Value>)
    requires name in t.cache && ResolveArgs(trailing).Some?
    ensures var t1 := Unsubscribe(t, Name(name)).state;
      var r := Subscribe(t1, name, fn, context);
      Publish(r.state, name, trailing, {})
        == Delivery([Call(fn, BoundCtx(context), ResolveArgs(trailing).value)], Normal(This))
  {
    var t1 := Unsubscribe(t, Name(name)).state;
    var r := Subscribe(t1, name, fn, context);
    var x := Sub(fn, BoundCtx(context), r.token);
    assert r.state.cache[name] == [x];
    PublishInvokesAllInReverse(r.state, name, trailing, {});
    assert Reverse([x]) == [x] by {
      assert [x][1..] == [];
    }
  }

  /** One channel "e" with the callback `Fn(1)` subscribed twice, without a
      context. */
  function TwiceOnOneChannel(): Tidal
  {
    Tidal(map["e" := [Sub(Fn(1), Self, 0), Sub(Fn(1), Self, 1)]], ["e"], 1)
  }

  /** `TwiceOnOneChannel` is what two subscribe calls on a fresh dispatcher
      produce. */
  lemma TwiceOnOneChannelReached()
    ensures Run(Init(), [DoSubscribe("e", Fn(1), None), DoSubscribe("e", Fn(1), None)])
      == Trace(TwiceOnOneChannel(), [0, 1])
  {
    var a := Sub(Fn(1), Self, 0);
    var b := Sub(Fn(1), Self, 1);
    var t1 := Tidal(map["e" := [a]], ["e"], 0);
    assert Subscribe(Init(), "e", Fn(1), None).state == t1 by {
      assert ChannelIn(Init().cache, "e") == [] && [] + [a] == [a];
    }
    assert Subscribe(t1, "e", Fn(1), None).state == TwiceOnOneChannel() by {
      assert ChannelIn(t1.cache, "e") == [a] && [a] + [b] == [a, b];
    }
    RunOneSubscribe(t1, "e", Fn(1), None);
    RunSubscribeStep(Init(), "e", Fn(1), None, [DoSubscribe("e", Fn(1), None)]);
  }

  /** `unsubscribe(["e", fn])` with `fn` subscribed twice on "e": the first
      record is spliced out, the second slides into slot 0 and is skipped,
      slot 1 is then read past the end and a TypeError escapes, with the
      second record still subscribed. The corrected call empties the channel
      and returns the dispatcher. */
  lemma DuplicatePairThrows()
    ensures var t := TwiceOnOneChannel();
      var s := Unsubscribe(t, Pair("e", Fn(1)));
      && s.completion == Threw
      && s.state.cache["e"] == [Sub(Fn(1), Self, 1)]
      && UnsubscribeIntended(t, Pair("e", Fn(1))).state.cache["e"] == []
      && UnsubscribeIntended(t, Pair("e", Fn(1))).completion == Normal(This)
  {
    var a := Sub(Fn(1), Self, 0);
    var b := Sub(Fn(1), Self, 1);
    var c := FnIs(Fn(1));
    assert [a, b][..0] + [a, b][1..] == [b];
    assert SpliceLoop([a, b], 0, 2, c) == SpliceLoop([b], 1, 2, c);
    assert Survivors([b], c) == [] by {
      assert [b][1..] == [];
    }
    assert Survivors([a, b], c) == [] by {
      assert [a, b][1..] == [b];
    }
  }

  /** Two channels "a" and "b" created in that order, "a" holding two
      records and "b" one, all subscribed without a context. */
  function DefaultContextOnTwoChannels(): Tidal
  {
    Tidal(map["a" := [Sub(Fn(1), Self, 0), Sub(Fn(2), Self, 1)], "b" := [Sub(Fn(3), Self, 2)]], ["a", "b"], 2)
  }

  /** `DefaultContextOnTwoChannels` is what three subscribe calls on a fresh
      dispatcher produce. */
  lemma DefaultContextReached()
    ensures Run(Init(), [DoSubscribe("a", Fn(1), None), DoSubscribe("a", Fn(2), None), DoSubscribe("b", Fn(3), None)])
      == Trace(DefaultContextOnTwoChannels(), [0, 1, 2])
  {
    var a1 := Sub(Fn(1), Self, 0);
    var a2 := Sub(Fn(2), Self, 1);
    var b1 := Sub(Fn(3), Self, 2);
    var t1 := Tidal(map["a" := [a1]], ["a"], 0);
    var t2 := Tidal(map["a" := [a1, a2]], ["a"], 1);
    var t3 := DefaultContextOnTwoChannels();
    assert Subscribe(t2, "b", Fn(3), None).state == t3 by {
      assert ChannelIn(t2.cache, "b") == [] && [] + [b1] == [b1];
      assert ["a"] + ["b"] == ["a", "b"];
    }
    RunOneSubscribe(t2, "b", Fn(3), None);
    assert Run(t2, [DoSubscribe("b", Fn(3), None)]) == Trace(t3, [2]);
    assert Subscribe(t1, "a", Fn(2), None).state == t2 by {
      assert ChannelIn(t1.cache, "a") == [a1] && [a1] + [a2] == [a1, a2];
    }
    RunSubscribeStep(t1, "a", Fn(2), None, [DoSubscribe("b", Fn(3), None)]);
    assert Subscribe(Init(), "a", Fn(1), None).state == t1 by {
      assert ChannelIn(Init().cache, "a") == [] && [] + [a1] == [a1];
    }
    RunSubscribeStep(Init(), "a", Fn(1), None, [DoSubscribe("a", Fn(2), None), DoSubscribe("b", Fn(3), None)]);
  }

  /** One subscribe call followed by the rest of a run. */
  lemma RunSubscribeStep(t: Tidal, name: string, fn: Fn, context: Option<Ctx>, rest: seq<Op>)
    ensures var r := Subscribe(t, name, fn, context);
      Run(t, [DoSubscribe(name, fn, context)] + rest)
        == Trace(Run(r.state, rest).state, [r.token] + Run(r.state, rest).tokens)
  {
    assert ([DoSubscribe(name, fn, context)] + rest)[1..] == rest;
  }

  /** A run of a single subscribe call. */
  lemma RunOneSubscribe(t: Tidal, name: string, fn: Fn, context: Option<Ctx>)
    ensures var r := Subscribe(t, name, fn, context);
      Run(t, [DoSubscribe(name, fn, context)]) == Trace(r.state, [r.token])
  {
    assert [DoSubscribe(name, fn, context)][1..] == [];
  }

  /** `unsubscribe(tidal)` is documented to drop every subscription made
      without a context. Here the loop over "a" throws after removing its
      first record, so the scan never reaches "b": one record of "a" and the
      record of "b" survive. The corrected call empties both channels. */
  lemma DefaultContextScanThrows()
    ensures var t := DefaultContextOnTwoChannels();
      var s := Unsubscribe(t, ByCtx(Self));
      && s.completion == Threw
      && s.state.cache["a"] == [Sub(Fn(2), Self, 1)]
      && s.state.cache["b"] == t.cache["b"]
      && UnsubscribeIntended(t, ByCtx(Self)).state.cache == map["a" := [], "b" := []]
  {
    var t := DefaultContextOnTwoChannels();
    var a1 := Sub(Fn(1), Self, 0);
    var a2 := Sub(Fn(2), Self, 1);
    var b1 := Sub(Fn(3), Self, 2);
    var c := CtxIs(Self);
    assert [a1, a2][..0] + [a1, a2][1..] == [a2];
    assert Loop([a1, a2], c) == Crash([a2]);
    assert Scan(t.cache, t.order, c) == Crash(t.cache["a" := [a2]]);
    assert Survivors([a2], c) == [] by {
      assert [a2][1..] == [];
    }
    assert Survivors([a1, a2], c) == [] by {
      assert [a1, a2][1..] == [a2];
    }
    assert Survivors([b1], c) == [] by {
      assert [b1][1..] == [];
    }
    var m := UnsubscribeIntended(t, ByCtx(Self)).state.cache;
    assert m.Keys == {"a", "b"};
    assert m["a"] == [] && m["b"] == [];
  }

  /** Two registries over the same channels that both hold, in every
      channel, exactly the records of `cache` a criterion does not match are
      the same registry. */
  lemma SameSurvivors(cache: map<string, seq<Sub>>, m: map<string, seq<Sub>>, m': map<string, seq<Sub>>, c: Criterion)
    requires m.Keys == cache.Keys && m'.Keys == cache.Keys
    requires forall n :: n in cache ==> m[n] == Survivors(cache[n], c)
    requires forall n :: n in cache ==> m'[n] == Survivors(cache[n], c)
    ensures m == m'
  {
  }

  /** For every uid, the code as written leaves the registry exactly as the
      corrected call does: the record carrying the uid is removed and nothing
      else. The two differ only in what the call completes with, and the code
      as written throws exactly when that record is not the last of its
      channel. */
  lemma UidUnsubscribeRemovesAsIntended(t: Tidal, u: int)
    requires Valid(t)
    ensures var s := Unsubscribe(t, ByUid(u));
      && s.state == UnsubscribeIntended(t, ByUid(u)).state
      && (s.completion == Threw <==> exists n :: n in t.cache && NonFinalMatch(t.cache[n], UidIs(u)))
  {
    var s := Unsubscribe(t, ByUid(u));
    var s' := UnsubscribeIntended(t, ByUid(u));
    assert Unique(t.cache, UidIs(u)) by {
      UidIsUnique(t, u);
    }
    UnsubscribeUnique(t, ByUid(u));
    IntendedRemovesAllMatches(t, ByUid(u));
    SameSurvivors(t.cache, s.state.cache, s'.state.cache, UidIs(u));
  }

  /** Unsubscribing by the token of a record that is not the last of its
      channel removes that record but still throws: the loop goes on to read
      the slot past the shortened end. Here token 0 is removed from "a", the
      scan stops there and "b" is never reached; the corrected call makes
      the same removal and returns the dispatcher. */
  lemma EarlierTokenThrows()
    ensures var t := DefaultContextOnTwoChannels();
      var s := Unsubscribe(t, ByUid(0));
      && s.completion == Threw
      && s.state.cache == t.cache["a" := [Sub(Fn(2), Self, 1)]]
      && UnsubscribeIntended(t, ByUid(0)) == Step(s.state, Normal(This))
  {
    var t := DefaultContextOnTwoChannels();
    var a1 := Sub(Fn(1), Self, 0);
    var a2 := Sub(Fn(2), Self, 1);
    var b1 := Sub(Fn(3), Self, 2);
    var c := UidIs(0);
    assert [a1, a2][..0] + [a1, a2][1..] == [a2];
    assert Loop([a1, a2], c) == Crash([a2]);
    assert Scan(t.cache, t.order, c) == Crash(t.cache["a" := [a2]]);
    assert Survivors([a2], c) == [a2] by {
      assert [a2][1..] == [];
    }
    assert Survivors([a1, a2], c) == [a2] by {
      assert [a1, a2][1..] == [a2];
    }
    assert Survivors([b1], c) == [b1] by {
      assert [b1][1..] == [];
    }
    var m := UnsubscribeIntended(t, ByUid(0)).state.cache;
    assert m.Keys == {"a", "b"};
    assert m["a"] == [a2] && m["b"] == [b1];
  }

  /** `unsubscribe(tidal)` is documented to drop every subscription made
      without a context. A record subscribed with no context is bound to the
      dispatcher itself, and the corrected call takes it away, along with
      every other record bound to the dispatcher. */
  lemma DefaultContextRemovedByDispatcher(t: Tidal, name: string, fn: Fn)
    ensures var r := Subscribe(t, name, fn, None);
      var s := UnsubscribeIntended(r.state, ByCtx(Self));
      && Sub(fn, Self, r.token) in r.state.cache[name]
      && Sub(fn, Self, r.token) !in s.state.cache[name]
      && forall n, x :: n in s.state.cache && x in s.state.cache[n] ==> x.ctx != Self
  {
    var r := Subscribe(t, name, fn, None);
    var s := UnsubscribeIntended(r.state, ByCtx(Self));
    IntendedRemovesAllMatches(r.state, ByCtx(Self));
    assert r.state.cache[name][|r.state.cache[name]| - 1] == Sub(fn, Self, r.token);
    forall n, x | n in s.state.cache && x in s.state.cache[n] ensures x.ctx != Self {
      assert !Matches(x, CtxIs(Self));
    }
  }

  /** A context selector, even one that throws, never removes a record bound
      to another context. In particular `unsubscribe(tidal)` keeps every
      record subscribed with an object of its own as context. */
  lemma ContextSelectorSparesOthers(t: Tidal, c: Ctx)
    ensures var s := Unsubscribe(t, ByCtx(c));
      forall n, x :: n in t.cache && x in t.cache[n] && x.ctx != c ==> x in s.state.cache[n]
  {
    var s := Unsubscribe(t, ByCtx(c));
    ScanSelectorRunsScan(t, ByCtx(c));
    ScanKeepsSurvivors(t.cache, t.order, CtxIs(c));
    forall n, x | n in t.cache && x in t.cache[n] && x.ctx != c ensures x in s.state.cache[n] {
      SurvivorsMembers(t.cache[n], CtxIs(c));
      SurvivorsMembers(s.state.cache[n], CtxIs(c));
    }
  }

  /** A record subscribed with an object as its context survives
      `unsubscribe(tidal)`. */
  lemma OwnContextSurvivesDispatcherSelector(t: Tidal, name: string, fn: Fn, k: nat)
    ensures var r := Subscribe(t, name, fn, Some(Obj(k)));
      Sub(fn, Obj(k), r.token) in Unsubscribe(r.state, ByCtx(Self)).state.cache[name]
  {
    var r := Subscribe(t, name, fn, Some(Obj(k)));
    assert r.state.cache[name][|r.state.cache[name]| - 1] == Sub(fn, Obj(k), r.token);
    ContextSelectorSparesOthers(r.state, Self);
  }

  /** A single match is enough: with `fn` and then another callback on "e",
      `unsubscribe(["e", fn])` removes `fn` and then throws, whether the
      pair form is read as removing one record or all records with `fn`. */
  lemma SingleMatchPairThrows()
    ensures var a := Sub(Fn(1), Self, 0);
      var b := Sub(Fn(2), Self, 1);
      var t := Tidal(map["e" := [a, b]], ["e"], 1);
      Unsubscribe(t, Pair("e", Fn(1))) == Step(t.(cache := map["e" := [b]]), Threw)
  {
    var a := Sub(Fn(1), Self, 0);
    var b := Sub(Fn(2), Self, 1);
    assert [a, b][..0] + [a, b][1..] == [b];
    assert Loop([a, b], FnIs(Fn(1))) == Crash([b]);
    assert map["e" := [a, b]]["e" := [b]] == map["e" := [b]];
  }
}

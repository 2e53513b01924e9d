/** `Tidal.prototype.subscribe`: append a record to a channel and hand out
    the next uid. */
module Subscribing {
  import opened State

  /** The dispatcher after the call, and the uid the call returned. */
  datatype Subscribed = Subscribed(state: Tidal, token: int)

  /** `context || this`: a context that is missing or falsy is represented by
      `None`, and the record is then bound to the dispatcher itself. */
  function BoundCtx(context: Option<Ctx>): Ctx
  {
    match context
    case None => Self
    case Some(x) => x
  }

  function Subscribe(t: Tidal, name: string, fn: Fn, context: Option<Ctx>): (r: Subscribed)
    ensures r.token == t.uid + 1 && r.state.uid == r.token
    ensures name in r.state.cache
    ensures r.state.cache[name] == ChannelIn(t.cache, name) + [Sub(fn, BoundCtx(context), r.token)]
    ensures forall n :: n != name ==> (n in r.state.cache <==> n in t.cache)
    ensures forall n :: n != name && n in t.cache ==> r.state.cache[n] == t.cache[n]
  {
    var hs := ChannelIn(t.cache, name);
    var order := if name in t.cache then t.order else t.order + [name];
    var token := t.uid + 1;
    Subscribed(Tidal(t.cache[name := hs + [Sub(fn, BoundCtx(context), token)]], order, token), token)
  }

  /** The uid handed out is above every uid already stored, so no stored
      record (and, the counter only growing, no earlier token) carries it. */
  lemma SubscribeFreshToken(t: Tidal, name: string, fn: Fn, context: Option<Ctx>)
    requires Valid(t)
    ensures var r := Subscribe(t, name, fn, context);
      forall n, s :: n in t.cache && s in t.cache[n] ==> s.uid < r.token
  {
  }

  /** The first subscription on a fresh dispatcher gets uid 0. */
  lemma FirstTokenIsZero(name: string, fn: Fn, context: Option<Ctx>)
    ensures Subscribe(Init(), name, fn, context).token == 0
    ensures Subscribe(Init(), name, fn, context).state.cache[name] == [Sub(fn, BoundCtx(context), 0)]
  {
  }

  /** Subscribing keeps the registry valid: the new record carries the
      largest uid so far, it goes to the end of its channel, and a channel
      created by the call is added to the end of the enumeration order. */
  lemma {:induction false} SubscribeKeepsValid(t: Tidal, name: string, fn: Fn, context: Option<Ctx>)
    requires Valid(t)
    ensures Valid(Subscribe(t, name, fn, context).state)
  {
    var r := Subscribe(t, name, fn, context);
    var x := Sub(fn, BoundCtx(context), r.token);
    AppendKeepsIncreasing(t, name, x);
    SubscribeKeepsOrder(t, name, fn, context);
    SubscribeKeepsUids(t, name, fn, context);
  }

  lemma AppendKeepsIncreasing(t: Tidal, name: string, x: Sub)
    requires Valid(t) && x.uid == t.uid + 1
    ensures Increasing(ChannelIn(t.cache, name) + [x])
  {
    var old_hs := ChannelIn(t.cache, name);
    var hs := old_hs + [x];
    forall i, j | 0 <= i < j < |hs| ensures hs[i].uid < hs[j].uid {
      if j < |old_hs| {
        assert hs[i] == old_hs[i] && hs[j] == old_hs[j];
      } else {
        assert hs[i] == old_hs[i] && hs[i] in old_hs && name in t.cache;
      }
    }
  }

  /** `for (name in cache)` visits channels in creation order: a channel
      the call creates joins the end of that order, existing channels keep
      their places, and the order still lists every channel exactly once. */
  lemma SubscribeKeepsOrder(t: Tidal, name: string, fn: Fn, context: Option<Ctx>)
    requires Valid(t)
    ensures var t' := Subscribe(t, name, fn, context).state;
      && t'.order == (if name in t.cache then t.order else t.order + [name])
      && Enumerates(t'.order, t'.cache)
  {
    var t' := Subscribe(t, name, fn, context).state;
    forall n | n in t'.cache ensures n in t'.order {
      if n != name {
        assert n in t.cache;
      }
    }
    forall n | n in t'.order ensures n in t'.cache {
      if n != name {
        assert n in t.order;
      }
    }
    if name !in t.cache {
      forall i, j | 0 <= i < j < |t'.order| ensures t'.order[i] != t'.order[j] {
        if j == |t.order| {
          assert t'.order[i] == t.order[i] && t.order[i] in t.order;
        } else {
          assert t'.order[i] == t.order[i] && t'.order[j] == t.order[j];
        }
      }
    }
  }

  /** Where a record of the registry after the call comes from: it is the
      new record, stored under `name`, or it was stored under the same
      channel before. */
  lemma SubscribeOrigin(t: Tidal, name: string, x: Sub, n: string, s: Sub)
    requires t.uid + 1 == x.uid
    requires var t' := Tidal(t.cache[name := ChannelIn(t.cache, name) + [x]], t.order, x.uid);
      n in t'.cache && s in t'.cache[n]
    ensures (n == name && s == x) || (n in t.cache && s in t.cache[n])
  {
    if n == name && s != x {
      assert s in ChannelIn(t.cache, name);
    }
  }

  lemma SubscribeKeepsUids(t: Tidal, name: string, fn: Fn, context: Option<Ctx>)
    requires Valid(t)
    ensures var t' := Subscribe(t, name, fn, context).state;
      && (forall n, s :: n in t'.cache && s in t'.cache[n] ==> 0 <= s.uid <= t'.uid)
      && (forall n1, n2, s1, s2 ::
            n1 in t'.cache && n2 in t'.cache && s1 in t'.cache[n1] && s2 in t'.cache[n2] && s1.uid == s2.uid
            ==> n1 == n2)
  {
    var r := Subscribe(t, name, fn, context);
    var x := Sub(fn, BoundCtx(context), r.token);
    assert r.state.cache == t.cache[name := ChannelIn(t.cache, name) + [x]];
    AppendedUidsBounded(t, name, x);
    AppendedUidsDistinct(t, name, x);
  }

  /** After appending a record with the next uid, every stored uid is
      between 0 and that uid. */
  lemma AppendedUidsBounded(t: Tidal, name: string, x: Sub)
    requires x.uid == t.uid + 1 && t.uid >= -1
    requires forall n: string, s: Sub :: n in t.cache && s in t.cache[n] ==> 0 <= s.uid <= t.uid
    ensures var cache' := t.cache[name := ChannelIn(t.cache, name) + [x]];
      forall n: string, s: Sub :: n in cache' && s in cache'[n] ==> 0 <= s.uid <= x.uid
  {
    var cache' := t.cache[name := ChannelIn(t.cache, name) + [x]];
    forall n: string, s: Sub | n in cache' && s in cache'[n]
      ensures 0 <= s.uid <= x.uid
    {
      SubscribeOrigin(t, name, x, n, s);
    }
  }

  /** After appending a record with the next uid, a uid still belongs to at
      most one channel. */
  lemma AppendedUidsDistinct(t: Tidal, name: string, x: Sub)
    requires x.uid == t.uid + 1
    requires forall n: string, s: Sub :: n in t.cache && s in t.cache[n] ==> 0 <= s.uid <= t.uid
    requires forall n1: string, n2: string, s1: Sub, s2: Sub ::
      n1 in t.cache && n2 in t.cache && s1 in t.cache[n1] && s2 in t.cache[n2] && s1.uid == s2.uid
      ==> n1 == n2
    ensures var cache' := t.cache[name := ChannelIn(t.cache, name) + [x]];
      forall n1: string, n2: string, s1: Sub, s2: Sub ::
        n1 in cache' && n2 in cache' && s1 in cache'[n1] && s2 in cache'[n2] && s1.uid == s2.uid
        ==> n1 == n2
  {
    var cache' := t.cache[name := ChannelIn(t.cache, name) + [x]];
    forall n1: string, n2: string, s1: Sub, s2: Sub |
      n1 in cache' && n2 in cache' && s1 in cache'[n1] && s2 in cache'[n2] && s1.uid == s2.uid
      ensures n1 == n2
    {
      SubscribeOrigin(t, name, x, n1, s1);
      SubscribeOrigin(t, name, x, n2, s2);
    }
  }
}

/** The dispatcher's data model: callbacks and contexts as opaque identities,
    subscription records, and the dispatcher state (the channel registry plus
    the uid counter). */
module State {

  datatype Option<T> = None | Some(value: T)

  /** A callback. The dispatcher never looks inside one; it only compares
      callbacks by identity and invokes them. */
  datatype Fn = Fn(id: nat)

  /** The receiver a callback is bound to: the dispatcher instance itself,
      or some other object. */
  datatype Ctx = Self | Obj(id: nat)

  /** One subscription record `{fn, ctx, uid}`. */
  datatype Sub = Sub(fn: Fn, ctx: Ctx, uid: int)

  /** The value a call hands back when it returns normally: `undefined`
      (the early `return;` statements) or the dispatcher (`return this`). */
  datatype Ret = Undefined | This

  /** How a call ends: it returns, or an exception escapes from it (a
      TypeError of the dispatcher's own, or one a callback raises). */
  datatype Completion = Normal(ret: Ret) | Threw

  /** The value a loop has built when it stops, and whether it stopped by
      running out of iterations (`Ok`) or by throwing (`Crash`). */
  datatype Outcome<T> = Ok(value: T) | Crash(value: T)

  /** The dispatcher. `cache` maps a channel name to its records in
      subscription order; `order` lists the channel names in the order they
      were created, which is the order `for (name in cache)` visits them;
      `uid` is the last uid handed out. */
  datatype Tidal = Tidal(cache: map<string, seq<Sub>>, order: seq<string>, uid: int)

  /** The records stored under `name`, an absent channel reading as an
      empty one. */
  function ChannelIn(cache: map<string, seq<Sub>>, name: string): seq<Sub>
  {
    if name in cache then cache[name] else []
  }

  predicate NoDup(names: seq<string>)
  {
    forall i, j :: 0 <= i < j < |names| ==> names[i] != names[j]
  }

  /** Dropping the first name of a duplicate-free list leaves a
      duplicate-free list without that name. */
  lemma NoDupTail(names: seq<string>)
    requires NoDup(names) && names != []
    ensures NoDup(names[1..]) && names[0] !in names[1..]
  {
    var tail := names[1..];
    forall i, j | 0 <= i < j < |tail| ensures tail[i] != tail[j] {
      assert tail[i] == names[i + 1] && tail[j] == names[j + 1];
    }
    forall j | 0 <= j < |tail| ensures tail[j] != names[0] {
      assert tail[j] == names[j + 1];
    }
  }

  /** Records listed in strictly increasing uid order. */
  predicate Increasing(hs: seq<Sub>)
  {
    forall i, j :: 0 <= i < j < |hs| ==> hs[i].uid < hs[j].uid
  }

  /** `b` keeps only records that were in `a` and keeps them sorted by uid. */
  predicate Shrinks(a: seq<Sub>, b: seq<Sub>)
  {
    && (forall x :: x in b ==> x in a)
    && (Increasing(a) ==> Increasing(b))
  }

  /** `order` lists every channel of `cache` exactly once. */
  ghost predicate Enumerates(order: seq<string>, cache: map<string, seq<Sub>>)
  {
    NoDup(order) && forall n :: n in cache <==> n in order
  }

  /** What every reachable dispatcher satisfies: `order` enumerates the
      channels exactly once each, every stored uid was handed out already,
      and no uid is stored twice, neither in one channel nor across two. */
  ghost predicate Valid(t: Tidal)
  {
    && t.uid >= -1
    && Enumerates(t.order, t.cache)
    && (forall n :: n in t.cache ==> Increasing(t.cache[n]))
    && (forall n, s :: n in t.cache && s in t.cache[n] ==> 0 <= s.uid <= t.uid)
    && (forall n1, n2, s1, s2 ::
          n1 in t.cache && n2 in t.cache && s1 in t.cache[n1] && s2 in t.cache[n2] && s1.uid == s2.uid
          ==> n1 == n2)
  }

  /** `new Tidal()`: no channels, and the counter one below the first uid. */
  function Init(): (t: Tidal)
    ensures Valid(t)
    ensures forall n :: n !in t.cache
    ensures t.uid + 1 == 0
  {
    Tidal(map[], [], -1)
  }

  lemma ShrinksTransitive(a: seq<Sub>, b: seq<Sub>, c: seq<Sub>)
    requires Shrinks(a, b) && Shrinks(b, c)
    ensures Shrinks(a, c)
  {
  }

  /** Prepending a record below every uid of a sorted list keeps it sorted. */
  lemma IncreasingCons(x: Sub, ys: seq<Sub>)
    requires Increasing(ys)
    requires forall y :: y in ys ==> x.uid < y.uid
    ensures Increasing([x] + ys)
  {
    var s := [x] + ys;
    forall i, j | 0 <= i < j < |s|
      ensures s[i].uid < s[j].uid
    {
      if i > 0 {
        assert s[i] == ys[i - 1] && s[j] == ys[j - 1];
      } else {
        assert s[j] == ys[j - 1];
        assert s[j] in ys;
      }
    }
  }

  /** Removing records from the registry, channel by channel, without
      changing its channels, their order or the counter keeps it valid. */
  lemma {:induction false} ValidAfterShrink(t: Tidal, t': Tidal)
    requires Valid(t)
    requires t'.order == t.order && t'.uid == t.uid
    requires t'.cache.Keys == t.cache.Keys
    requires forall n :: n in t.cache ==> Shrinks(t.cache[n], t'.cache[n])
    ensures Valid(t')
  {
    forall n | n in t'.cache
      ensures Increasing(t'.cache[n])
    {
      assert Shrinks(t.cache[n], t'.cache[n]);
    }
    forall n, s | n in t'.cache && s in t'.cache[n]
      ensures 0 <= s.uid <= t'.uid
    {
      assert Shrinks(t.cache[n], t'.cache[n]);
      assert s in t.cache[n];
    }
    forall n1, n2, s1, s2 |
      n1 in t'.cache && n2 in t'.cache && s1 in t'.cache[n1] && s2 in t'.cache[n2] && s1.uid == s2.uid
      ensures n1 == n2
    {
      assert Shrinks(t.cache[n1], t'.cache[n1]);
      assert Shrinks(t.cache[n2], t'.cache[n2]);
      assert s1 in t.cache[n1] && s2 in t.cache[n2];
    }
  }
}

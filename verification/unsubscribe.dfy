/** `Tidal.prototype.unsubscribe`: the selector's runtime shape picks how
    records are removed. */
module Unsubscribing {
  import opened State
  import opened Removal

  /** The selector, by the shape the source tests for: an array
      `[name, fn]`, a string, a function, an object, a number, or anything
      else (a boolean, `undefined`), which matches no branch. */
  datatype Selector =
    | Pair(name: string, fn: Fn)
    | Name(name: string)
    | ByFn(f: Fn)
    | ByCtx(c: Ctx)
    | ByUid(u: int)
    | Other

  /** The dispatcher after the call, and how the call ended. */
  datatype Step = Step(state: Tidal, completion: Completion)

  /** `for (name in cache)` running the removal loop on each channel of
      `names` in turn; a throw stops the scan with the channels reached so
      far updated. */
  function Scan(cache: map<string, seq<Sub>>, names: seq<string>, c: Criterion): (r: Outcome<map<string, seq<Sub>>>)
    ensures r.value.Keys == cache.Keys
    decreases |names|
  {
    if names == [] then Ok(cache)
    else if names[0] !in cache then Scan(cache, names[1..], c)
    else match Loop(cache[names[0]], c)
      case Ok(hs) => Scan(cache[names[0] := hs], names[1..], c)
      case Crash(hs) => Crash(cache[names[0] := hs])
  }

  /** The criterion a callback, context or uid selector compares with. */
  function CriterionOf(sel: Selector): Option<Criterion>
  {
    match sel
    case ByFn(f) => Some(FnIs(f))
    case ByCtx(x) => Some(CtxIs(x))
    case ByUid(u) => Some(UidIs(u))
    case _ => None
  }

  function Finish(t: Tidal, o: Outcome<map<string, seq<Sub>>>): Step
  {
    match o
    case Ok(m) => Step(t.(cache := m), Normal(This))
    case Crash(m) => Step(t.(cache := m), Threw)
  }

  function Unsubscribe(t: Tidal, sel: Selector): (s: Step)
    ensures s.state.uid == t.uid && s.state.order == t.order
    ensures s.state.cache.Keys == t.cache.Keys
  {
    match sel
    case Pair(name, fn) =>
      if name !in t.cache then Step(t, Normal(Undefined))
      else (match Loop(t.cache[name], FnIs(fn))
        case Ok(hs) => Finish(t, Ok(t.cache[name := hs]))
        case Crash(hs) => Finish(t, Crash(t.cache[name := hs])))
    case Name(name) =>
      if name !in t.cache then Step(t, Normal(Undefined))
      else Step(t.(cache := t.cache[name := []]), Normal(This))
    case Other => Step(t, Normal(This))
    case _ => Finish(t, Scan(t.cache, t.order, CriterionOf(sel).value))
  }

  /** The scan only removes matching records, keeps every other record in
      order, and leaves channels it does not reach as they were. */
  lemma {:induction false} ScanKeepsSurvivors(cache: map<string, seq<Sub>>, names: seq<string>, c: Criterion)
    ensures var m := Scan(cache, names, c).value;
      forall n :: n in cache ==>
        && Shrinks(cache[n], m[n])
        && Survivors(m[n], c) == Survivors(cache[n], c)
        && (n !in names ==> m[n] == cache[n])
    decreases |names|
  {
    if names == [] {
    } else if names[0] !in cache {
      ScanKeepsSurvivors(cache, names[1..], c);
    } else {
      var k := names[0];
      LoopOutcome(cache[k], c);
      var cache1 := cache[k := Loop(cache[k], c).value];
      if Loop(cache[k], c).Ok? {
        ScanKeepsSurvivors(cache1, names[1..], c);
        var m := Scan(cache, names, c).value;
        forall n | n in cache
          ensures Shrinks(cache[n], m[n]) && Survivors(m[n], c) == Survivors(cache[n], c)
        {
          ShrinksTransitive(cache[n], cache1[n], m[n]);
        }
      }
    }
  }

  /** The scan throws exactly when some channel it reaches has a matching
      record before its last one. */
  lemma {:induction false} ScanThrowsIff(cache: map<string, seq<Sub>>, names: seq<string>, c: Criterion)
    requires NoDup(names)
    ensures Scan(cache, names, c).Crash? <==>
      exists k :: 0 <= k < |names| && names[k] in cache && NonFinalMatch(cache[names[k]], c)
    decreases |names|
  {
    if names == [] {
    } else {
      var k := names[0];
      var tail := names[1..];
      NoDupTail(names);
      var cache1 := if k in cache then cache[k := Loop(cache[k], c).value] else cache;
      if k in cache {
        LoopOutcome(cache[k], c);
      }
      if k !in cache || Loop(cache[k], c).Ok? {
        ScanThrowsIff(cache1, tail, c);
        assert (exists j :: 0 <= j < |tail| && tail[j] in cache1 && NonFinalMatch(cache1[tail[j]], c))
          <==> (exists j :: 0 <= j < |names| && names[j] in cache && NonFinalMatch(cache[names[j]], c))
        by {
          forall j | 0 <= j < |tail| ensures tail[j] == names[j + 1] && tail[j] != k {
            assert names[0] != names[j + 1];
          }
          if exists j :: 0 <= j < |names| && names[j] in cache && NonFinalMatch(cache[names[j]], c) {
            var j :| 0 <= j < |names| && names[j] in cache && NonFinalMatch(cache[names[j]], c);
            assert j != 0;
            assert tail[j - 1] in cache1 && NonFinalMatch(cache1[tail[j - 1]], c);
          }
        }
      } else {
        assert names[0] in cache && NonFinalMatch(cache[names[0]], c);
      }
    }
  }

  /** When the scan returns, every channel it reached holds exactly its
      non-matching records and the others are as they were. */
  lemma {:induction false} ScanCleansWhenOk(cache: map<string, seq<Sub>>, names: seq<string>, c: Criterion)
    requires NoDup(names)
    ensures var r := Scan(cache, names, c);
      r.Ok? ==> forall n :: n in cache ==> r.value[n] == (if n in names then Survivors(cache[n], c) else cache[n])
    decreases |names|
  {
    if names != [] {
      var k := names[0];
      var tail := names[1..];
      NoDupTail(names);
      if k !in cache {
        ScanCleansWhenOk(cache, tail, c);
      } else {
        LoopOutcome(cache[k], c);
        if Loop(cache[k], c).Ok? {
          var cache1 := cache[k := Loop(cache[k], c).value];
          ScanCleansWhenOk(cache1, tail, c);
          ScanKeepsSurvivors(cache1, tail, c);
        }
      }
    }
  }

  /** When the scan throws in the `k`-th channel (the first one with a match
      before its last record), the channels before it are clean, that one is
      left as the loop had it when it threw, and the channels after it are
      untouched. */
  lemma {:induction false} ScanCrashShape(cache: map<string, seq<Sub>>, names: seq<string>, c: Criterion, k: nat)
    requires NoDup(names)
    requires k < |names| && names[k] in cache && NonFinalMatch(cache[names[k]], c)
    requires forall j :: 0 <= j < k && names[j] in cache ==> !NonFinalMatch(cache[names[j]], c)
    ensures var r := Scan(cache, names, c);
      && r.Crash?
      && (forall j :: 0 <= j < k && names[j] in cache ==> r.value[names[j]] == Survivors(cache[names[j]], c))
      && r.value[names[k]] == Loop(cache[names[k]], c).value
      && (forall j :: k < j < |names| && names[j] in cache ==> r.value[names[j]] == cache[names[j]])
    decreases |names|
  {
    var h := names[0];
    var tail := names[1..];
    NoDupTail(names);
    assert forall j :: 0 <= j < |tail| ==> tail[j] == names[j + 1];
    if k == 0 {
      LoopOutcome(cache[h], c);
    } else if h !in cache {
      ScanCrashShape(cache, tail, c, k - 1);
    } else {
      LoopOutcome(cache[h], c);
      var cache1 := cache[h := Loop(cache[h], c).value];
      ScanCrashShape(cache1, tail, c, k - 1);
      ScanKeepsSurvivors(cache1, tail, c);
      assert h !in tail;
    }
  }

  /** Any call keeps the registry valid: records only ever leave a channel,
      and channels, their order and the counter are never touched. */
  lemma UnsubscribeKeepsValid(t: Tidal, sel: Selector)
    requires Valid(t)
    ensures Valid(Unsubscribe(t, sel).state)
  {
    UnsubscribeShrinks(t, sel);
    ValidAfterShrink(t, Unsubscribe(t, sel).state);
  }

  /** Every channel after the call holds only records it held before, still
      sorted by uid when they were. */
  lemma UnsubscribeShrinks(t: Tidal, sel: Selector)
    ensures forall n :: n in t.cache ==> Shrinks(t.cache[n], Unsubscribe(t, sel).state.cache[n])
  {
    var s := Unsubscribe(t, sel);
    match sel
    case Pair(name, fn) =>
      if name in t.cache {
        LoopOutcome(t.cache[name], FnIs(fn));
      }
    case Name(name) =>
    case Other =>
    case _ =>
      ScanKeepsSurvivors(t.cache, t.order, CriterionOf(sel).value);
  }

  /** `unsubscribe([name, fn])`: nothing happens and `undefined` comes back
      when the channel is absent. Otherwise only that channel changes: its
      records with another callback all stay, in order; the call throws
      exactly when a record with `fn` sits before the last slot; and when it
      returns, every record with `fn` is gone. */
  lemma UnsubscribePair(t: Tidal, name: string, fn: Fn)
    ensures var s := Unsubscribe(t, Pair(name, fn));
      && (name !in t.cache ==> s == Step(t, Normal(Undefined)))
      && (name in t.cache ==>
           && (forall n :: n in t.cache && n != name ==> s.state.cache[n] == t.cache[n])
           && Survivors(s.state.cache[name], FnIs(fn)) == Survivors(t.cache[name], FnIs(fn))
           && Shrinks(t.cache[name], s.state.cache[name])
           && (s.completion == Threw <==> NonFinalMatch(t.cache[name], FnIs(fn)))
           && (s.completion != Threw ==>
                 s.completion == Normal(This) && s.state.cache[name] == Survivors(t.cache[name], FnIs(fn))))
  {
    if name in t.cache {
      LoopOutcome(t.cache[name], FnIs(fn));
    }
  }

  /** `unsubscribe(name)`: an existing channel is emptied but stays, every
      other channel is untouched; an absent one changes nothing and
      `undefined` comes back. */
  lemma UnsubscribeName(t: Tidal, name: string)
    ensures var s := Unsubscribe(t, Name(name));
      && (name !in t.cache ==> s == Step(t, Normal(Undefined)))
      && (name in t.cache ==>
           && s.completion == Normal(This)
           && name in s.state.cache && s.state.cache[name] == []
           && forall n :: n in t.cache && n != name ==> s.state.cache[n] == t.cache[n])
  {
  }

  lemma ScanSelectorRunsScan(t: Tidal, sel: Selector)
    requires CriterionOf(sel).Some?
    ensures Unsubscribe(t, sel) == Finish(t, Scan(t.cache, t.order, CriterionOf(sel).value))
  {
  }

  /** Over an enumeration of all channels, the scan throws exactly when some
      channel has a match before its last record. */
  lemma ScanThrowsIffSomeChannel(cache: map<string, seq<Sub>>, order: seq<string>, c: Criterion)
    requires Enumerates(order, cache)
    ensures Scan(cache, order, c).Crash? <==> exists n :: n in cache && NonFinalMatch(cache[n], c)
  {
    ScanThrowsIff(cache, order, c);
    if exists n :: n in cache && NonFinalMatch(cache[n], c) {
      var n :| n in cache && NonFinalMatch(cache[n], c);
      assert n in order;
      var k :| 0 <= k < |order| && order[k] == n;
    }
  }

  /** `unsubscribe(fn)`, `unsubscribe(context)`, `unsubscribe(uid)`: every
      record that does not match stays in its channel, in order; the call
      throws exactly when some channel has a match before its last record;
      when it returns, no channel holds a matching record; and with no match
      anywhere nothing changes at all. */
  lemma UnsubscribeScan(t: Tidal, sel: Selector)
    requires Enumerates(t.order, t.cache) && CriterionOf(sel).Some?
    ensures var s := Unsubscribe(t, sel);
      var c := CriterionOf(sel).value;
      && (forall n :: n in t.cache ==> Survivors(s.state.cache[n], c) == Survivors(t.cache[n], c))
      && (s.completion == Threw <==> exists n :: n in t.cache && NonFinalMatch(t.cache[n], c))
      && (s.completion != Threw ==>
            s.completion == Normal(This) && forall n :: n in t.cache ==> s.state.cache[n] == Survivors(t.cache[n], c))
  {
    var c := CriterionOf(sel).value;
    ScanSelectorRunsScan(t, sel);
    ScanKeepsSurvivors(t.cache, t.order, c);
    ScanThrowsIffSomeChannel(t.cache, t.order, c);
    ScanCleansWhenOk(t.cache, t.order, c);
  }

  /** With no matching record anywhere, a scanning selector changes nothing
      and returns the dispatcher. */
  lemma UnsubscribeScanNoMatch(t: Tidal, sel: Selector)
    requires Enumerates(t.order, t.cache) && CriterionOf(sel).Some?
    requires forall n, x :: n in t.cache && x in t.cache[n] ==> !Matches(x, CriterionOf(sel).value)
    ensures Unsubscribe(t, sel) == Step(t, Normal(This))
  {
    var c := CriterionOf(sel).value;
    ScanSelectorRunsScan(t, sel);
    forall n | n in t.cache ensures !NonFinalMatch(t.cache[n], c) && Survivors(t.cache[n], c) == t.cache[n] {
      NoMatchUnchanged(t.cache[n], c);
    }
    ScanThrowsIffSomeChannel(t.cache, t.order, c);
    ScanCleansWhenOk(t.cache, t.order, c);
    var m := Scan(t.cache, t.order, c).value;
    assert m == t.cache;
  }

  /** When the scan throws, the channels are affected in enumeration order:
      those before the first channel with a match before its last record are
      cleaned, that one keeps whatever the loop had left, and all later ones
      are untouched. */
  lemma UnsubscribeScanThrows(t: Tidal, sel: Selector, k: nat)
    requires Enumerates(t.order, t.cache) && CriterionOf(sel).Some?
    requires k < |t.order| && NonFinalMatch(t.cache[t.order[k]], CriterionOf(sel).value)
    requires forall j :: 0 <= j < k ==> !NonFinalMatch(t.cache[t.order[j]], CriterionOf(sel).value)
    ensures var s := Unsubscribe(t, sel);
      var c := CriterionOf(sel).value;
      && s.completion == Threw
      && (forall j :: 0 <= j < k ==> s.state.cache[t.order[j]] == Survivors(t.cache[t.order[j]], c))
      && s.state.cache[t.order[k]] == Loop(t.cache[t.order[k]], c).value
      && (forall j :: k < j < |t.order| ==> s.state.cache[t.order[j]] == t.cache[t.order[j]])
  {
    assert forall j :: 0 <= j < |t.order| ==> t.order[j] in t.cache;
    ScanCrashShape(t.cache, t.order, CriterionOf(sel).value, k);
  }

  /** Matches confined to at most one record of at most one channel. */
  predicate Unique(cache: map<string, seq<Sub>>, c: Criterion)
  {
    && (forall n :: n in cache ==> AtMostOneMatch(cache[n], c))
    && (forall n1, n2, x1, x2 ::
          n1 in cache && n2 in cache && x1 in cache[n1] && x2 in cache[n2] && Matches(x1, c) && Matches(x2, c)
          ==> n1 == n2)
  }

  /** With unique matches, a channel other than the one holding the match
      has nothing to remove. */
  lemma UniqueElsewhereClean(cache: map<string, seq<Sub>>, c: Criterion, m: string, n: string)
    requires Unique(cache, c) && m in cache && n in cache && m != n
    requires NonFinalMatch(cache[m], c)
    ensures Survivors(cache[n], c) == cache[n]
  {
    var i0 :| 0 <= i0 < |cache[m]| - 1 && Matches(cache[m][i0], c);
    assert cache[m][i0] in cache[m];
    assert forall x :: x in cache[n] ==> !Matches(x, c);
    NoMatchUnchanged(cache[n], c);
  }

  /** When at most one record matches, the scan removes it and nothing else,
      whether or not it throws afterwards. */
  lemma ScanRemovesUnique(cache: map<string, seq<Sub>>, order: seq<string>, c: Criterion)
    requires Enumerates(order, cache) && Unique(cache, c)
    ensures forall n :: n in cache ==> Scan(cache, order, c).value[n] == Survivors(cache[n], c)
  {
    ScanThrowsIffSomeChannel(cache, order, c);
    ScanCleansWhenOk(cache, order, c);
    if Scan(cache, order, c).Crash? {
      assert exists j :: 0 <= j < |order| && order[j] in cache && NonFinalMatch(cache[order[j]], c) by {
        var n0 :| n0 in cache && NonFinalMatch(cache[n0], c);
        assert n0 in order;
      }
      ScanRemovesUniqueOnThrow(cache, order, c, FirstThrowing(order, cache, c));
    }
  }

  lemma ScanRemovesUniqueOnThrow(cache: map<string, seq<Sub>>, order: seq<string>, c: Criterion, k: nat)
    requires Enumerates(order, cache) && Unique(cache, c)
    requires k < |order| && order[k] in cache && NonFinalMatch(cache[order[k]], c)
    requires forall j :: 0 <= j < k && order[j] in cache ==> !NonFinalMatch(cache[order[j]], c)
    ensures forall n :: n in cache ==> Scan(cache, order, c).value[n] == Survivors(cache[n], c)
  {
    var r := Scan(cache, order, c);
    ScanCrashShape(cache, order, c, k);
    var m := order[k];
    forall n | n in cache ensures r.value[n] == Survivors(cache[n], c) {
      assert n in order;
      var j :| 0 <= j < |order| && order[j] == n;
      if j == k {
        LoopSingleMatch(cache[n], c);
      } else if j > k {
        assert n != m;
        UniqueElsewhereClean(cache, c, m, n);
      }
    }
  }

  /** On a valid dispatcher a uid is carried by at most one record. */
  lemma UidIsUnique(t: Tidal, u: int)
    requires Valid(t)
    ensures Unique(t.cache, UidIs(u))
  {
    forall n | n in t.cache ensures AtMostOneMatch(t.cache[n], UidIs(u)) {
      assert Increasing(t.cache[n]);
    }
  }

  /** `unsubscribe(uid)` removes the one record carrying that uid and
      nothing else, since uids are unique; it still throws when that record
      is not the last of its channel. */
  lemma UnsubscribeUidRemovesExactlyIt(t: Tidal, u: int)
    requires Valid(t)
    ensures var s := Unsubscribe(t, ByUid(u));
      && (forall n :: n in t.cache ==> s.state.cache[n] == Survivors(t.cache[n], UidIs(u)))
      && (forall n, x :: n in s.state.cache && x in s.state.cache[n] ==> x.uid != u)
      && (s.completion == Threw <==> exists n :: n in t.cache && NonFinalMatch(t.cache[n], UidIs(u)))
  {
    var s := Unsubscribe(t, ByUid(u));
    assert Unique(t.cache, UidIs(u)) by {
      UidIsUnique(t, u);
    }
    UnsubscribeUnique(t, ByUid(u));
    forall n, x | n in s.state.cache && x in s.state.cache[n] ensures x.uid != u {
      assert !Matches(x, UidIs(u));
    }
  }

  /** A callback, context or uid selector that at most one record meets
      removes exactly that record, and throws exactly when it is not the
      last of its channel. */
  lemma UnsubscribeUnique(t: Tidal, sel: Selector)
    requires Enumerates(t.order, t.cache) && CriterionOf(sel).Some?
    requires Unique(t.cache, CriterionOf(sel).value)
    ensures var s := Unsubscribe(t, sel);
      var c := CriterionOf(sel).value;
      && (forall n :: n in t.cache ==> s.state.cache[n] == Survivors(t.cache[n], c))
      && (forall n, x :: n in s.state.cache && x in s.state.cache[n] ==> !Matches(x, c))
      && (s.completion == Threw <==> exists n :: n in t.cache && NonFinalMatch(t.cache[n], c))
  {
    ScanSelectorRunsScan(t, sel);
    ScanUnique(t.cache, t.order, CriterionOf(sel).value);
  }

  /** A scan for a criterion that at most one record meets removes exactly
      that record, and throws exactly when it is not the last of its
      channel. */
  lemma ScanUnique(cache: map<string, seq<Sub>>, order: seq<string>, c: Criterion)
    requires Enumerates(order, cache) && Unique(cache, c)
    ensures var r := Scan(cache, order, c);
      && (forall n :: n in cache ==> r.value[n] == Survivors(cache[n], c))
      && (forall n, x :: n in r.value && x in r.value[n] ==> !Matches(x, c))
      && (r.Crash? <==> exists n :: n in cache && NonFinalMatch(cache[n], c))
  {
    var r := Scan(cache, order, c);
    ScanRemovesUnique(cache, order, c);
    ScanThrowsIffSomeChannel(cache, order, c);
    forall n, x | n in r.value && x in r.value[n] ensures !Matches(x, c) {
      SurvivorsMembers(cache[n], c);
    }
  }

  /** The position in `order` of the first channel with a match before its
      last record, when the scan over `order` throws. */
  function FirstThrowing(order: seq<string>, cache: map<string, seq<Sub>>, c: Criterion): (k: nat)
    requires exists j :: 0 <= j < |order| && order[j] in cache && NonFinalMatch(cache[order[j]], c)
    ensures k < |order| && order[k] in cache && NonFinalMatch(cache[order[k]], c)
    ensures forall j :: 0 <= j < k && order[j] in cache ==> !NonFinalMatch(cache[order[j]], c)
    decreases |order|
  {
    if order[0] in cache && NonFinalMatch(cache[order[0]], c) then 0
    else
      assert exists j :: 0 <= j < |order[1..]| && order[1..][j] in cache && NonFinalMatch(cache[order[1..][j]], c) by {
        var j :| 0 <= j < |order| && order[j] in cache && NonFinalMatch(cache[order[j]], c);
        assert order[1..][j - 1] == order[j];
      }
      1 + FirstThrowing(order[1..], cache, c)
  }
}

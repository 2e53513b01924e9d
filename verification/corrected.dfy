/** `unsubscribe` as its documentation (tidal.js:67-79) describes it: every
    matching record is removed and the call never throws. It differs from
    `Unsubscribing.Unsubscribe` only in the removal loop, which here looks at
    slot `i` again after a splice and re-reads the length on every test. */
module Corrected {
  import opened State
  import opened Removal
  import opened Unsubscribing

  /** Every matching record of one channel removed, by the corrected loop. */
  function Clean(hs: seq<Sub>, c: Criterion): (r: seq<Sub>)
    ensures r == Survivors(hs, c)
  {
    assert hs[..0] == [] && hs[0..] == hs;
    FixedLoop(hs, 0, c)
  }

  function UnsubscribeIntended(t: Tidal, sel: Selector): (s: Step)
    ensures s.completion != Threw
    ensures s.state.uid == t.uid && s.state.order == t.order
    ensures s.state.cache.Keys == t.cache.Keys
  {
    match sel
    case Pair(name, fn) =>
      if name !in t.cache then Step(t, Normal(Undefined))
      else Step(t.(cache := t.cache[name := Clean(t.cache[name], FnIs(fn))]), Normal(This))
    case Name(name) =>
      if name !in t.cache then Step(t, Normal(Undefined))
      else Step(t.(cache := t.cache[name := []]), Normal(This))
    case Other => Step(t, Normal(This))
    case _ =>
      var c := CriterionOf(sel).value;
      Step(t.(cache := map n | n in t.cache :: Clean(t.cache[n], c)), Normal(This))
  }

  /** The corrected call keeps the documented promise: after a callback,
      context or uid selector no channel holds a matching record, and every
      other record is still there, in order; after a pair selector the same
      holds for that channel and the others are untouched. */
  lemma IntendedRemovesAllMatches(t: Tidal, sel: Selector)
    ensures var s := UnsubscribeIntended(t, sel);
      && (CriterionOf(sel).Some? ==>
            forall n :: n in t.cache ==>
              && s.state.cache[n] == Survivors(t.cache[n], CriterionOf(sel).value)
              && forall x :: x in s.state.cache[n] ==> !Matches(x, CriterionOf(sel).value))
      && (sel.Pair? && sel.name in t.cache ==>
            && s.state.cache[sel.name] == Survivors(t.cache[sel.name], FnIs(sel.fn))
            && (forall x :: x in s.state.cache[sel.name] ==> x.fn != sel.fn)
            && forall n :: n in t.cache && n != sel.name ==> s.state.cache[n] == t.cache[n])
  {
    var s := UnsubscribeIntended(t, sel);
    if CriterionOf(sel).Some? {
      forall n | n in t.cache
        ensures forall x :: x in s.state.cache[n] ==> !Matches(x, CriterionOf(sel).value)
      {
        SurvivorsMembers(t.cache[n], CriterionOf(sel).value);
      }
    }
    if sel.Pair? && sel.name in t.cache {
      SurvivorsMembers(t.cache[sel.name], FnIs(sel.fn));
    }
  }

  /** Whenever the code as written returns normally, it has done exactly
      what the corrected version does: the two differ only on the calls that
      throw. */
  lemma AsWrittenAgreesWhenNormal(t: Tidal, sel: Selector)
    requires Enumerates(t.order, t.cache)
    requires Unsubscribe(t, sel).completion != Threw
    ensures Unsubscribe(t, sel) == UnsubscribeIntended(t, sel)
  {
    match sel
    case Pair(name, fn) =>
      if name in t.cache {
        UnsubscribePair(t, name, fn);
      }
    case Name(_) =>
    case Other =>
    case _ =>
      UnsubscribeScan(t, sel);
      var m := Unsubscribe(t, sel).state.cache;
      assert m == map n | n in t.cache :: Clean(t.cache[n], CriterionOf(sel).value);
  }

  /** The corrected call keeps the registry valid as well. */
  lemma IntendedKeepsValid(t: Tidal, sel: Selector)
    requires Valid(t)
    ensures Valid(UnsubscribeIntended(t, sel).state)
  {
    IntendedShrinks(t, sel);
    ValidAfterShrink(t, UnsubscribeIntended(t, sel).state);
  }

  lemma IntendedShrinks(t: Tidal, sel: Selector)
    ensures forall n :: n in t.cache ==> Shrinks(t.cache[n], UnsubscribeIntended(t, sel).state.cache[n])
  {
    var s := UnsubscribeIntended(t, sel);
    forall n | n in t.cache ensures Shrinks(t.cache[n], s.state.cache[n]) {
      match sel {
        case Pair(name, fn) =>
          if n == name {
            SurvivorsShrinks(t.cache[name], FnIs(fn));
          }
        case Name(_) =>
        case Other =>
        case _ =>
          SurvivorsShrinks(t.cache[n], CriterionOf(sel).value);
      }
    }
  }
}

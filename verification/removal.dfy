/** The removal loops of `Tidal.prototype.unsubscribe` (tidal.js:92-96 and
    103-109), as written: the bound `l` is read once before the loop, and the
    index moves on after every `splice`. So the record that slides into slot
    `i` is never looked at, and once something has been removed before the
    last slot, `handlers[i]` is read past the end and `undefined.fn` throws a
    TypeError. */
module Removal {
  import opened State

  /** What a record is compared against: its callback, its context or its uid. */
  datatype Criterion = FnIs(f: Fn) | CtxIs(c: Ctx) | UidIs(u: int)

  predicate Matches(s: Sub, c: Criterion)
  {
    match c
    case FnIs(f) => s.fn == f
    case CtxIs(x) => s.ctx == x
    case UidIs(u) => s.uid == u
  }

  /** Reference: the records that do not match, in their original order. */
  function Survivors(hs: seq<Sub>, c: Criterion): (r: seq<Sub>)
  {
    if hs == [] then []
    else (if Matches(hs[0], c) then [] else [hs[0]]) + Survivors(hs[1..], c)
  }

  /** Exactly the records that do not match survive. */
  lemma {:induction false} SurvivorsMembers(hs: seq<Sub>, c: Criterion)
    ensures forall x :: x in Survivors(hs, c) <==> x in hs && !Matches(x, c)
    ensures |Survivors(hs, c)| <= |hs|
  {
    if hs != [] {
      SurvivorsMembers(hs[1..], c);
      assert hs == [hs[0]] + hs[1..];
    }
  }

  /** Dropping records keeps a uid-sorted list sorted. */
  lemma {:induction false} SurvivorsShrinks(hs: seq<Sub>, c: Criterion)
    ensures Shrinks(hs, Survivors(hs, c))
  {
    SurvivorsMembers(hs, c);
    if hs != [] {
      SurvivorsShrinks(hs[1..], c);
      if !Matches(hs[0], c) {
        KeepHeadShrinks(hs, 0, Survivors(hs[1..], c));
      } else {
        assert Shrinks(hs[1..], Survivors(hs[1..], c));
        if Increasing(hs) {
          assert Increasing(hs[1..]);
        }
      }
    }
  }

  /** Some record other than the last one matches. */
  predicate NonFinalMatch(hs: seq<Sub>, c: Criterion)
  {
    exists j :: 0 <= j < |hs| - 1 && Matches(hs[j], c)
  }

  /** The loop `for (i, l = handlers.length; i < l; i++) if (match) splice(i, 1)`
      resumed at index `i` with bound `l`. */
  function SpliceLoop(hs: seq<Sub>, i: nat, l: nat, c: Criterion): (r: Outcome<seq<Sub>>)
    ensures forall x :: x in r.value ==> x in hs
    decreases l - i
  {
    if i >= l then Ok(hs)
    else if i >= |hs| then Crash(hs)
    else if Matches(hs[i], c) then SpliceLoop(hs[..i] + hs[i + 1..], i + 1, l, c)
    else SpliceLoop(hs, i + 1, l, c)
  }

  /** The loop as `unsubscribe` runs it on a channel: from index 0, with the
      bound read as the channel's length. It throws exactly when a record
      before the last one matches, and when it returns every matching record
      is gone and nothing else. */
  function Loop(hs: seq<Sub>, c: Criterion): (r: Outcome<seq<Sub>>)
    ensures r.Crash? <==> NonFinalMatch(hs, c)
    ensures r.Ok? ==> r.value == Survivors(hs, c)
  {
    SpliceLoopIsSweep(hs, 0, |hs|, c);
    assert hs[..0] == [] && hs[0..] == hs;
    SweepExact(hs, c);
    var o := Sweep(hs, |hs|, c);
    assert Prepend([], o).value == o.value by {
      assert [] + o.value == o.value;
    }
    SpliceLoop(hs, 0, |hs|, c)
  }

  function Prepend(p: seq<Sub>, o: Outcome<seq<Sub>>): Outcome<seq<Sub>>
  {
    match o
    case Ok(v) => Ok(p + v)
    case Crash(v) => Crash(p + v)
  }

  /** The same loop read over the records not yet reached, with `budget`
      iterations left: a non-matching record is kept; a matching one is
      dropped and the record after it is kept without being looked at; when
      the records run out before the budget, the loop throws. */
  function Sweep(rest: seq<Sub>, budget: int, c: Criterion): Outcome<seq<Sub>>
    decreases |rest|
  {
    if budget <= 0 then Ok(rest)
    else if rest == [] then Crash([])
    else if !Matches(rest[0], c) then Prepend([rest[0]], Sweep(rest[1..], budget - 1, c))
    else if |rest| == 1 then (if budget == 1 then Ok([]) else Crash([]))
    else Prepend([rest[1]], Sweep(rest[2..], budget - 1, c))
  }

  /** The loop resumed at `i` has kept the first `i` records as they are and
      sweeps the rest with the iterations left. */
  lemma {:induction false} SpliceLoopIsSweep(hs: seq<Sub>, i: nat, l: nat, c: Criterion)
    requires i <= |hs|
    ensures SpliceLoop(hs, i, l, c) == Prepend(hs[..i], Sweep(hs[i..], l - i, c))
    decreases l - i
  {
    if i >= l {
      assert hs[..i] + hs[i..] == hs;
    } else if i == |hs| {
      assert hs[..i] == hs && hs[i..] == [] && hs + [] == hs;
    } else if !Matches(hs[i], c) {
      SpliceLoopIsSweep(hs, i + 1, l, c);
      assert hs[i..][1..] == hs[i + 1..];
      assert hs[..i + 1] == hs[..i] + [hs[i]];
      match Sweep(hs[i + 1..], l - i - 1, c)
      case Ok(v) => assert hs[..i + 1] + v == hs[..i] + ([hs[i]] + v);
      case Crash(v) => assert hs[..i + 1] + v == hs[..i] + ([hs[i]] + v);
    } else if i == |hs| - 1 {
      assert hs[..i] + hs[i + 1..] == hs[..i];
      assert hs[..i] + [] == hs[..i];
    } else {
      var hs' := hs[..i] + hs[i + 1..];
      SpliceLoopIsSweep(hs', i + 1, l, c);
      assert hs'[..i + 1] == hs[..i] + [hs[i + 1]];
      assert hs'[i + 1..] == hs[i + 2..];
      assert hs[i..][1] == hs[i + 1] && hs[i..][2..] == hs[i + 2..];
      match Sweep(hs[i + 2..], l - i - 1, c)
      case Ok(v) => assert hs'[..i + 1] + v == hs[..i] + ([hs[i + 1]] + v);
      case Crash(v) => assert hs'[..i + 1] + v == hs[..i] + ([hs[i + 1]] + v);
    }
  }

  /** The loop over a whole channel is the sweep with one iteration per record. */
  lemma LoopIsSweep(hs: seq<Sub>, c: Criterion)
    ensures Loop(hs, c) == Sweep(hs, |hs|, c)
  {
    SpliceLoopIsSweep(hs, 0, |hs|, c);
    assert hs[..0] == [] && hs[0..] == hs;
    match Sweep(hs, |hs|, c)
    case Ok(v) => assert [] + v == v;
    case Crash(v) => assert [] + v == v;
  }

  /** More iterations than records: the sweep always throws. */
  lemma {:induction false} SweepOverBudget(rest: seq<Sub>, budget: int, c: Criterion)
    requires budget > |rest|
    ensures Sweep(rest, budget, c).Crash?
    decreases |rest|
  {
    if rest != [] {
      if !Matches(rest[0], c) {
        SweepOverBudget(rest[1..], budget - 1, c);
      } else if |rest| > 1 {
        SweepOverBudget(rest[2..], budget - 1, c);
      }
    }
  }

  lemma SurvivorsCons(x: Sub, ys: seq<Sub>, c: Criterion)
    ensures Survivors([x] + ys, c) == (if Matches(x, c) then [] else [x]) + Survivors(ys, c)
  {
    assert ([x] + ys)[1..] == ys;
  }

  /** Whatever the budget, the sweep drops only matching records and keeps
      the others in order. */
  lemma {:induction false} SweepKeepsSurvivors(rest: seq<Sub>, budget: int, c: Criterion)
    ensures Survivors(Sweep(rest, budget, c).value, c) == Survivors(rest, c)
    decreases |rest|
  {
    if budget <= 0 || rest == [] {
    } else if !Matches(rest[0], c) {
      SweepKeepsSurvivors(rest[1..], budget - 1, c);
      var v := Sweep(rest[1..], budget - 1, c).value;
      SurvivorsCons(rest[0], v, c);
      SurvivorsCons(rest[0], rest[1..], c);
      assert rest == [rest[0]] + rest[1..];
    } else if |rest| == 1 {
    } else {
      SweepKeepsSurvivors(rest[2..], budget - 1, c);
      var v := Sweep(rest[2..], budget - 1, c).value;
      SurvivorsCons(rest[1], v, c);
      SurvivorsCons(rest[1], rest[2..], c);
      SurvivorsCons(rest[0], rest[1..], c);
      assert rest[1..] == [rest[1]] + rest[2..];
      assert rest == [rest[0]] + rest[1..];
    }
  }

  /** Whatever the budget, the sweep adds nothing and keeps a uid-sorted
      list sorted. */
  lemma {:induction false} SweepShrinks(rest: seq<Sub>, budget: int, c: Criterion)
    ensures Shrinks(rest, Sweep(rest, budget, c).value)
    ensures |Sweep(rest, budget, c).value| <= |rest|
    decreases |rest|
  {
    if budget <= 0 || rest == [] {
    } else if !Matches(rest[0], c) {
      SweepShrinks(rest[1..], budget - 1, c);
      KeepHeadShrinks(rest, 0, Sweep(rest[1..], budget - 1, c).value);
    } else if |rest| == 1 {
    } else {
      SweepShrinks(rest[2..], budget - 1, c);
      KeepHeadShrinks(rest, 1, Sweep(rest[2..], budget - 1, c).value);
    }
  }

  /** Keeping `rest[k]` in front of a shrunk copy of what follows it is a
      shrunk copy of `rest`. */
  lemma KeepHeadShrinks(rest: seq<Sub>, k: nat, v: seq<Sub>)
    requires k < |rest|
    requires Shrinks(rest[k + 1..], v) && |v| <= |rest[k + 1..]|
    ensures Shrinks(rest, [rest[k]] + v) && |[rest[k]] + v| <= |rest|
  {
    forall x | x in [rest[k]] + v ensures x in rest {
      if x != rest[k] {
        assert x in v && x in rest[k + 1..];
      }
    }
    if Increasing(rest) {
      forall y | y in v ensures rest[k].uid < y.uid {
        var j :| 0 <= j < |rest[k + 1..]| && rest[k + 1..][j] == y;
        assert rest[k + 1 + j] == y;
      }
      assert Increasing(rest[k + 1..]);
      IncreasingCons(rest[k], v);
    }
  }

  /** With exactly one iteration per record, the sweep throws exactly when a
      record other than the last matches; when it finishes, every matching
      record is gone. */
  lemma {:induction false} SweepExact(rest: seq<Sub>, c: Criterion)
    ensures Sweep(rest, |rest|, c).Crash? <==> NonFinalMatch(rest, c)
    ensures Sweep(rest, |rest|, c).Ok? ==> Sweep(rest, |rest|, c).value == Survivors(rest, c)
    ensures Sweep(rest, |rest|, c).Crash? ==> |Sweep(rest, |rest|, c).value| < |rest|
    decreases |rest|
  {
    if rest == [] {
    } else if !Matches(rest[0], c) {
      SweepExact(rest[1..], c);
      assert NonFinalMatch(rest, c) <==> NonFinalMatch(rest[1..], c) by {
        if NonFinalMatch(rest, c) {
          var j :| 0 <= j < |rest| - 1 && Matches(rest[j], c);
          assert rest[1..][j - 1] == rest[j];
        }
        if NonFinalMatch(rest[1..], c) {
          var j :| 0 <= j < |rest[1..]| - 1 && Matches(rest[1..][j], c);
          assert rest[j + 1] == rest[1..][j];
        }
      }
    } else if |rest| == 1 {
      assert !NonFinalMatch(rest, c);
    } else {
      SweepOverBudget(rest[2..], |rest| - 1, c);
      SweepShrinks(rest[2..], |rest| - 1, c);
      assert Matches(rest[0], c) && 0 < |rest| - 1;
    }
  }

  /** What one run of the removal loop over a channel does: it throws exactly
      when a record before the last one matches; when it returns, every
      matching record is gone; either way the non-matching records all stay,
      in order, nothing is added, and a record removed before the throw stays
      removed. */
  lemma LoopOutcome(hs: seq<Sub>, c: Criterion)
    ensures Loop(hs, c).Crash? <==> NonFinalMatch(hs, c)
    ensures Loop(hs, c).Ok? ==> Loop(hs, c).value == Survivors(hs, c)
    ensures Loop(hs, c).Crash? ==> |Loop(hs, c).value| < |hs|
    ensures Survivors(Loop(hs, c).value, c) == Survivors(hs, c)
    ensures Shrinks(hs, Loop(hs, c).value)
  {
    LoopIsSweep(hs, c);
    SweepExact(hs, c);
    SweepKeepsSurvivors(hs, |hs|, c);
    SweepShrinks(hs, |hs|, c);
  }

  /** A channel with no matching record comes back unchanged. */
  lemma {:induction false} NoMatchUnchanged(hs: seq<Sub>, c: Criterion)
    requires forall x :: x in hs ==> !Matches(x, c)
    ensures Survivors(hs, c) == hs
    ensures Loop(hs, c) == Ok(hs)
  {
    if hs != [] {
      NoMatchUnchanged(hs[1..], c);
      assert hs == [hs[0]] + hs[1..];
    }
    LoopOutcome(hs, c);
  }

  /** A single match sitting in the last slot is removed cleanly. */
  lemma FinalMatchRemoved(hs: seq<Sub>, c: Criterion)
    requires 0 < |hs| && Matches(hs[|hs| - 1], c)
    requires forall j :: 0 <= j < |hs| - 1 ==> !Matches(hs[j], c)
    ensures Loop(hs, c) == Ok(hs[..|hs| - 1])
  {
    var front := hs[..|hs| - 1];
    assert hs == front + [hs[|hs| - 1]];
    forall x | x in front ensures !Matches(x, c) {
      var j :| 0 <= j < |front| && front[j] == x;
      assert hs[j] == x;
    }
    NoMatchUnchanged(front, c);
    SurvivorsAppend(front, hs[|hs| - 1], c);
    assert Survivors(front, c) + [] == front;
    assert !NonFinalMatch(hs, c);
    LoopOutcome(hs, c);
  }

  lemma {:induction false} SurvivorsAppend(hs: seq<Sub>, x: Sub, c: Criterion)
    ensures Survivors(hs + [x], c) == Survivors(hs, c) + (if Matches(x, c) then [] else [x])
    decreases |hs|
  {
    if hs == [] {
      assert [] + [x] == [x];
    } else {
      var head := if Matches(hs[0], c) then [] else [hs[0]];
      var tail := if Matches(x, c) then [] else [x];
      assert hs + [x] == [hs[0]] + (hs[1..] + [x]);
      assert hs == [hs[0]] + hs[1..];
      SurvivorsCons(hs[0], hs[1..] + [x], c);
      SurvivorsCons(hs[0], hs[1..], c);
      SurvivorsAppend(hs[1..], x, c);
      assert head + (Survivors(hs[1..], c) + tail) == (head + Survivors(hs[1..], c)) + tail;
    }
  }

  /** A sweep over records none of which match keeps them all, whether it
      finishes or throws. */
  lemma {:induction false} SweepNoMatch(rest: seq<Sub>, budget: int, c: Criterion)
    requires forall x :: x in rest ==> !Matches(x, c)
    ensures Sweep(rest, budget, c).value == rest
    decreases |rest|
  {
    if budget > 0 && rest != [] {
      assert rest[0] in rest;
      assert forall x :: x in rest[1..] ==> x in rest;
      SweepNoMatch(rest[1..], budget - 1, c);
      assert rest == [rest[0]] + rest[1..];
    }
  }

  /** At most one record matches. */
  predicate AtMostOneMatch(hs: seq<Sub>, c: Criterion)
  {
    forall i, j :: 0 <= i < |hs| && 0 <= j < |hs| && Matches(hs[i], c) && Matches(hs[j], c) ==> i == j
  }

  /** With at most one matching record, the loop removes it (and nothing
      else) even when it then throws. */
  lemma {:induction false} SweepSingleMatch(rest: seq<Sub>, c: Criterion)
    requires AtMostOneMatch(rest, c)
    ensures Sweep(rest, |rest|, c).value == Survivors(rest, c)
    decreases |rest|
  {
    if rest == [] {
    } else if !Matches(rest[0], c) {
      assert AtMostOneMatch(rest[1..], c) by {
        forall i, j | 0 <= i < |rest[1..]| && 0 <= j < |rest[1..]| && Matches(rest[1..][i], c) && Matches(rest[1..][j], c)
          ensures i == j
        {
          assert rest[1..][i] == rest[i + 1] && rest[1..][j] == rest[j + 1];
        }
      }
      SweepSingleMatch(rest[1..], c);
      SurvivorsCons(rest[0], rest[1..], c);
      assert rest == [rest[0]] + rest[1..];
    } else {
      var tail := rest[1..];
      forall x | x in tail ensures !Matches(x, c) {
        var j :| 0 <= j < |tail| && tail[j] == x;
        assert rest[j + 1] == x;
      }
      NoMatchUnchanged(tail, c);
      SurvivorsCons(rest[0], tail, c);
      assert rest == [rest[0]] + tail;
      if |rest| > 1 {
        assert forall x :: x in rest[2..] ==> x in tail;
        SweepNoMatch(rest[2..], |rest| - 1, c);
        assert tail == [rest[1]] + rest[2..];
      }
    }
  }

  lemma LoopSingleMatch(hs: seq<Sub>, c: Criterion)
    requires AtMostOneMatch(hs, c)
    ensures Loop(hs, c).value == Survivors(hs, c)
  {
    SweepSingleMatch(hs, c);
    LoopIsSweep(hs, c);
  }

  /** The loop with the evident intent: it re-reads the length on every
      test and looks at slot `i` again after a splice. */
  function FixedLoop(hs: seq<Sub>, i: nat, c: Criterion): (r: seq<Sub>)
    requires i <= |hs|
    ensures r == hs[..i] + Survivors(hs[i..], c)
    decreases |hs| - i
  {
    if i == |hs| then hs
    else if Matches(hs[i], c) then FixedLoop(hs[..i] + hs[i + 1..], i, c)
    else FixedLoop(hs, i + 1, c)
  }
}

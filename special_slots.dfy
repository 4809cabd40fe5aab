/** The special-slot walk of `Fidget.patch_function_stack`: when the calling
    convention passes arguments on the stack, the variables found at the stack
    size and at each further step are argument slots and must not move. */
module SpecialSlots {
  import opened Events

  /** The keys at or above `i`. */
  function KeysFrom(keys: set<int>, i: int): set<int>
  {
    set o | o in keys && o >= i
  }

  /** Stepping past a present key leaves strictly fewer keys ahead. */
  lemma KeysFromShrinks(keys: set<int>, i: int, step: int)
    requires step > 0 && i in keys
    ensures |KeysFrom(keys, i + step)| < |KeysFrom(keys, i)|
  {
    var ahead := KeysFrom(keys, i + step);
    var here := KeysFrom(keys, i) - {i};
    assert ahead <= here;
    assert here == ahead + (here - ahead);
  }

  /** The first offset of the walk from `i` that holds no variable. */
  function RunEnd(keys: set<int>, i: int, step: int): int
    requires step > 0
    decreases |KeysFrom(keys, i)|
  {
    if i in keys then
      KeysFromShrinks(keys, i, step);
      RunEnd(keys, i + step, step)
    else i
  }

  /** `o` is one of `i`, `i + step`, `i + 2 * step`, ... below `end`. */
  predicate InRun(o: int, i: int, step: int, end: int)
    requires step > 0
    decreases end - i
  {
    i < end && (o == i || InRun(o, i + step, step, end))
  }

  /** The variables with the walk from `i` marked special. */
  function MarkFrom(vars: Variables, i: int, step: int): Variables
    requires step > 0
    decreases |KeysFrom(vars.Keys, i)|
  {
    if i in vars then
      var next := vars[i := vars[i].(special := true)];
      assert next.Keys == vars.Keys;
      KeysFromShrinks(vars.Keys, i, step);
      MarkFrom(next, i + step, step)
    else vars
  }

  /** The `while True` loop of patch_function_stack, from the stack size up in
      steps of the native word. */
  method MarkSpecial(vars: Variables, start: int, step: int) returns (marked: Variables)
    requires step > 0
    ensures marked == MarkFrom(vars, start, step)
  {
    marked := vars;
    var i := start;
    while true
      invariant marked.Keys == vars.Keys
      invariant MarkFrom(marked, i, step) == MarkFrom(vars, start, step)
      decreases |KeysFrom(vars.Keys, i)|
    {
      if i in marked {
        KeysFromShrinks(vars.Keys, i, step);
        marked := marked[i := marked[i].(special := true)];
        i := i + step;
      } else {
        break;
      }
    }
  }

  lemma {:induction false} InRunFrom(o: int, i: int, step: int, end: int)
    requires step > 0
    ensures InRun(o, i, step, end) ==> i <= o < end
    decreases end - i
  {
    if i < end && o != i {
      InRunFrom(o, i + step, step, end);
    }
  }

  lemma MulBounds(k: int, step: int)
    requires step > 0
    ensures k >= 1 ==> k * step >= step
    ensures k <= -1 ==> k * step <= -step
  {
    if k >= 1 {
      var j := k - 1;
      assert k * step == j * step + step;
      assert j * step >= 0;
    } else if k <= -1 {
      var j := -k - 1;
      assert k * step == -(j * step) - step;
      assert j * step >= 0;
    }
  }

  lemma ModShift(x: int, step: int)
    requires step > 0
    ensures (x - step) % step == x % step
  {
    var q, r := x / step, x % step;
    var q', r' := (x - step) / step, (x - step) % step;
    assert x == q * step + r;
    assert x - step == q' * step + r';
    var k := q - 1 - q';
    assert k * step == q * step - step - q' * step;
    MulBounds(k, step);
  }

  /** The run from `i` is the offsets at or above `i`, below `end`, that lie a
      whole number of steps above `i`. */
  lemma {:induction false} InRunIsStride(o: int, i: int, step: int, end: int)
    requires step > 0
    ensures InRun(o, i, step, end) <==> i <= o < end && (o - i) % step == 0
    decreases end - i
  {
    if i < end && o != i {
      InRunIsStride(o, i + step, step, end);
      ModShift(o - i, step);
    }
  }

  /** The walk marks exactly the maximal run `start, start + step, ...` of
      present keys, changes nothing else and keeps every key. */
  lemma {:induction false} SpecialRunIsMaximal(vars: Variables, start: int, step: int)
    requires step > 0
    ensures var end := RunEnd(vars.Keys, start, step);
      start <= end && end !in vars &&
      (forall o :: InRun(o, start, step, end) ==> o in vars)
    ensures var end := RunEnd(vars.Keys, start, step);
      var m := MarkFrom(vars, start, step);
      m.Keys == vars.Keys &&
      forall o :: o in vars ==> m[o] == (if InRun(o, start, step, end) then vars[o].(special := true) else vars[o])
    decreases |KeysFrom(vars.Keys, start)|
  {
    var end := RunEnd(vars.Keys, start, step);
    if start in vars {
      var next := vars[start := vars[start].(special := true)];
      assert next.Keys == vars.Keys;
      KeysFromShrinks(vars.Keys, start, step);
      SpecialRunIsMaximal(next, start + step, step);
      assert end == RunEnd(next.Keys, start + step, step);
      forall o | InRun(o, start, step, end)
        ensures o in vars
      {
        if o != start {
          assert InRun(o, start + step, step, end);
        }
      }
      forall o | o in vars
        ensures MarkFrom(vars, start, step)[o] ==
          (if InRun(o, start, step, end) then vars[o].(special := true) else vars[o])
      {
        InRunFrom(o, start + step, step, end);
      }
    }
  }

}

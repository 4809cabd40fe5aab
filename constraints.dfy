/** The constraint model of `Fidget.patch_function_stack`: baseline bounds on
    the new stack size and the greedy admission of the unsafe-access
    constraints. The solver is an oracle: a satisfiability test and a chosen
    value for the new stack size. */
module Constraints {
  import opened Events

  /** A constraint given to the solver. The first three bound the new stack
      size; the others come from instructions and from the variable tracker,
      and only the solver knows their meaning. */
  datatype Constraint =
    | AtLeast(bound: int)               // new size >= bound
    | AtMost(bound: int)                // new size <= bound
    | MultipleOf(modulus: int)          // new size % modulus == 0
    | Effect(op: Binding)               // the instruction's own effect
    | AllocMatchesSize(op: Binding)     // the allocation's value equals minus the new size
    | DeallocRestores(op: Binding)      // the deallocation's value equals zero
    | Tracker(id: int)                  // a constraint built by the variable tracker

  /** The solver: whether a constraint set is satisfiable, and the value it
      picks for the new stack size under a set. */
  datatype Oracle = Oracle(sat: seq<Constraint> -> bool, any: seq<Constraint> -> int)

  /** The meaning of the size constraints for a candidate size `s`; the other
      constraints do not restrict `s` alone. */
  predicate SizeHolds(c: Constraint, s: int)
  {
    match c
    case AtLeast(b) => s >= b
    case AtMost(b) => s <= b
    case MultipleOf(k) => k > 0 && s % k == 0
    case _ => true
  }

  /** A sound solver picks, for a satisfiable set, a size meeting every size
      constraint in it. */
  ghost predicate Sound(o: Oracle)
  {
    forall cs :: o.sat(cs) ==> forall i :: 0 <= i < |cs| ==> SizeHolds(cs[i], o.any(cs))
  }

  /** Each kept deallocation contributes its effect and the restoring check. */
  function DeallocConstraints(deallocs: seq<Binding>): seq<Constraint>
  {
    if deallocs == [] then []
    else [Effect(deallocs[0]), DeallocRestores(deallocs[0])] + DeallocConstraints(deallocs[1..])
  }

  /** The constraints always committed, in the order they are added: the three
      size bounds for `numVars` variables, with the alignment taken as the
      native word (in bits) divided by 8, then the allocation, the kept
      deallocations, and the `linked` constraints the variable tracker posts
      for the safe accesses and the variable layout. */
  function Baseline(oldSize: int, numVars: nat, nativeWord: int, alloc: Binding, deallocs: seq<Binding>,
                    linked: seq<Constraint>): seq<Constraint>
  {
    [AtLeast(oldSize), AtMost(oldSize + (16 * numVars + 32)), MultipleOf(nativeWord / 8),
     Effect(alloc), AllocMatchesSize(alloc)]
    + DeallocConstraints(deallocs) + linked
  }

  /** Greedy admission: each unsafe constraint in turn is committed iff it is
      satisfiable together with everything committed before it. */
  function Greedy(o: Oracle, committed: seq<Constraint>, unsafe: seq<Constraint>): seq<Constraint>
    decreases |unsafe|
  {
    if unsafe == [] then committed
    else
      var c := unsafe[0];
      Greedy(o, if o.sat(committed + [c]) then committed + [c] else committed, unsafe[1..])
  }

  /** The admission loop: the solver's constraint list grows one constraint at
      a time. */
  method Admit(o: Oracle, baseline: seq<Constraint>, unsafe: seq<Constraint>) returns (committed: seq<Constraint>)
    ensures committed == Greedy(o, baseline, unsafe)
  {
    committed := baseline;
    for i := 0 to |unsafe|
      invariant Greedy(o, committed, unsafe[i..]) == Greedy(o, baseline, unsafe)
    {
      var c := unsafe[i];
      assert unsafe[i..][1..] == unsafe[i + 1..];
      if o.sat(committed + [c]) {
        committed := committed + [c];
      }
    }
  }

  /** `p` is `u` with some elements left out, the rest in their order. */
  predicate IsSubsequence(p: seq<Constraint>, u: seq<Constraint>)
    decreases |u|
  {
    if p == [] then true
    else if u == [] then false
    else (p[0] == u[0] && IsSubsequence(p[1..], u[1..])) || IsSubsequence(p, u[1..])
  }

  lemma {:induction false} SubsequenceOfTail(p: seq<Constraint>, u: seq<Constraint>)
    requires u != [] && IsSubsequence(p, u[1..])
    ensures IsSubsequence(p, u)
  {
  }

  lemma {:induction false} SubsequenceCons(c: Constraint, p: seq<Constraint>, u: seq<Constraint>)
    requires IsSubsequence(p, u)
    ensures IsSubsequence([c] + p, [c] + u)
  {
    assert ([c] + p)[1..] == p && ([c] + u)[1..] == u;
  }

  /** The committed set is the baseline followed by a subsequence of the unsafe
      constraints, in their original order. */
  lemma {:induction false} GreedyCommitsBaselineThenSubsequence(o: Oracle, baseline: seq<Constraint>, unsafe: seq<Constraint>)
    ensures var r := Greedy(o, baseline, unsafe);
      |baseline| <= |r| && r[..|baseline|] == baseline && IsSubsequence(r[|baseline|..], unsafe)
    decreases |unsafe|
  {
    var r := Greedy(o, baseline, unsafe);
    if unsafe != [] {
      var c := unsafe[0];
      if o.sat(baseline + [c]) {
        var next := baseline + [c];
        GreedyCommitsBaselineThenSubsequence(o, next, unsafe[1..]);
        assert r[..|next|][..|baseline|] == baseline;
        assert r[|baseline|..] == [c] + r[|next|..];
        SubsequenceCons(c, r[|next|..], unsafe[1..]);
        assert [c] + unsafe[1..] == unsafe;
      } else {
        GreedyCommitsBaselineThenSubsequence(o, baseline, unsafe[1..]);
        SubsequenceOfTail(r[|baseline|..], unsafe);
      }
    } else {
      assert r[|baseline|..] == [];
    }
  }

  /** If the baseline is satisfiable, the committed set stays satisfiable. */
  lemma {:induction false} GreedyStaysSatisfiable(o: Oracle, baseline: seq<Constraint>, unsafe: seq<Constraint>)
    requires o.sat(baseline)
    ensures o.sat(Greedy(o, baseline, unsafe))
    decreases |unsafe|
  {
    if unsafe != [] {
      var c := unsafe[0];
      GreedyStaysSatisfiable(o, if o.sat(baseline + [c]) then baseline + [c] else baseline, unsafe[1..]);
    }
  }

  /** Every constraint committed after the baseline was satisfiable together
      with everything committed before it. */
  lemma {:induction false} GreedyChecksEachCommit(o: Oracle, baseline: seq<Constraint>, unsafe: seq<Constraint>)
    ensures var r := Greedy(o, baseline, unsafe);
      forall i :: |baseline| < i <= |r| ==> o.sat(r[..i])
    decreases |unsafe|
  {
    if unsafe != [] {
      var c := unsafe[0];
      var r := Greedy(o, baseline, unsafe);
      if o.sat(baseline + [c]) {
        var next := baseline + [c];
        GreedyChecksEachCommit(o, next, unsafe[1..]);
        GreedyCommitsBaselineThenSubsequence(o, next, unsafe[1..]);
        assert r[..|next|] == next;
      } else {
        GreedyChecksEachCommit(o, baseline, unsafe[1..]);
        assert r == Greedy(o, baseline, unsafe[1..]);
      }
    }
  }

  /** An unsafe constraint that is satisfiable on its own together with the
      baseline, and first in line, is always committed. */
  lemma FirstCompatibleIsCommitted(o: Oracle, baseline: seq<Constraint>, unsafe: seq<Constraint>)
    requires unsafe != [] && o.sat(baseline + [unsafe[0]])
    ensures |Greedy(o, baseline, unsafe)| > |baseline|
    ensures Greedy(o, baseline, unsafe)[|baseline|] == unsafe[0]
  {
    var next := baseline + [unsafe[0]];
    GreedyCommitsBaselineThenSubsequence(o, next, unsafe[1..]);
    assert Greedy(o, baseline, unsafe)[..|next|] == next;
  }

  /** With a sound solver, the size picked under any committed set that starts
      with the baseline keeps the frame from shrinking, bounds its growth by
      16 bytes per variable plus 32, and is a multiple of the word size in
      bytes. */
  lemma {:induction false} AcceptedSizeInBounds(o: Oracle, oldSize: int, numVars: nat, nativeWord: int,
                                              alloc: Binding, deallocs: seq<Binding>, linked: seq<Constraint>,
                                              unsafe: seq<Constraint>)
    requires Sound(o) && nativeWord >= 8
    requires o.sat(Baseline(oldSize, numVars, nativeWord, alloc, deallocs, linked))
    ensures var s := o.any(Greedy(o, Baseline(oldSize, numVars, nativeWord, alloc, deallocs, linked), unsafe));
      oldSize <= s <= oldSize + (16 * numVars + 32) && s % (nativeWord / 8) == 0
  {
    var base := Baseline(oldSize, numVars, nativeWord, alloc, deallocs, linked);
    var r := Greedy(o, base, unsafe);
    GreedyCommitsBaselineThenSubsequence(o, base, unsafe);
    GreedyStaysSatisfiable(o, base, unsafe);
    assert r[0] == base[0] && r[1] == base[1] && r[2] == base[2];
    assert SizeHolds(r[0], o.any(r)) && SizeHolds(r[1], o.any(r)) && SizeHolds(r[2], o.any(r));
  }
}

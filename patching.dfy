/** `Fidget.patch_stack` and `Fidget.patch_function_stack`: for every
    eligible function, classify its tag stream, mark argument slots, build
    and solve the constraint model, and append the function's patch records
    to the binary-wide list. */
module Patching {
  import opened Events
  import opened SpecialSlots
  import opened Constraints
  import opened Naming

  /** One byte-range replacement in the output file. */
  datatype Patch = Patch(offset: nat, data: seq<bv8>)

  /** What the analysis backends report about the binary. `stubTarget` is the
      MIPS entry-point stub (the call successor of the entry), if any; the
      function-typed fields stand for the tagging backend, the variable
      tracker (`collapse` merges overlapping variables and fixes their sizes,
      `linkConstraints` are the constraints it posts to the solver once the
      stack size is symbolic, `unsafeConstraints` the ones it holds back), the
      solver, and the bindings' own patch encoders. */
  datatype Binary = Binary(
    functions: seq<nat>,
    entry: nat,
    stubTarget: Option<nat>,
    sectionOf: nat -> Option<string>,
    stackArgs: bool,
    nativeWord: int,
    tags: nat -> seq<Event>,
    collapse: Variables -> Variables,
    linkConstraints: Variables -> seq<Constraint>,
    unsafeConstraints: Variables -> seq<Constraint>,
    solver: Oracle,
    allocPatch: (Binding, seq<Constraint>) -> seq<Patch>,
    deallocPatch: (Binding, seq<Constraint>) -> seq<Patch>,
    varPatches: (Variables, seq<Constraint>) -> seq<Patch>)

  /** FidgetUnsupportedError and FidgetError. */
  datatype Error = UnsupportedTag | UnsatisfiableBaseline

  /** How the analysis of one function ends. */
  datatype Outcome =
    | UsesAlloca
    | NoStackFrame
    | NoVariables
    | Unresizable
    | Resized(oldSize: int, newSize: int, numVars: nat, committed: seq<Constraint>, chunk: seq<Patch>)
    | Failed(error: Error)

  /** The records an outcome adds to the patch list. */
  function Appended(r: Outcome): seq<Patch>
  {
    if r.Resized? then r.chunk else []
  }

  /** The records of the kept deallocations, in their order. */
  function DeallocPatches(bin: Binary, deallocs: seq<Binding>, committed: seq<Constraint>): seq<Patch>
  {
    if deallocs == [] then []
    else DeallocPatches(bin, deallocs[..|deallocs| - 1], committed) + bin.deallocPatch(deallocs[|deallocs| - 1], committed)
  }

  /** The analysis of the function at `addr`, step by step as
      patch_function_stack performs it. */
  function Analyze(bin: Binary, addr: nat): Outcome
    requires bin.nativeWord > 0
  {
    AnalyzeClassified(bin, Classify(bin.tags(addr)))
  }

  /** The analysis once the tag stream is classified. */
  function AnalyzeClassified(bin: Binary, cl: Classification): Outcome
    requires bin.nativeWord > 0
  {
    match cl
    case Unsupported => Failed(UnsupportedTag)
    case Abandoned => UsesAlloca
    case Classified(s) => AnalyzeScan(bin, s)
  }

  /** The analysis of a completed scan: a frame is needed, argument slots are
      marked, and at least one variable must be present. */
  function AnalyzeScan(bin: Binary, s: Scan): Outcome
    requires bin.nativeWord > 0
  {
    if s.alloc.None? then NoStackFrame
    else
      var marked := if bin.stackArgs then MarkFrom(s.vars, s.stackSize, bin.nativeWord) else s.vars;
      if |marked| == 0 then NoVariables
      else Resize(bin, s, bin.collapse(marked))
  }

  /** The constraint model for the collapsed variables `vars`, the greedy
      admission, and the records of a resized frame. */
  function Resize(bin: Binary, s: Scan, vars: Variables): Outcome
    requires s.alloc.Some?
  {
    var base := Baseline(s.stackSize, |vars|, bin.nativeWord, s.alloc.value, s.deallocs, bin.linkConstraints(vars));
    if !bin.solver.sat(base) then Failed(UnsatisfiableBaseline)
    else
      var committed := Greedy(bin.solver, base, bin.unsafeConstraints(vars));
      var newSize := bin.solver.any(committed);
      if newSize == s.stackSize then Unresizable
      else
        Resized(s.stackSize, newSize, |vars|, committed,
          bin.allocPatch(s.alloc.value, committed) + DeallocPatches(bin, s.deallocs, committed)
          + bin.varPatches(vars, committed))
  }

  /** The white- and blacklist test on a function name. */
  predicate NameAllowed(name: string, whitelist: seq<string>, blacklist: seq<string>)
  {
    !(|whitelist| > 0 && name !in whitelist) && !(|blacklist| > 0 && name in blacklist)
  }

  /** The functions patch_stack hands to patch_function_stack: not the entry
      point, not the MIPS stub, in the text section, and allowed by name. */
  predicate Eligible(bin: Binary, whitelist: seq<string>, blacklist: seq<string>, addr: nat)
  {
    addr != bin.entry && bin.stubTarget != Some(addr) && bin.sectionOf(addr) == Some("text") &&
    NameAllowed(FunctionName(addr), whitelist, blacklist)
  }

  /** The eligible functions of `funcs`, in order. */
  function Selected(bin: Binary, whitelist: seq<string>, blacklist: seq<string>, funcs: seq<nat>): seq<nat>
  {
    if funcs == [] then []
    else
      var a := funcs[|funcs| - 1];
      Selected(bin, whitelist, blacklist, funcs[..|funcs| - 1]) + (if Eligible(bin, whitelist, blacklist, a) then [a] else [])
  }

  /** One call of patch_function_stack made by patch_stack. */
  datatype Call = Call(addr: nat, outcome: Outcome)

  function Addrs(calls: seq<Call>): seq<nat>
  {
    if calls == [] then [] else Addrs(calls[..|calls| - 1]) + [calls[|calls| - 1].addr]
  }

  /** The records the calls appended, in call order. */
  function AllAppended(calls: seq<Call>): seq<Patch>
  {
    if calls == [] then [] else AllAppended(calls[..|calls| - 1]) + Appended(calls[|calls| - 1].outcome)
  }

  /** The number of calls that lengthened the patch list. */
  function Successes(calls: seq<Call>): nat
  {
    if calls == [] then 0
    else Successes(calls[..|calls| - 1]) + (if |Appended(calls[|calls| - 1].outcome)| > 0 then 1 else 0)
  }

  lemma CallsSnoc(calls: seq<Call>, c: Call)
    ensures Addrs(calls + [c]) == Addrs(calls) + [c.addr]
    ensures AllAppended(calls + [c]) == AllAppended(calls) + Appended(c.outcome)
    ensures Successes(calls + [c]) == Successes(calls) + (if |Appended(c.outcome)| > 0 then 1 else 0)
  {
    assert (calls + [c])[..|calls|] == calls;
  }

  lemma SelectedSnoc(bin: Binary, whitelist: seq<string>, blacklist: seq<string>, funcs: seq<nat>, i: nat)
    requires i < |funcs|
    ensures Selected(bin, whitelist, blacklist, funcs[..i + 1]) ==
      Selected(bin, whitelist, blacklist, funcs[..i]) + (if Eligible(bin, whitelist, blacklist, funcs[i]) then [funcs[i]] else [])
  {
    assert funcs[..i + 1][..i] == funcs[..i];
  }

  /** Every call's outcome is the analysis of its function, and none failed. */
  ghost predicate Faithful(bin: Binary, calls: seq<Call>)
    requires bin.nativeWord > 0
  {
    calls == [] ||
    (Faithful(bin, calls[..|calls| - 1]) &&
     calls[|calls| - 1].outcome == Analyze(bin, calls[|calls| - 1].addr) && !calls[|calls| - 1].outcome.Failed?)
  }

  lemma {:induction false} FaithfulAll(bin: Binary, calls: seq<Call>)
    requires bin.nativeWord > 0 && Faithful(bin, calls)
    ensures forall i :: 0 <= i < |calls| ==> calls[i].outcome == Analyze(bin, calls[i].addr) && !calls[i].outcome.Failed?
  {
    if calls != [] {
      var init := calls[..|calls| - 1];
      FaithfulAll(bin, init);
      assert forall i :: 0 <= i < |init| ==> init[i] == calls[i];
    }
  }

  class Fidget {
    const bin: Binary
    const whitelist: seq<string>
    const blacklist: seq<string>
    /** `_stack_patch_data`: the binary-wide list of patch records. */
    var patchData: seq<Patch>

    constructor (bin: Binary, whitelist: seq<string>, blacklist: seq<string>)
      ensures this.bin == bin && this.whitelist == whitelist && this.blacklist == blacklist
      ensures patchData == []
    {
      this.bin := bin;
      this.whitelist := whitelist;
      this.blacklist := blacklist;
      patchData := [];
    }

    /** `dump_patches`: the accumulated records. */
    function DumpPatches(): (patches: seq<Patch>)
      reads this
      ensures patches == patchData
    {
      patchData
    }

    /** patch_function_stack: analyses one function and appends its records,
        the allocation's first, then each kept deallocation's, then the
        variables'. Every early exit and every error leaves the list as it
        was. */
    method PatchFunctionStack(addr: nat) returns (r: Outcome)
      requires bin.nativeWord > 0
      modifies this`patchData
      ensures r == Analyze(bin, addr)
      ensures patchData == old(patchData) + Appended(r)
    {
      var cl := ClassifyTags(bin.tags(addr));
      if cl.Unsupported? {
        return Failed(UnsupportedTag);
      }
      if cl.Abandoned? {
        return UsesAlloca;
      }
      r := PatchScan(cl.scan);
    }

    /** patch_function_stack after the classification loop: the frame and
        variable checks and the argument-slot walk. */
    method PatchScan(s: Scan) returns (r: Outcome)
      requires bin.nativeWord > 0
      modifies this`patchData
      ensures r == AnalyzeScan(bin, s)
      ensures patchData == old(patchData) + Appended(r)
    {
      if s.alloc.None? {
        return NoStackFrame;
      }
      var vars := s.vars;
      if bin.stackArgs {
        vars := MarkSpecial(vars, s.stackSize, bin.nativeWord);
      }
      if |vars| == 0 {
        return NoVariables;
      }
      r := ResizeStack(s, bin.collapse(vars));
    }

    /** patch_function_stack from the constraint model on: the baseline, the
        greedy admission, the solver's new size and the records. */
    method ResizeStack(s: Scan, collapsed: Variables) returns (r: Outcome)
      requires s.alloc.Some?
      modifies this`patchData
      ensures r == Resize(bin, s, collapsed)
      ensures patchData == old(patchData) + Appended(r)
    {
      var allocOp := s.alloc.value;
      var oldSize := s.stackSize;
      var base := Baseline(oldSize, |collapsed|, bin.nativeWord, allocOp, s.deallocs, bin.linkConstraints(collapsed));
      if !bin.solver.sat(base) {
        return Failed(UnsatisfiableBaseline);
      }
      var committed := Admit(bin.solver, base, bin.unsafeConstraints(collapsed));
      var newStack := bin.solver.any(committed);
      if newStack == oldSize {
        return Unresizable;
      }
      AppendPatches(allocOp, s.deallocs, collapsed, committed);
      r := Resized(oldSize, newStack, |collapsed|, committed,
        bin.allocPatch(allocOp, committed) + DeallocPatches(bin, s.deallocs, committed) + bin.varPatches(collapsed, committed));
    }

    /** The end of patch_function_stack: the allocation's records, each kept
        deallocation's, then the variables'. */
    method AppendPatches(allocOp: Binding, deallocs: seq<Binding>, vars: Variables, committed: seq<Constraint>)
      modifies this`patchData
      ensures patchData == old(patchData) + bin.allocPatch(allocOp, committed)
        + DeallocPatches(bin, deallocs, committed) + bin.varPatches(vars, committed)
    {
      patchData := patchData + bin.allocPatch(allocOp, committed);
      for i := 0 to |deallocs|
        invariant patchData == old(patchData) + bin.allocPatch(allocOp, committed) + DeallocPatches(bin, deallocs[..i], committed)
      {
        assert deallocs[..i + 1][..i] == deallocs[..i];
        patchData := patchData + bin.deallocPatch(deallocs[i], committed);
      }
      assert deallocs[..|deallocs|] == deallocs;
      patchData := patchData + bin.varPatches(vars, committed);
    }

    /** The body of patch_stack's loop for one function: the entry point, the
        MIPS stub, functions outside `text` and names the lists exclude are
        skipped; any other function is analysed. */
    method PatchIfEligible(funcaddr: nat) returns (called: Option<Outcome>)
      requires bin.nativeWord > 0
      modifies this`patchData
      ensures called.Some? <==> Eligible(bin, whitelist, blacklist, funcaddr)
      ensures called.Some? ==> called.value == Analyze(bin, funcaddr)
      ensures patchData == old(patchData) + (if called.Some? then Appended(called.value) else [])
    {
      if funcaddr == bin.entry {
        return None;
      }
      if bin.stubTarget == Some(funcaddr) {
        return None;
      }
      var sec := bin.sectionOf(funcaddr);
      if sec.None? || sec.value != "text" {
        return None;
      }
      var funcname := FunctionName(funcaddr);
      if (|whitelist| > 0 && funcname !in whitelist) || (|blacklist| > 0 && funcname in blacklist) {
        return None;
      }
      var r := PatchFunctionStack(funcaddr);
      called := Some(r);
    }

    /** patch_stack: resets the list, then calls patch_function_stack on every
        eligible function in order. `successes` counts the calls that
        lengthened the list. An error ends the run, keeping the records
        already appended. `calls` records each call and its outcome. */
    method PatchStack() returns (successes: nat, err: Option<Error>, ghost calls: seq<Call>)
      requires bin.nativeWord > 0
      modifies this`patchData
      ensures forall i :: 0 <= i < |calls| ==> calls[i].outcome == Analyze(bin, calls[i].addr)
      ensures patchData == AllAppended(calls)
      ensures DumpPatches() == AllAppended(calls)
      ensures successes == Successes(calls)
      ensures err.None? ==>
        Addrs(calls) == Selected(bin, whitelist, blacklist, bin.functions) &&
        forall i :: 0 <= i < |calls| ==> !calls[i].outcome.Failed?
      ensures err.Some? ==>
        |calls| > 0 && calls[|calls| - 1].outcome == Failed(err.value) &&
        (forall i :: 0 <= i < |calls| - 1 ==> !calls[i].outcome.Failed?) &&
        exists n :: 0 < n <= |bin.functions| && Addrs(calls) == Selected(bin, whitelist, blacklist, bin.functions[..n])
    {
      patchData := [];
      calls := [];
      var funcs := bin.functions;
      var lastSize := 0;
      successes := 0;
      for i := 0 to |funcs|
        invariant Addrs(calls) == Selected(bin, whitelist, blacklist, funcs[..i])
        invariant Faithful(bin, calls)
        invariant patchData == AllAppended(calls)
        invariant lastSize == |patchData|
        invariant successes == Successes(calls)
      {
        var funcaddr := funcs[i];
        SelectedSnoc(bin, whitelist, blacklist, funcs, i);
        var called := PatchIfEligible(funcaddr);
        if called.None? {
          continue;
        }
        var r := called.value;
        CallsSnoc(calls, Call(funcaddr, r));
        FaithfulAll(bin, calls);
        ghost var before := calls;
        calls := calls + [Call(funcaddr, r)];
        assert calls[..|calls| - 1] == before;
        if r.Failed? {
          err := Some(r.error);
          return;
        }
        if |patchData| > lastSize {
          lastSize := |patchData|;
          successes := successes + 1;
        }
      }
      assert funcs[..|funcs|] == funcs;
      FaithfulAll(bin, calls);
      err := None;
    }
  }

  // ---------------------------------------------------------------------
  // Properties of the analysis and of the orchestration

  /** A resized function, with a sound solver: the committed set is
      satisfiable, begins with the baseline, and the new size grows the frame
      within 16 bytes per variable plus 32 and stays word-aligned. */
  lemma ResizedSizeInBounds(bin: Binary, addr: nat)
    requires bin.nativeWord >= 8 && Sound(bin.solver)
    requires Analyze(bin, addr).Resized?
    ensures var r := Analyze(bin, addr);
      bin.solver.sat(r.committed) &&
      r.oldSize < r.newSize <= r.oldSize + (16 * r.numVars + 32) &&
      r.newSize % (bin.nativeWord / 8) == 0
  {
    var s := Classify(bin.tags(addr)).scan;
    var marked := if bin.stackArgs then MarkFrom(s.vars, s.stackSize, bin.nativeWord) else s.vars;
    var vars := bin.collapse(marked);
    var base := Baseline(s.stackSize, |vars|, bin.nativeWord, s.alloc.value, s.deallocs, bin.linkConstraints(vars));
    GreedyStaysSatisfiable(bin.solver, base, bin.unsafeConstraints(vars));
    AcceptedSizeInBounds(bin.solver, s.stackSize, |vars|, bin.nativeWord, s.alloc.value, s.deallocs,
      bin.linkConstraints(vars), bin.unsafeConstraints(vars));
  }

  /** A resized function commits the baseline followed by a subsequence of
      the tracker's unsafe constraints, in their order. */
  lemma ResizedCommitsBaselineThenUnsafe(bin: Binary, addr: nat)
    requires bin.nativeWord > 0
    requires Analyze(bin, addr).Resized?
    ensures var s := Classify(bin.tags(addr)).scan;
      var marked := if bin.stackArgs then MarkFrom(s.vars, s.stackSize, bin.nativeWord) else s.vars;
      var vars := bin.collapse(marked);
      var base := Baseline(s.stackSize, |vars|, bin.nativeWord, s.alloc.value, s.deallocs, bin.linkConstraints(vars));
      var c := Analyze(bin, addr).committed;
      |base| <= |c| && c[..|base|] == base && IsSubsequence(c[|base|..], bin.unsafeConstraints(vars))
  {
    var s := Classify(bin.tags(addr)).scan;
    var marked := if bin.stackArgs then MarkFrom(s.vars, s.stackSize, bin.nativeWord) else s.vars;
    var vars := bin.collapse(marked);
    var base := Baseline(s.stackSize, |vars|, bin.nativeWord, s.alloc.value, s.deallocs, bin.linkConstraints(vars));
    GreedyCommitsBaselineThenSubsequence(bin.solver, base, bin.unsafeConstraints(vars));
  }

  /** A function with no access event appends no record. */
  lemma NoAccessNoPatch(bin: Binary, addr: nat)
    requires bin.nativeWord > 0
    requires forall k :: 0 <= k < |bin.tags(addr)| ==> KindOf(bin.tags(addr)[k].tag) != Access
    ensures !Analyze(bin, addr).Resized? && Appended(Analyze(bin, addr)) == []
  {
    var cl := Classify(bin.tags(addr));
    if cl.Classified? {
      NoAccessNoVariables(bin.tags(addr));
      assert cl.scan.vars == map[];
      if bin.stackArgs {
        assert MarkFrom(cl.scan.vars, cl.scan.stackSize, bin.nativeWord) == map[];
      }
    }
  }

  /** A function whose stream holds an alloca before any unrecognised tag is
      abandoned and appends nothing. */
  lemma AllocaLeavesFunctionUnpatched(bin: Binary, addr: nat, j: nat)
    requires bin.nativeWord > 0
    requires var e := bin.tags(addr);
      j < |e| && KindOf(e[j].tag) == Alloca && forall k :: 0 <= k < j ==> !IsStop(e[k])
    ensures Analyze(bin, addr) == UsesAlloca && Appended(Analyze(bin, addr)) == []
  {
    StopOutcomes(bin.tags(addr));
  }

  /** A function is selected exactly when it is listed and eligible. */
  lemma {:induction false} SelectedIffEligible(bin: Binary, whitelist: seq<string>, blacklist: seq<string>, funcs: seq<nat>, a: nat)
    ensures a in Selected(bin, whitelist, blacklist, funcs) <==> a in funcs && Eligible(bin, whitelist, blacklist, a)
  {
    if funcs != [] {
      var init := funcs[..|funcs| - 1];
      SelectedIffEligible(bin, whitelist, blacklist, init, a);
      assert funcs == init + [funcs[|funcs| - 1]];
    }
  }

  /** A function named on the blacklist is never analysed, nor the entry point
      or the MIPS stub. */
  lemma ExcludedNeverAnalyzed(bin: Binary, whitelist: seq<string>, blacklist: seq<string>, funcs: seq<nat>, a: nat)
    requires FunctionName(a) in blacklist || a == bin.entry || bin.stubTarget == Some(a) || bin.sectionOf(a) != Some("text")
    ensures a !in Selected(bin, whitelist, blacklist, funcs)
  {
    SelectedIffEligible(bin, whitelist, blacklist, funcs, a);
  }

  /** A whitelist naming one function admits no other address. */
  lemma WhitelistOfOne(bin: Binary, blacklist: seq<string>, funcs: seq<nat>, a: nat, b: nat)
    requires b in Selected(bin, [FunctionName(a)], blacklist, funcs)
    ensures b == a
  {
    SelectedIffEligible(bin, [FunctionName(a)], blacklist, funcs, b);
    NamesAreDistinct(a, b);
  }

  /** The run reports no success exactly when it appended no record. */
  lemma {:induction false} NoSuccessIffNoPatch(calls: seq<Call>)
    ensures Successes(calls) == 0 <==> AllAppended(calls) == []
  {
    if calls != [] {
      NoSuccessIffNoPatch(calls[..|calls| - 1]);
    }
  }
}

/** The tag classifier of `Fidget.patch_function_stack`: one pass over the
    stream of (tag, binding) events that the tagging backend produces for a
    function, in instruction order. */
module Events {

  datatype Option<T> = None | Some(value: T)

  /** What the tagging backend reports about one instruction: its address, its
      concrete value, and whether its symbolic value still holds free symbols. */
  datatype Binding = Binding(memaddr: int, value: int, symbolic: bool)

  /** One element of the tag stream; the tag is the backend's string. */
  datatype Event = Event(tag: string, binding: Binding)

  /** The closed set of tags the classifier understands, plus the rest. */
  datatype Kind = NoTag | Alloc | Dealloc | Access | Alloca | Unrecognised

  function KindOf(tag: string): Kind
  {
    if tag == "" then NoTag
    else if tag == "STACK_ALLOC" then Alloc
    else if tag == "STACK_DEALLOC" then Dealloc
    else if tag == "STACK_ACCESS" then Access
    else if tag == "STACK_ALLOCA" then Alloca
    else Unrecognised
  }

  /** An access registered with the variable tracker, with its unsafe flag. */
  datatype StackAccess = StackAccess(binding: Binding, unsafe: bool)

  /** A stack variable of the tracker; `special` marks an argument slot. */
  datatype Variable = Variable(accesses: seq<StackAccess>, special: bool)

  /** The tracker's variables, keyed by stack offset. */
  type Variables = map<int, Variable>

  /** The locals of the classification loop: the canonical allocation, the
      kept deallocations, the tracker's variables and its stack size. */
  datatype Scan = Scan(alloc: Option<Binding>, deallocs: seq<Binding>, vars: Variables, stackSize: int)

  /** How the pass ends: with its locals, abandoned on alloca, or with the
      unsupported-tag error. */
  datatype Classification = Classified(scan: Scan) | Abandoned | Unsupported

  /** The tracker starts empty with stack size 0. */
  const Initial: Scan := Scan(None, [], map[], 0)

  /** An access adds itself to the variable kept under its own offset. */
  function Register(vars: Variables, a: StackAccess): Variables
  {
    var k := a.binding.value;
    if k in vars then vars[k := vars[k].(accesses := vars[k].accesses + [a])]
    else vars[k := Variable([a], false)]
  }

  /** The effect of one event on the classifier's locals. */
  function Step(s: Scan, e: Event): Classification
  {
    match KindOf(e.tag)
    case NoTag => Classified(s)
    case Alloc =>
      var a := if s.alloc.None? || e.binding.value < s.alloc.value.value then e.binding else s.alloc.value;
      Classified(s.(alloc := Some(a), stackSize := -a.value))
    case Dealloc =>
      if e.binding.symbolic then Classified(s.(deallocs := s.deallocs + [e.binding])) else Classified(s)
    case Access =>
      Classified(s.(vars := Register(s.vars, StackAccess(e.binding, e.binding.value < -s.stackSize))))
    case Alloca => Abandoned
    case Unrecognised => Unsupported
  }

  /** The classification of a whole stream: steps left to right, and an alloca
      or an unrecognised tag ends it. */
  function Classify(events: seq<Event>): Classification
  {
    if events == [] then Classified(Initial)
    else
      match Classify(events[..|events| - 1])
      case Classified(s) => Step(s, events[|events| - 1])
      case stop => stop
  }

  /** The classification loop of patch_function_stack. */
  method ClassifyTags(events: seq<Event>) returns (r: Classification)
    ensures r == Classify(events)
  {
    var allocOp: Option<Binding> := None;
    var deallocOps: seq<Binding> := [];
    var vars: Variables := map[];
    var stackSize := 0;
    for i := 0 to |events|
      invariant Classify(events[..i]) == Classified(Scan(allocOp, deallocOps, vars, stackSize))
    {
      var e := events[i];
      assert events[..i + 1][..i] == events[..i];
      var kind := KindOf(e.tag);
      if kind == NoTag {
        continue;
      }
      if kind == Alloc {
        if allocOp.None? {
          allocOp := Some(e.binding);
        } else if e.binding.value < allocOp.value.value {
          allocOp := Some(e.binding);
        }
        stackSize := -allocOp.value.value;
      } else if kind == Dealloc {
        if !e.binding.symbolic {
          continue;
        }
        deallocOps := deallocOps + [e.binding];
      } else if kind == Access {
        vars := Register(vars, StackAccess(e.binding, e.binding.value < -stackSize));
      } else if kind == Alloca {
        StopIsFinal(events, i + 1);
        return Abandoned;
      } else {
        StopIsFinal(events, i + 1);
        return Unsupported;
      }
    }
    assert events[..|events|] == events;
    r := Classified(Scan(allocOp, deallocOps, vars, stackSize));
  }

  // ---------------------------------------------------------------------
  // Properties of the classification

  predicate IsStop(e: Event)
  {
    KindOf(e.tag) == Alloca || KindOf(e.tag) == Unrecognised
  }

  /** Once the pass has stopped, later events change nothing. */
  lemma {:induction false} StopIsFinal(events: seq<Event>, j: nat)
    requires j <= |events|
    requires !Classify(events[..j]).Classified?
    ensures Classify(events) == Classify(events[..j])
    decreases |events|
  {
    if j < |events| {
      var n := |events| - 1;
      assert events[..n][..j] == events[..j];
      StopIsFinal(events[..n], j);
    } else {
      assert events[..j] == events;
    }
  }

  /** Every prefix of a stream that classifies normally classifies normally. */
  lemma {:induction false} PrefixClassified(events: seq<Event>, j: nat)
    requires j <= |events|
    requires Classify(events).Classified?
    ensures Classify(events[..j]).Classified?
  {
    if !Classify(events[..j]).Classified? {
      StopIsFinal(events, j);
    }
  }

  /** A normally classified stream is its prefix followed by one step. */
  lemma LastStep(events: seq<Event>)
    requires events != [] && Classify(events).Classified?
    ensures Classify(events[..|events| - 1]).Classified?
    ensures Step(Classify(events[..|events| - 1]).scan, events[|events| - 1]) == Classify(events)
  {
  }

  /** The index of the first stop event, or the length when there is none. */
  function FirstStop(events: seq<Event>): (j: nat)
    ensures j <= |events|
    ensures forall k :: 0 <= k < j ==> !IsStop(events[k])
    ensures j < |events| ==> IsStop(events[j])
  {
    if events == [] then 0
    else
      var n := |events| - 1;
      var j := FirstStop(events[..n]);
      assert forall k :: 0 <= k < j ==> events[..n][k] == events[k];
      if j < n then j else if IsStop(events[n]) then n else n + 1
  }

  /** The classification is decided by the first stop event alone. */
  lemma {:induction false} ClassifyByFirstStop(events: seq<Event>)
    ensures var j := FirstStop(events);
      (Classify(events).Classified? <==> j == |events|) &&
      (j < |events| ==> Classify(events) == (if KindOf(events[j].tag) == Alloca then Abandoned else Unsupported))
  {
    if events != [] {
      var n := |events| - 1;
      ClassifyByFirstStop(events[..n]);
      var j := FirstStop(events[..n]);
      if j < n {
        assert events[..n][j] == events[j];
      }
    }
  }

  /** The pass is abandoned exactly when an alloca comes before any other stop,
      fails exactly when an unrecognised tag does, and finishes otherwise. */
  lemma StopOutcomes(events: seq<Event>)
    ensures Classify(events).Classified? <==> forall k :: 0 <= k < |events| ==> !IsStop(events[k])
    ensures Classify(events).Abandoned? <==>
      exists j :: 0 <= j < |events| && KindOf(events[j].tag) == Alloca &&
        forall k :: 0 <= k < j ==> !IsStop(events[k])
    ensures Classify(events).Unsupported? <==>
      exists j :: 0 <= j < |events| && KindOf(events[j].tag) == Unrecognised &&
        forall k :: 0 <= k < j ==> !IsStop(events[k])
  {
    ClassifyByFirstStop(events);
    var j := FirstStop(events);
    forall j' | 0 <= j' < |events| && IsStop(events[j']) && (forall k :: 0 <= k < j' ==> !IsStop(events[k]))
      ensures j' == j
    {
    }
  }

  /** The stack size is 0 until an alloc is seen and the negated value of the
      kept alloc afterwards; there is a kept alloc iff the stream has one. */
  lemma {:induction false} StackSizeFollowsAlloc(events: seq<Event>)
    requires Classify(events).Classified?
    ensures var s := Classify(events).scan;
      (s.alloc.None? <==> forall k :: 0 <= k < |events| ==> KindOf(events[k].tag) != Alloc) &&
      s.stackSize == (if s.alloc.None? then 0 else -s.alloc.value.value)
  {
    if events != [] {
      var n := |events| - 1;
      LastStep(events);
      StackSizeFollowsAlloc(events[..n]);
      assert forall k :: 0 <= k < n ==> events[..n][k] == events[k];
    }
  }

  /** After every event of a normally classified stream, the stack size in
      force is 0 if no alloc came before and minus the kept alloc's value
      otherwise. */
  lemma StackSizeAtEveryPrefix(events: seq<Event>, j: nat)
    requires j <= |events| && Classify(events).Classified?
    ensures Classify(events[..j]).Classified?
    ensures var s := Classify(events[..j]).scan;
      (s.alloc.None? <==> forall k :: 0 <= k < j ==> KindOf(events[k].tag) != Alloc) &&
      s.stackSize == (if s.alloc.None? then 0 else -s.alloc.value.value)
  {
    PrefixClassified(events, j);
    StackSizeFollowsAlloc(events[..j]);
    assert forall k :: 0 <= k < j ==> events[..j][k] == events[k];
  }

  /** `j` is the canonical allocation: an alloc event whose value is at most
      every alloc value, and strictly below every earlier one. */
  predicate CanonicalAt(events: seq<Event>, j: int)
  {
    0 <= j < |events| && KindOf(events[j].tag) == Alloc &&
    (forall k :: 0 <= k < |events| && KindOf(events[k].tag) == Alloc ==> events[j].binding.value <= events[k].binding.value) &&
    (forall k :: 0 <= k < j && KindOf(events[k].tag) == Alloc ==> events[j].binding.value < events[k].binding.value)
  }

  lemma CanonicalSnocNew(init: seq<Event>, e: Event, j: int)
    requires KindOf(e.tag) == Alloc
    requires (forall k :: 0 <= k < |init| ==> KindOf(init[k].tag) != Alloc) ||
      (CanonicalAt(init, j) && e.binding.value < init[j].binding.value)
    ensures CanonicalAt(init + [e], |init|)
  {
    var events := init + [e];
    forall k | 0 <= k < |init| && KindOf(events[k].tag) == Alloc
      ensures e.binding.value < events[k].binding.value
    {
      assert events[k] == init[k];
    }
  }

  lemma CanonicalSnocOld(init: seq<Event>, e: Event, j: int)
    requires CanonicalAt(init, j)
    requires KindOf(e.tag) == Alloc ==> init[j].binding.value <= e.binding.value
    ensures CanonicalAt(init + [e], j)
  {
    var events := init + [e];
    assert forall k :: 0 <= k < |init| ==> events[k] == init[k];
  }

  /** The classifier keeps the most negative alloc, the first one on a tie. */
  lemma {:induction false} CanonicalAllocIsFirstMinimum(events: seq<Event>)
    requires Classify(events).Classified? && Classify(events).scan.alloc.Some?
    ensures exists j :: CanonicalAt(events, j) && events[j].binding == Classify(events).scan.alloc.value
  {
    var n := |events| - 1;
    var init := events[..n];
    var e := events[n];
    assert init + [e] == events;
    LastStep(events);
    var p := Classify(init).scan;
    if KindOf(e.tag) == Alloc && (p.alloc.None? || e.binding.value < p.alloc.value.value) {
      if p.alloc.Some? {
        CanonicalAllocIsFirstMinimum(init);
        var j :| CanonicalAt(init, j) && init[j].binding == p.alloc.value;
        CanonicalSnocNew(init, e, j);
      } else {
        StackSizeFollowsAlloc(init);
        CanonicalSnocNew(init, e, 0);
      }
      assert CanonicalAt(events, n);
    } else {
      assert p.alloc == Classify(events).scan.alloc;
      CanonicalAllocIsFirstMinimum(init);
      var j :| CanonicalAt(init, j) && init[j].binding == p.alloc.value;
      CanonicalSnocOld(init, e, j);
      assert CanonicalAt(events, j) && events[j] == init[j];
    }
  }

  /** The symbolic deallocations of a stream, in stream order (a reference
      definition, read from the front). */
  function SymbolicDeallocs(events: seq<Event>): seq<Binding>
  {
    if events == [] then []
    else
      (if KindOf(events[0].tag) == Dealloc && events[0].binding.symbolic then [events[0].binding] else [])
      + SymbolicDeallocs(events[1..])
  }

  lemma {:induction false} SymbolicDeallocsSnoc(events: seq<Event>, e: Event)
    ensures SymbolicDeallocs(events + [e]) ==
      SymbolicDeallocs(events) + (if KindOf(e.tag) == Dealloc && e.binding.symbolic then [e.binding] else [])
  {
    if events != [] {
      assert (events + [e])[1..] == events[1..] + [e];
      SymbolicDeallocsSnoc(events[1..], e);
    }
  }

  /** One step keeps the deallocations and adds its own if it is symbolic. */
  lemma StepDeallocs(s: Scan, e: Event)
    requires Step(s, e).Classified?
    ensures Step(s, e).scan.deallocs == s.deallocs + (if KindOf(e.tag) == Dealloc && e.binding.symbolic then [e.binding] else [])
  {
  }

  /** Deallocations whose value is not symbolic are dropped; the others are
      kept in stream order. */
  lemma {:induction false} DeallocsAreTheSymbolicOnes(events: seq<Event>)
    requires Classify(events).Classified?
    ensures Classify(events).scan.deallocs == SymbolicDeallocs(events)
  {
    if events != [] {
      var n := |events| - 1;
      var init := events[..n];
      LastStep(events);
      DeallocsAreTheSymbolicOnes(init);
      assert init + [events[n]] == events;
      SymbolicDeallocsSnoc(init, events[n]);
      StepDeallocs(Classify(init).scan, events[n]);
    }
  }

  /** `a` is the record the classifier makes for event `k` of a normally
      classified stream: an access with its flag set against the stack size in
      force just before it. */
  predicate FlaggedAt(events: seq<Event>, k: int, a: StackAccess)
  {
    0 <= k < |events| && KindOf(events[k].tag) == Access && events[k].binding == a.binding &&
    Classify(events[..k]).Classified? &&
    a.unsafe == (a.binding.value < -Classify(events[..k]).scan.stackSize)
  }

  /** A step keeps every access already registered. */
  lemma StepKeepsAccesses(s: Scan, e: Event, o: int, a: StackAccess)
    requires Step(s, e).Classified?
    requires o in s.vars && a in s.vars[o].accesses
    ensures o in Step(s, e).scan.vars && a in Step(s, e).scan.vars[o].accesses
  {
  }

  /** Every access event is registered under its own offset, flagged unsafe
      exactly when its value lies below the negated stack size in force just
      before it. */
  lemma {:induction false} AccessesRegisteredWithFlag(events: seq<Event>, k: int)
    requires Classify(events).Classified?
    requires 0 <= k < |events| && KindOf(events[k].tag) == Access
    ensures Classify(events[..k]).Classified?
    ensures var b := events[k].binding; var vars := Classify(events).scan.vars;
      b.value in vars &&
      StackAccess(b, b.value < -Classify(events[..k]).scan.stackSize) in vars[b.value].accesses
  {
    var n := |events| - 1;
    var init := events[..n];
    LastStep(events);
    var b := events[k].binding;
    if k < n {
      assert init[k] == events[k] && init[..k] == events[..k];
      AccessesRegisteredWithFlag(init, k);
      StepKeepsAccesses(Classify(init).scan, events[n], b.value,
        StackAccess(b, b.value < -Classify(events[..k]).scan.stackSize));
    }
  }

  /** A step registers nothing but the access it reads. */
  lemma StepAddsOnlyItsAccess(s: Scan, e: Event, o: int, a: StackAccess)
    requires Step(s, e).Classified?
    requires o in Step(s, e).scan.vars && a in Step(s, e).scan.vars[o].accesses
    ensures (o in s.vars && a in s.vars[o].accesses) ||
      (KindOf(e.tag) == Access && a == StackAccess(e.binding, e.binding.value < -s.stackSize) && o == e.binding.value)
  {
  }

  /** Every registered access is kept under its own offset and comes from an
      access event of the stream, flagged as that event was. */
  lemma {:induction false} RegisteredAccessesComeFromEvents(events: seq<Event>, o: int, a: StackAccess)
    requires Classify(events).Classified?
    requires o in Classify(events).scan.vars && a in Classify(events).scan.vars[o].accesses
    ensures a.binding.value == o
    ensures exists k :: FlaggedAt(events, k, a)
  {
    var n := |events| - 1;
    var init := events[..n];
    LastStep(events);
    var p := Classify(init).scan;
    StepAddsOnlyItsAccess(p, events[n], o, a);
    if o in p.vars && a in p.vars[o].accesses {
      RegisteredAccessesComeFromEvents(init, o, a);
      var k :| FlaggedAt(init, k, a);
      assert events[k] == init[k] && events[..k] == init[..k];
      assert FlaggedAt(events, k, a);
    } else {
      assert FlaggedAt(events, n, a);
    }
  }

  /** One step after an alloc keeps an alloc and does not shrink the size. */
  lemma StepNeverShrinks(s: Scan, e: Event)
    requires s.alloc.Some? && s.stackSize == -s.alloc.value.value
    requires Step(s, e).Classified?
    ensures Step(s, e).scan.alloc.Some? && s.stackSize <= Step(s, e).scan.stackSize
  {
  }

  /** Once an alloc has been seen, the stack size in force never decreases
      further along the stream. */
  lemma {:induction false} SizeNeverShrinksAfterAlloc(events: seq<Event>, j: nat)
    requires j <= |events|
    requires Classify(events).Classified?
    requires Classify(events[..j]).Classified? && Classify(events[..j]).scan.alloc.Some?
    ensures Classify(events).scan.alloc.Some?
    ensures Classify(events[..j]).scan.stackSize <= Classify(events).scan.stackSize
  {
    if j < |events| {
      var n := |events| - 1;
      LastStep(events);
      assert events[..n][..j] == events[..j];
      SizeNeverShrinksAfterAlloc(events[..n], j);
      StackSizeFollowsAlloc(events[..n]);
      StepNeverShrinks(Classify(events[..n]).scan, events[n]);
    } else {
      assert events[..j] == events;
    }
  }

  /** A stream without access events leaves the tracker without variables. */
  lemma {:induction false} NoAccessNoVariables(events: seq<Event>)
    requires Classify(events).Classified?
    requires forall k :: 0 <= k < |events| ==> KindOf(events[k].tag) != Access
    ensures Classify(events).scan.vars == map[]
  {
    if events != [] {
      var n := |events| - 1;
      LastStep(events);
      assert forall k :: 0 <= k < n ==> events[..n][k] == events[k];
      NoAccessNoVariables(events[..n]);
    }
  }

  /** The stream with its empty-tag events removed. */
  function DropEmpty(events: seq<Event>): seq<Event>
  {
    if events == [] then []
    else DropEmpty(events[..|events| - 1]) + (if events[|events| - 1].tag == "" then [] else [events[|events| - 1]])
  }

  /** Events with an empty tag are ignored. */
  lemma {:induction false} EmptyTagsIgnored(events: seq<Event>)
    ensures Classify(DropEmpty(events)) == Classify(events)
  {
    if events != [] {
      var n := |events| - 1;
      var e := events[n];
      EmptyTagsIgnored(events[..n]);
      var d := DropEmpty(events[..n]);
      if e.tag == "" {
        assert DropEmpty(events) == d;
        assert KindOf(e.tag) == NoTag;
      } else {
        var d' := d + [e];
        assert DropEmpty(events) == d';
        assert d'[..|d'| - 1] == d && d'[|d'| - 1] == e;
      }
    }
  }

  /** Flags depend on event order: the same access is unsafe before the
      allocation (stack size still 0) and safe after it. */
  lemma FlagsDependOnOrder()
    ensures var alloc := Event("STACK_ALLOC", Binding(0x10, -0x20, false));
      var access := Event("STACK_ACCESS", Binding(0x14, -0x18, false));
      Classify([access, alloc]).Classified? && Classify([alloc, access]).Classified? &&
      -0x18 in Classify([access, alloc]).scan.vars && -0x18 in Classify([alloc, access]).scan.vars &&
      Classify([access, alloc]).scan.vars[-0x18].accesses == [StackAccess(access.binding, true)] &&
      Classify([alloc, access]).scan.vars[-0x18].accesses == [StackAccess(access.binding, false)]
  {
    var alloc := Event("STACK_ALLOC", Binding(0x10, -0x20, false));
    var access := Event("STACK_ACCESS", Binding(0x14, -0x18, false));
    assert KindOf(alloc.tag) == Alloc && KindOf(access.tag) == Access;
    assert [access, alloc][..1] == [access] && [alloc, access][..1] == [alloc];
    assert [access][..0] == [] && [alloc][..0] == [];
    var afterAccess := Initial.(vars := map[-0x18 := Variable([StackAccess(access.binding, true)], false)]);
    assert Classify([access]) == Classified(afterAccess);
    assert Classify([access, alloc]) == Classified(afterAccess.(alloc := Some(alloc.binding), stackSize := 0x20));
    var afterAlloc := Initial.(alloc := Some(alloc.binding), stackSize := 0x20);
    assert Classify([alloc]) == Classified(afterAlloc);
    assert Classify([alloc, access]) ==
      Classified(afterAlloc.(vars := map[-0x18 := Variable([StackAccess(access.binding, false)], false)]));
  }
}

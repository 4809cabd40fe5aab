# Stack-frame resizing in fidget, modelled in Dafny

fidget hardens a compiled binary against stack buffer overflows. For each
function it reads a stream of stack-effect tags (allocation, deallocation,
access, alloca). It builds a constraint model over a new frame size `S`.
It admits the constraints that make out-of-frame accesses safe, greedily and
in order. If the solver picks an `S` different from the old size, it appends
byte patches for the allocation, the deallocations and the moved variables to
a binary-wide patch list.

This project models the driver in `fidget/patching.py`:

- `Events` is the tag classifier of `Fidget.patch_function_stack`. `Classify`
  is the specification: a left-to-right fold of `Step` over the stream.
  `ClassifyTags` is the source's loop, proved equal to it. The lemmas cover
  the canonical allocation, the stack size, dropped deallocations, the unsafe
  flags, and how the pass stops.
- `SpecialSlots` is the argument-slot walk. `MarkFrom` is the specification
  and `MarkSpecial` is the `while True` loop. `SpecialRunIsMaximal` states
  which variables it marks.
- `Constraints` is the constraint model. `Baseline` holds the bounds, the
  alloc/dealloc constraints and the constraints the variable tracker posts to
  the solver (for the safe accesses and the variable layout), in the order
  they are added. `Greedy` is the
  admission policy and `Admit` is its loop. The solver is an `Oracle`: a
  satisfiability test `sat` and the size `any` it picks. The ghost predicate
  `Sound` says that the picked size meets every size bound of a satisfiable set.
- `Naming` is the stand-in name `'sub_%x' % funcaddr`. It is lowercase hex
  with no leading zeros, proved to read back to the address, so names are
  distinct.
- `Patching` holds the class `Fidget`, whose field `patchData` is
  `_stack_patch_data`. `PatchFunctionStack` is proved equal to the
  specification `Analyze` and appends exactly `Appended(Analyze(..))`.
  `PatchStack` is the loop over all functions. `DumpPatches` returns the
  list. Everything the backends provide is carried in a `Binary` record: the
  function list, entry point, MIPS stub, sections, calling convention, native
  word, tag streams, the variable tracker's collapsing, posted and held-back
  constraints, the solver, and the patch encoders.

The model follows the code in these details:

- The zero-variable exit is checked before collapsing (patching.py:164-178).
- The bound uses the variable count after collapsing (line 183).
- Unsafe constraints are tried in the order the tracker lists them
  (line 206), not necessarily in discovery order.
- Alignment is `native_word / 8` (line 184). The argument-slot walk steps by
  `native_word` itself (line 155), not by `native_word / 8`. Both are modelled
  as written: with a 32-bit word the walk steps 32 offsets at a time.

## Model

| member | source | states |
|---|---|---|
| Events.ClassifyTags | fidget/patching.py:115-147 | the classification loop computes `Classify` of the tag stream: its kept alloc, kept deallocs, registered variables and stack size, or the alloca / unsupported-tag stop |
| Events.StopOutcomes | fidget/patching.py:138-143 | the pass is abandoned iff a `STACK_ALLOCA` comes before any other stop, fails with the unsupported-tag error iff an unrecognised tag does, and finishes iff the stream has neither |
| Events.ClassifyByFirstStop | fidget/patching.py:118-143 | the pass finishes iff the stream has no stop event; otherwise its first stop alone decides between abandoning (alloca) and the unsupported-tag error |
| Events.StopIsFinal | fidget/patching.py:138-143 | once an alloca or unrecognised tag has ended the pass, later events change nothing |
| Events.StackSizeFollowsAlloc | fidget/patching.py:117-127 | the stack size is 0 until an alloc is seen and minus the kept alloc's value afterwards; there is a kept alloc iff the stream has a `STACK_ALLOC` |
| Events.StackSizeAtEveryPrefix | fidget/patching.py:117-127 | after every event of a normally classified stream, the size in force is 0 if no alloc came before and minus the kept alloc's value otherwise |
| Events.CanonicalAllocIsFirstMinimum | fidget/patching.py:122-127 | the kept alloc is an alloc event whose value is at most every alloc value and strictly below every earlier one (most negative, first wins ties) |
| Events.DeallocsAreTheSymbolicOnes | fidget/patching.py:129-132 | the kept deallocs are exactly the `STACK_DEALLOC` events whose value is symbolic, in stream order |
| Events.AccessesRegisteredWithFlag | fidget/patching.py:134-136 | each access event is registered under its offset and flagged unsafe iff its value is below minus the stack size in force just before it |
| Events.RegisteredAccessesComeFromEvents | fidget/patching.py:134-136 | every registered access sits under its own offset and comes from an access event, flagged as that event was |
| Events.SizeNeverShrinksAfterAlloc | fidget/patching.py:122-127 | after the first alloc the stack size in force never decreases along the stream |
| Events.NoAccessNoVariables | fidget/patching.py:134-136 | a stream without access events leaves the tracker without variables |
| Events.EmptyTagsIgnored | fidget/patching.py:119 | removing every empty-tag event leaves the classification unchanged |
| Events.FlagsDependOnOrder | fidget/patching.py:117-136 | the same access is unsafe before the alloc (size still 0) and safe after it |
| SpecialSlots.KeysFromShrinks | fidget/patching.py:157-162 | each step of the walk past a present key leaves strictly fewer keys ahead, so the walk terminates for a positive step |
| SpecialSlots.MarkSpecial | fidget/patching.py:154-162 | the walk loop from the stack size in native-word steps computes `MarkFrom` |
| SpecialSlots.SpecialRunIsMaximal | fidget/patching.py:154-162 | the walk stops at the first offset with no variable, every earlier stepped offset holds one, exactly those variables are marked special, and no other variable or key changes |
| SpecialSlots.InRunIsStride | fidget/patching.py:155-160 | the walked offsets are those from the start, below the stop, whose distance from the start is a multiple of the step |
| Constraints.Admit | fidget/patching.py:206-211 | the admission loop commits the `Greedy` selection: each unsafe constraint in turn iff it is satisfiable with what is already committed |
| Constraints.GreedyCommitsBaselineThenSubsequence | fidget/patching.py:201-211 | the committed set is the baseline followed by a subsequence of the unsafe constraints in their original order |
| Constraints.GreedyStaysSatisfiable | fidget/patching.py:201-211 | if the baseline is satisfiable, the committed set stays satisfiable |
| Constraints.GreedyChecksEachCommit | fidget/patching.py:206-208 | every prefix of the committed set that extends the baseline is satisfiable |
| Constraints.FirstCompatibleIsCommitted | fidget/patching.py:206-208 | the first unsafe constraint is committed whenever it is satisfiable with the baseline |
| Constraints.AcceptedSizeInBounds | fidget/patching.py:181-213 | with a sound solver and a satisfiable baseline, the size picked satisfies `old <= S <= old + (16*N + 32)` and `S % (native_word/8) == 0` |
| Naming.Hex | fidget/patching.py:94 | `%x` yields a non-empty string of lowercase hex digits with no leading zero |
| Naming.HexRoundTrip | fidget/patching.py:94 | reading the hex digits back yields the address |
| Naming.NamesAreDistinct | fidget/patching.py:94 | two addresses with the same `sub_` name are equal |
| Patching.Fidget.constructor | fidget/patching.py:14-23 | a new instance keeps the binary and both lists and starts with an empty patch list |
| Patching.Fidget.DumpPatches | fidget/patching.py:49-51 | returns the accumulated patch list; after `PatchStack` it is the concatenation of what each call appended (`PatchStack`'s ensures) |
| Patching.Fidget.PatchFunctionStack | fidget/patching.py:111-229 | the outcome is `Analyze` of the function; the patch list is unchanged on every early exit and error, and otherwise gains the alloc, dealloc and variable records in that order |
| Patching.Fidget.PatchScan | fidget/patching.py:145-178 | after classification: no alloc means no frame, the argument slots are marked when arguments travel on the stack, no variables ends the analysis, and otherwise the collapsed variables are resized; the list changes only on a resize |
| Patching.Fidget.ResizeStack | fidget/patching.py:178-229 | the baseline (bounds, alloc and dealloc constraints, and the tracker's posted constraints) must be satisfiable (else the error), the greedy selection is committed, an unchanged size ends without records, and otherwise the records are appended |
| Patching.Fidget.AppendPatches | fidget/patching.py:225-229 | the list gains the alloc's records, then each kept dealloc's, then the variables', and nothing else |
| Patching.Fidget.PatchIfEligible | fidget/patching.py:74-101 | one loop iteration: the function is analysed iff it is eligible, with its outcome and records; a skipped function leaves the list unchanged |
| Patching.Fidget.PatchStack | fidget/patching.py:56-108 | the list is reset and then only appended to: it equals the concatenation of what each call appended; the calls are exactly the eligible functions in order (up to and including a failing one); the success count is the number of calls that lengthened the list |
| Patching.ResizedSizeInBounds | fidget/patching.py:181-216 | a resized function (sound solver) has a satisfiable committed set and a new size strictly above the old one, at most `old + 16*N + 32`, and a multiple of `native_word/8` |
| Patching.ResizedCommitsBaselineThenUnsafe | fidget/patching.py:181-211 | a resized function commits its baseline followed by a subsequence of the tracker's unsafe constraints in order |
| Patching.NoAccessNoPatch | fidget/patching.py:164-176 | a function with no access event is never resized and appends no record |
| Patching.AllocaLeavesFunctionUnpatched | fidget/patching.py:138-140 | a function whose stream has an alloca before any other stop is abandoned and appends no record |
| Patching.SelectedIffEligible | fidget/patching.py:74-98 | a function is handed to the analysis iff it is listed and is not the entry point, not the MIPS stub, in `text`, and allowed by the white/blacklist |
| Patching.ExcludedNeverAnalyzed | fidget/patching.py:76-98 | a blacklisted function, the entry point, the MIPS stub and functions outside `text` are never analysed |
| Patching.WhitelistOfOne | fidget/patching.py:94-98 | a whitelist naming one function admits no other address |
| Patching.NoSuccessIffNoPatch | fidget/patching.py:102-108 | the success count is zero iff no record was appended |

## Left out

- `apply_patches` (patching.py:25-47) is left out: copying the file, seeking, writing and `chmod` are file I/O. `patch` only calls `patch_stack`.
- The solver's internals are left out. `Oracle.sat` and `Oracle.any` stand for `satisfiable` and `any`. `S` is an unbounded integer, not a 64-bit vector, so the unsigned 64-bit comparisons, the wrap-around and the `SExtTo` sign extension (line 187) are not modelled.
- The variable tracker is not part of this model beyond registration, which is modelled as keying each access by its value. Its other work is carried by opaque functions in `Binary`: `collapse` stands for `collapse` followed by `mark_sizes` (lines 178-179); `linkConstraints` for the constraints the tracker posts to the shared solver, which the model places after the dealloc constraints, where `sym_link` runs (line 194); `unsafeConstraints` for `unsafe_constraints`; `varPatches` for `get_patches`. The bindings' `apply_constraints` and `get_patch_data` are represented as constraint values and patch encoders.
- The `gotime` flag set on each dealloc before encoding (line 227) belongs to the encoder and is not modelled.
- The "moved variable" loop and `resign_int` (lines 220-223) are left out: they only log.
- The MIPS CFG search for the entry stub (lines 63-70) is left out; its result is the input `Binary.stubTarget`. `Executable` construction and `locate_physaddr` are left out too; the section lookup is the input `Binary.sectionOf`.
- The constructor's `safe` and `debugangr` arguments, the `None`-to-`[]` defaults of the two lists and the unused `error` field (lines 14-23) only configure the backend, which `Binary` abstracts; they are not modelled.
- Logging is left out, including the "no dealloc" warning and the "could not patch any functions" error message.
- Exceptions are modelled as values. `Failed(UnsupportedTag)` and `Failed(UnsatisfiableBaseline)` end `PatchStack`, which returns the error with the records already appended. `PatchStack` also returns the success count that the source only logs.
- Patching.Fidget.PatchFunctionStack: requires a positive native word size. Without it the argument-slot walk would never advance.
- Patching.ResizedSizeInBounds: is proved for a `Sound` solver, one whose chosen size meets every size bound of a satisfiable set. The model takes this property of the solver as a hypothesis.
- Constraints.AcceptedSizeInBounds: is proved for a `Sound` solver, for the same reason.

/** For which code the results about the hybrid loop are results about a given kernel.
    Module Hybrid lets a native segment take the interpreter's own steps. A kernel has
    steps of its own: here they are any function, and all that is asked is that they be
    the interpreter's on the opcodes the code executes. The kernel in
    native/abs_native/src/evm_pure_runner.rs is known to differ on
      0x49 and 0xFE (the charge: lines 1940 and 1945), 0x5C and 0x5D (a map that lives as
      long as one segment: line 2133), 0x5E (its base price is charged once, not twice,
      and running out of gas inside it halts: lines 2577-2588), 0x3E (reads what the
      frame was given, not what the last call returned), 0xF3 and 0xFD (memory is not
      extended), opcodes it does not know (charged twice),
    and, where operands need more than 32 or 64 bits, on 0x0B, 0x1A to 0x1D and on memory
    offsets and sizes. */
module KernelCode {
  import opened Words
  import opened Jumpdest
  import opened Evm
  import opened EvmRuns
  import opened Hybrid

  /** The same, but for the pc of a finished frame: the kernel leaves it one further, and
      nothing reads it. */
  predicate SameTurn(o: Outcome, p: Outcome) {
    o == p || (o.Done? && p.Done? && o.s.(pc := p.s.pc) == p.s)
  }

  /** The kernel's turn is the interpreter's on the good opcodes. */
  ghost predicate RightOn(env: Env, native: State -> Outcome, good: byte -> bool) {
    forall s: State :: s.pc < |env.code| && good(env.code[s.pc]) ==> SameTurn(native(s), Step(env, s))
  }

  lemma DoneStays(env: Env, s: State)
    requires s.pc < |env.code| && Step(env, s).Done?
    ensures Step(env, s).s.pc == s.pc
  {
    hide GasCost, RoundUp32;
  }

  /** Every instruction of the code is good; the bytes a PUSH carries do not matter. */
  predicate OnlyGood(code: seq<byte>, good: byte -> bool) {
    forall i :: 0 <= i < |code| && WalkReaches(code, 0, i) ==> good(code[i])
  }

  /** A segment of the kernel's own turns. */
  function KernelSegment(env: Env, k: Kernel, native: State -> Outcome, s: State, left: nat): Segment
    decreases left
  {
    if Halted(env, s) || left == 0 || k.stops(env.code[s.pc]) then Segment(s, Classify(env, s, left))
    else
      match native(s)
      case Running(t) => KernelSegment(env, k, native, t, left - 1)
      case Done(t) => Segment(t.(pc := s.pc), Classify(env, t, left - 1))
      case Failed(t, e) => Segment(t, ReasonError(e))
  }

  /** On good code a segment of the kernel is the segment of interpreted steps, and it ends
      at an instruction again: no jump leads into the bytes of a PUSH. */
  lemma {:induction false} SegmentIsRight(env: Env, k: Kernel, native: State -> Outcome, good: byte -> bool,
                                          s: State, left: nat)
    requires RightOn(env, native, good) && OnlyGood(env.code, good) && WalkReaches(env.code, 0, s.pc)
    ensures KernelSegment(env, k, native, s, left) == RunSegment(env, k, s, left)
    ensures WalkReaches(env.code, 0, RunSegment(env, k, s, left).s.pc)
    decreases left
  {
    hide Step;
    if !Halted(env, s) && left > 0 && !k.stops(env.code[s.pc]) {
      assert good(env.code[s.pc]);
      StepBoundary(env, s);
      if Step(env, s).Done? {
        DoneStays(env, s);
      }
      if Step(env, s).Running? {
        SegmentIsRight(env, k, native, good, Step(env, s).s, left - 1);
      }
    }
  }

  function KernelTurn(env: Env, k: Kernel, native: State -> Outcome, s: State): HybridOutcome
    requires !Halted(env, s)
  {
    if IsHost(env.code[s.pc]) then PlainTurn(env, s)
    else
      var seg := KernelSegment(env, k, native, s, k.maxSteps);
      match seg.reason
      case ReasonError(e) => Interp(Failed(seg.s, e))
      case ReasonHost => PlainTurn(env, seg.s)
      case ReasonHandoff => if k.requireNative then HandoffForbidden(seg.s) else PlainTurn(env, seg.s)
      case _ => Interp(Done(seg.s))
  }

  /** The hybrid loop over the kernel, for at most n turns: nothing else would bound a loop
      over steps that may be anything. */
  function KernelRun(env: Env, k: Kernel, native: State -> Outcome, s: State, n: nat): HybridOutcome
    decreases n
  {
    if Halted(env, s) then Interp(Done(s))
    else if n == 0 then Interp(Running(s))
    else
      match KernelTurn(env, k, native, s)
      case Interp(Running(t)) => KernelRun(env, k, native, t, n - 1)
      case h => h
  }

  /** On good code one turn is the same, and leads to an instruction again. */
  lemma TurnIsRight(env: Env, k: Kernel, native: State -> Outcome, good: byte -> bool, s: State)
    requires RightOn(env, native, good) && OnlyGood(env.code, good) && WalkReaches(env.code, 0, s.pc)
    requires !Halted(env, s)
    ensures var h := HybridTurn(env, k, s);
      && KernelTurn(env, k, native, s) == h
      && (h.Interp? && h.o.Running? ==> WalkReaches(env.code, 0, h.o.s.pc))
  {
    hide Step, RightOn, OnlyGood, WalkReaches, KernelSegment, RunSegment;
    SegmentIsRight(env, k, native, good, s, k.maxSteps);
    var from := if IsHost(env.code[s.pc]) then s else RunSegment(env, k, s, k.maxSteps).s;
    if from.pc < |env.code| {
      StepBoundary(env, from);
    }
  }

  /** On good code the loop over the kernel ends, and as the loop of module Hybrid does. */
  lemma {:induction false} KernelRunIsRight(env: Env, k: Kernel, native: State -> Outcome, good: byte -> bool,
                                            s: State, n: nat)
    requires RightOn(env, native, good) && OnlyGood(env.code, good) && WalkReaches(env.code, 0, s.pc)
    requires n > env.gasLimit - s.gasUsed && n > 0
    ensures KernelRun(env, k, native, s, n) == HybridRun(env, k, s)
    decreases n
  {
    hide Step, KernelTurn, HybridTurn, RightOn, OnlyGood, WalkReaches;
    if !Halted(env, s) {
      TurnIsRight(env, k, native, good, s);
      var h := HybridTurn(env, k, s);
      if h.Interp? && h.o.Running? {
        KernelRunIsRight(env, k, native, good, h.o.s, n - 1);
      }
    }
  }

  /** The native run first, then the loop, as NativeFirst has them. */
  function KernelFirst(env: Env, k: Kernel, native: State -> Outcome, s: State, n: nat): HybridOutcome {
    var full := Kernel(_ => false, MAX_FULL_STEPS, false);
    var seg := if s.pc >= |env.code| then UntilHalt(env, s) else KernelSegment(env, full, native, s, MAX_FULL_STEPS);
    match seg.reason
    case ReasonError(e) => Interp(Failed(seg.s, e))
    case ReasonHandoff => if k.requireNative then HandoffForbidden(seg.s) else KernelRun(env, k, native, seg.s, n)
    case _ => Interp(Done(seg.s))
  }

  /** A kernel that is right on the opcodes of the code executes it as plain stepping does,
      with the exceptions of NativeFirstAgreesExactly and no other. */
  lemma KernelAgreesExactly(env: Env, k: Kernel, native: State -> Outcome, good: byte -> bool, s: State, n: nat)
    requires RightOn(env, native, good) && OnlyGood(env.code, good)
    requires !k.requireNative && n > env.gasLimit && n > 0
    ensures KernelFirst(env, k, native, Start(s), n) == Interp(Run(env, Start(s)))
      <==> env.code != [] && !EndsAtCapAfter(env, k, Start(s), MAX_FULL_STEPS)
  {
    hide Step, EndsAtCapAfter, EndsAtCap;
    NativeFirstAgreesExactly(env, k, s);
    if env.code != [] {
      var full := Kernel(_ => false, MAX_FULL_STEPS, false);
      SegmentIsRight(env, full, native, good, Start(s), MAX_FULL_STEPS);
      var seg := RunSegment(env, full, Start(s), MAX_FULL_STEPS);
      SegmentSound(env, full, Start(s), MAX_FULL_STEPS);
      if seg.reason == ReasonHandoff {
        KernelRunIsRight(env, k, native, good, seg.s, n);
      }
    }
  }
}

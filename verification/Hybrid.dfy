/** The loop that mixes bulk native segments with single interpreted steps
    (evm_interpreter.py, lines 213-290 and 334-361), against the loop that
    interprets every opcode. A native segment is taken by contract: it leaves the
    fields as the interpreter's own steps would, and stops for the reasons the
    kernel gives (native/abs_native/src/evm_pure_runner.rs, 2141-2143 and
    2752-2766). Module KernelCode says for which code that contract is met. */
module Hybrid {
  import opened Wrappers
  import opened Words
  import opened Jumpdest
  import opened Evm
  import opened EvmRuns

  const MAX_PURE_STEPS: nat := 8192
  const MAX_FULL_STEPS: nat := 10_000_000

  /** stops says which opcodes the kernel declines, maxSteps how many it runs before
      it hands back, and requireNative whether a hand-back is forbidden. */
  datatype Kernel = Kernel(stops: byte -> bool, maxSteps: nat, requireNative: bool)

  datatype Reason = ReasonHalt | ReasonReturn | ReasonRevert | ReasonHost | ReasonHandoff | ReasonError(error: Error)

  datatype Segment = Segment(s: State, reason: Reason)

  /** evm_opcode_is_host */
  predicate IsHost(op: byte) {
    IsCreate(op) || IsCall(op) || op == 0xFF || IsLog(op)
  }

  /** The step counter is consulted first, even when the segment has just walked
      off the end of the code. */
  function Classify(env: Env, s: State, left: nat): Reason {
    if s.running then
      if left == 0 then ReasonHandoff
      else if s.pc < |env.code| then ReasonHost
      else ReasonHalt
    else if s.reverted then ReasonRevert
    else if s.ret != [] then ReasonReturn
    else ReasonHalt
  }

  function RunSegment(env: Env, k: Kernel, s: State, left: nat): (seg: Segment)
    decreases left
  {
    if Halted(env, s) || left == 0 || k.stops(env.code[s.pc]) then Segment(s, Classify(env, s, left))
    else
      match Step(env, s)
      case Running(t) => RunSegment(env, k, t, left - 1)
      case Done(t) => Segment(t, Classify(env, t, left - 1))
      case Failed(t, e) => Segment(t, ReasonError(e))
  }

  /** What a segment started in a live state tells about the plain run. */
  lemma {:induction false} SegmentSound(env: Env, k: Kernel, s: State, left: nat)
    requires s.running
    ensures var seg := RunSegment(env, k, s, left);
      && s.gasUsed <= seg.s.gasUsed
      && match seg.reason
         case ReasonError(e) => Run(env, s) == Failed(seg.s, e)
         case ReasonHost => Run(env, s) == Run(env, seg.s) && seg.s.running && seg.s.pc < |env.code|
         case ReasonHandoff => Run(env, s) == Run(env, seg.s) && seg.s.running
         case _ => Run(env, s) == Done(seg.s)
    decreases left
  {
    hide Step;
    if !Halted(env, s) && left > 0 && !k.stops(env.code[s.pc]) && Step(env, s).Running? {
      SegmentSound(env, k, Step(env, s).s, left - 1);
    }
  }

  /** Outcomes of the hybrid loop: those of the interpreter, a fetch beyond the end of
      the code (an IndexError in the original), or a forbidden hand-back. */
  datatype HybridOutcome = Interp(o: Outcome) | FetchPastEnd(s: State) | HandoffForbidden(s: State)

  /** Lines 361-719 after the segment: the opcode is fetched without looking at pc. */
  function PlainTurn(env: Env, s: State): (h: HybridOutcome)
    ensures h.Interp? && h.o.Running? ==> s.gasUsed < h.o.s.gasUsed <= env.gasLimit
  {
    if s.pc >= |env.code| then FetchPastEnd(s) else Interp(Step(env, s))
  }

  /** One turn of the loop. _try_native_pure_segment declines to start on a host
      opcode, which is then interpreted. */
  function HybridTurn(env: Env, k: Kernel, s: State): (h: HybridOutcome)
    requires !Halted(env, s)
    ensures h.Interp? && h.o.Running? ==> s.gasUsed < h.o.s.gasUsed <= env.gasLimit
  {
    if IsHost(env.code[s.pc]) then PlainTurn(env, s)
    else
      var seg := RunSegment(env, k, s, k.maxSteps);
      SegmentSound(env, k, s, k.maxSteps);
      match seg.reason
      case ReasonError(e) => Interp(Failed(seg.s, e))
      case ReasonHost => PlainTurn(env, seg.s)
      case ReasonHandoff => if k.requireNative then HandoffForbidden(seg.s) else PlainTurn(env, seg.s)
      case _ => Interp(Done(seg.s))
  }

  /** Lines 351-719 with native segments available. */
  function HybridRun(env: Env, k: Kernel, s: State): (h: HybridOutcome)
    ensures h.Interp? ==> !h.o.Running?
    decreases env.gasLimit - s.gasUsed
  {
    if Halted(env, s) then Interp(Done(s))
    else
      match HybridTurn(env, k, s)
      case Interp(Running(t)) => HybridRun(env, k, t)
      case h => h
  }

  lemma TurnSound(env: Env, k: Kernel, s: State)
    requires !Halted(env, s)
    ensures match HybridTurn(env, k, s)
      case Interp(Running(t)) => Run(env, s) == Run(env, t)
      case Interp(o) => Run(env, s) == o
      case FetchPastEnd(t) => Run(env, s) == Done(t) && t.running && t.pc >= |env.code|
      case HandoffForbidden(t) => k.requireNative && Run(env, s) == Run(env, t)
  {
    hide Step;
    SegmentSound(env, k, s, k.maxSteps);
  }

  /** Hybrid execution refines plain stepping. When hand-backs are allowed, both end
      in the same state and with the same error, except when a segment hands back
      exactly at the end of the code: there the hybrid loop raises although the
      plain one returns normally, in the very same state. */
  lemma {:induction false} HybridRefines(env: Env, k: Kernel, s: State)
    requires !k.requireNative
    ensures match HybridRun(env, k, s)
      case Interp(o) => o == Run(env, s)
      case FetchPastEnd(t) => Run(env, s) == Done(t) && t.running && t.pc >= |env.code|
      case HandoffForbidden(_) => false
    decreases env.gasLimit - s.gasUsed
  {
    hide Step, HybridTurn;
    if !Halted(env, s) {
      TurnSound(env, k, s);
      var h := HybridTurn(env, k, s);
      if h.Interp? && h.o.Running? {
        HybridRefines(env, k, h.o.s);
      }
    }
  }

  // ------------------------------------------------- exactly when the two agree

  /** The segment counter after the opcode at s: it starts again when the cap hands the
      opcode to the interpreter, when the kernel declines it, and when a segment would
      have to start on a host opcode. */
  function NextCount(env: Env, k: Kernel, s: State, count: nat): nat
    requires s.pc < |env.code|
  {
    var op := env.code[s.pc];
    if count == k.maxSteps || k.stops(op) || (count == 0 && IsHost(op)) then 0 else count + 1
  }

  /** The plain run from s falls off the end of the code with the counter at the cap. Only
      plain steps are looked at; count opcodes of a segment lie behind s. */
  predicate EndsAtCap(env: Env, k: Kernel, s: State, count: nat)
    decreases env.gasLimit - s.gasUsed
  {
    if Halted(env, s) then s.running && count == k.maxSteps > 0
    else match Step(env, s) case Running(t) => EndsAtCap(env, k, t, NextCount(env, k, s, count)) case _ => false
  }

  /** A segment carries the counter along. */
  lemma {:induction false} SegmentCounts(env: Env, k: Kernel, s: State, left: nat)
    requires s.running && left <= k.maxSteps && k.maxSteps > 0
    requires left == k.maxSteps && !Halted(env, s) ==> !IsHost(env.code[s.pc])
    ensures var seg := RunSegment(env, k, s, left);
      match seg.reason
      case ReasonHandoff => EndsAtCap(env, k, s, k.maxSteps - left) == EndsAtCap(env, k, seg.s, k.maxSteps)
      case ReasonHost =>
        seg.s.pc < |env.code| && seg.s.running && k.stops(env.code[seg.s.pc])
        && EndsAtCap(env, k, s, k.maxSteps - left) == EndsAtCap(env, k, seg.s, 0)
      case _ => !EndsAtCap(env, k, s, k.maxSteps - left)
    decreases left
  {
    hide Step;
    if !Halted(env, s) && left > 0 && !k.stops(env.code[s.pc]) && Step(env, s).Running? {
      SegmentCounts(env, k, Step(env, s).s, left - 1);
    }
  }

  /** With no steps to a segment, every opcode is handed to the interpreter. */
  lemma {:induction false} NoStepsNoCap(env: Env, k: Kernel, s: State, count: nat)
    requires k.maxSteps == 0
    ensures !EndsAtCap(env, k, s, count)
    decreases env.gasLimit - s.gasUsed
  {
    hide Step;
    if !Halted(env, s) && Step(env, s).Running? {
      NoStepsNoCap(env, k, Step(env, s).s, NextCount(env, k, s, count));
    }
  }

  /** One turn of the hybrid loop starts the counter again. */
  lemma TurnCounts(env: Env, k: Kernel, s: State)
    requires !k.requireNative && !Halted(env, s)
    ensures match HybridTurn(env, k, s)
      case Interp(Running(t)) => EndsAtCap(env, k, s, 0) == EndsAtCap(env, k, t, 0)
      case FetchPastEnd(_) => EndsAtCap(env, k, s, 0)
      case _ => !EndsAtCap(env, k, s, 0)
  {
    hide Step;
    if k.maxSteps == 0 {
      NoStepsNoCap(env, k, s, 0);
      if HybridTurn(env, k, s).Interp? && HybridTurn(env, k, s).o.Running? {
        NoStepsNoCap(env, k, HybridTurn(env, k, s).o.s, 0);
      }
    } else if !IsHost(env.code[s.pc]) {
      SegmentCounts(env, k, s, k.maxSteps);
      SegmentSound(env, k, s, k.maxSteps);
    }
  }

  /** The two loops agree on every code, with every kernel that may hand back, if and only
      if the plain run does not fall off the end with the segment counter at its cap. */
  lemma {:induction false} HybridAgreesExactly(env: Env, k: Kernel, s: State)
    requires !k.requireNative
    ensures HybridRun(env, k, s) == Interp(Run(env, s)) <==> !EndsAtCap(env, k, s, 0)
    decreases env.gasLimit - s.gasUsed
  {
    hide Step, HybridTurn;
    if !Halted(env, s) {
      TurnSound(env, k, s);
      TurnCounts(env, k, s);
      var h := HybridTurn(env, k, s);
      if h.Interp? && h.o.Running? {
        HybridAgreesExactly(env, k, h.o.s);
      }
    }
  }

  /** Complete turns of the plain loop before it ends. */
  function Turns(env: Env, s: State): nat
    decreases env.gasLimit - s.gasUsed
  {
    if Halted(env, s) then 0
    else match Step(env, s) case Running(t) => 1 + Turns(env, t) case _ => 0
  }

  /** The plain loop stops because the code is used up, not by a halting opcode. */
  predicate FallsOff(env: Env, s: State) {
    Run(env, s).Done? && Run(env, s).s.running
  }

  /** A segment of the unrestricted kernel that starts on a run which falls off. */
  lemma {:induction false} SegmentTurns(env: Env, k: Kernel, s: State, left: nat)
    requires (forall op :: !k.stops(op)) && s.running && FallsOff(env, s)
    ensures var seg := RunSegment(env, k, s, left);
      && FallsOff(env, seg.s)
      && (Turns(env, s) < left ==> seg.reason == ReasonHalt)
      && (Turns(env, s) >= left ==> seg.reason == ReasonHandoff && Turns(env, seg.s) == Turns(env, s) - left)
    decreases left
  {
    hide Step;
    if !Halted(env, s) && left > 0 {
      SegmentTurns(env, k, Step(env, s).s, left - 1);
    }
  }

  lemma {:induction false} NoTurnsLeft(env: Env, s: State)
    requires FallsOff(env, s)
    ensures Turns(env, s) == 0 <==> s.pc >= |env.code|
    decreases env.gasLimit - s.gasUsed
  {
    hide Step;
  }

  /** So many turns stop at the cap: a round is cap turns in a segment and one more. */
  predicate StopsAtCap(turns: nat, cap: nat) {
    turns % (cap + 1) == cap
  }

  lemma OneRound(turns: nat, cap: nat)
    ensures turns <= cap ==> (StopsAtCap(turns, cap) <==> turns == cap)
    ensures turns > cap ==> (StopsAtCap(turns, cap) <==> StopsAtCap(turns - (cap + 1), cap))
  {
    var m := cap + 1;
    if turns <= cap {
      Words.ModUnique(turns, m, 0, turns);
    } else {
      var q, r := turns / m, turns % m;
      assert turns == q * m + r;
      assert turns - m == (q - 1) * m + r;
      Words.ModUnique(turns - m, m, q - 1, r);
    }
  }

  /** The same condition as a number, with the production kernel, which declines nothing,
      on code without host opcodes: each turn of the hybrid loop uses up maxSteps turns
      of the plain loop and then one more. */
  lemma {:induction false} AgreeExactly(env: Env, k: Kernel, s: State)
    requires !k.requireNative && (forall op :: !k.stops(op))
    requires forall i :: 0 <= i < |env.code| ==> !IsHost(env.code[i])
    requires s.running && 0 < k.maxSteps
    ensures HybridRun(env, k, s) == Interp(Run(env, s))
      <==> !(FallsOff(env, s) && StopsAtCap(Turns(env, s), k.maxSteps))
    decreases env.gasLimit - s.gasUsed
  {
    hide Step, StopsAtCap;
    HybridRefines(env, k, s);
    OneRound(Turns(env, s), k.maxSteps);
    if FallsOff(env, s) && !Halted(env, s) {
      var n, m := Turns(env, s), k.maxSteps;
      SegmentTurns(env, k, s, m);
      var seg := RunSegment(env, k, s, m);
      if n >= m {
        NoTurnsLeft(env, seg.s);
        if n > m {
          var t := Step(env, seg.s).s;
          SegmentSound(env, k, s, m);
          assert Turns(env, t) == n - (m + 1);
          AgreeExactly(env, k, t);
        }
      }
    }
  }

  lemma {:induction false} HandoffCostsGas(env: Env, k: Kernel, s: State, left: nat)
    requires s.running && RunSegment(env, k, s, left).reason == ReasonHandoff
    ensures var t := RunSegment(env, k, s, left).s;
      t.gasUsed >= s.gasUsed + left && (left > 0 ==> t.gasUsed <= env.gasLimit)
    decreases left
  {
    hide Step;
    if left > 0 {
      HandoffCostsGas(env, k, Step(env, s).s, left - 1);
    }
  }

  /** Any code, any kernel: a gas limit below the step cap rules the exception out. */
  lemma {:induction false} SmallLimitAgrees(env: Env, k: Kernel, s: State)
    requires !k.requireNative && env.gasLimit - s.gasUsed < k.maxSteps
    ensures HybridRun(env, k, s) == Interp(Run(env, s))
    decreases env.gasLimit - s.gasUsed
  {
    hide Step;
    if !Halted(env, s) {
      TurnSound(env, k, s);
      SegmentSound(env, k, s, k.maxSteps);
      if RunSegment(env, k, s, k.maxSteps).reason == ReasonHandoff {
        HandoffCostsGas(env, k, s, k.maxSteps);
      }
      var h := HybridTurn(env, k, s);
      if h.Interp? && h.o.Running? {
        SmallLimitAgrees(env, k, h.o.s);
      }
    }
  }

  // ------------------------------------------------------------ a failing input

  predicate AllJumpdests(code: seq<byte>) {
    forall i :: 0 <= i < |code| ==> code[i] == JUMPDEST
  }

  lemma StepJumpdest(env: Env, s: State)
    requires s.pc < |env.code| && env.code[s.pc] == JUMPDEST && s.gasUsed < env.gasLimit
    ensures Step(env, s) == Running(s.(pc := s.pc + 1, gasUsed := s.gasUsed + 1))
  {
    hide ExecAlu, ExecStack, ExecEnv, ExecMemory, ExecStorage, ExecLog, ExecCall, ExecCreate;
  }

  lemma {:induction false} JumpdestTurns(env: Env, s: State)
    requires AllJumpdests(env.code) && s.running && s.pc <= |env.code|
    requires s.gasUsed + (|env.code| - s.pc) <= env.gasLimit
    ensures FallsOff(env, s) && Turns(env, s) == |env.code| - s.pc
    decreases |env.code| - s.pc
  {
    hide Step;
    if s.pc < |env.code| {
      StepJumpdest(env, s);
      JumpdestTurns(env, Step(env, s).s);
    }
  }

  /** The loop by itself on 8192 JUMPDESTs, under its cap of 8192 steps: plain stepping
      succeeds, the hybrid loop raises. (An execution comes to the loop only after a
      native run has handed back; NativeHandoffAtEndRaises has an input for that.) */
  lemma HandoffAtEndRaises(env: Env, k: Kernel, s: State)
    requires AllJumpdests(env.code) && |env.code| == MAX_PURE_STEPS == k.maxSteps
    requires env.gasLimit == 10_000 && !k.requireNative && (forall op :: !k.stops(op))
    ensures Run(env, Start(s)).Done? && Run(env, Start(s)).s.running
    ensures HybridRun(env, k, Start(s)).FetchPastEnd?
  {
    hide Step;
    JumpdestTurns(env, Start(s));
    OneRound(MAX_PURE_STEPS, MAX_PURE_STEPS);
    AgreeExactly(env, k, Start(s));
    HybridRefines(env, k, Start(s));
  }

  // ------------------------------------------------- the native run that goes first

  /** "success" in the result (lines 722 and 337). */
  predicate Success(s: State) {
    s.running || (!s.reverted && (s.ret != [] || s.stack != []))
  }

  /** A finished execution reports success exactly when it fell off the end of the code, or halted without a
      revert and left return data or a word on the stack: one that stops or returns with neither does not. */
  lemma SuccessExactly(env: Env, s: State)
    requires Run(env, s).Done?
    ensures var t := Run(env, s).s;
      Success(t) <==> FallsOff(env, s) || (!t.reverted && |t.ret| + |t.stack| > 0)
  {
    hide Run;
  }

  /** evm_run_until_halt: one long segment that declines nothing. On empty code the
      kernel reports a halted, empty frame (evm_pure_runner.rs, 2103-2120). */
  function UntilHalt(env: Env, s: State): Segment {
    if s.pc >= |env.code| then Segment(s.(running := false, reverted := false, ret := []), ReasonHalt)
    else RunSegment(env, Kernel(_ => false, MAX_FULL_STEPS, false), s, MAX_FULL_STEPS)
  }

  /** Lines 334-351: the native run first, the hybrid loop only on a hand-back. */
  function NativeFirst(env: Env, k: Kernel, s: State): HybridOutcome {
    var seg := UntilHalt(env, s);
    match seg.reason
    case ReasonError(e) => Interp(Failed(seg.s, e))
    case ReasonHandoff => if k.requireNative then HandoffForbidden(seg.s) else HybridRun(env, k, seg.s)
    case _ => Interp(Done(seg.s))
  }

  /** On non-empty code the whole native-first execution still refines the plain one,
      with the same single exception. */
  lemma NativeFirstRefines(env: Env, k: Kernel, s: State)
    requires !k.requireNative && env.code != []
    ensures match NativeFirst(env, k, Start(s))
      case Interp(o) => o == Run(env, Start(s))
      case FetchPastEnd(t) => Run(env, Start(s)) == Done(t) && t.running && t.pc >= |env.code|
      case HandoffForbidden(_) => false
  {
    hide Step;
    var full := Kernel(_ => false, MAX_FULL_STEPS, false);
    SegmentSound(env, full, Start(s), MAX_FULL_STEPS);
    NeverHost(env, full, Start(s), MAX_FULL_STEPS);
    HybridRefines(env, k, UntilHalt(env, Start(s)).s);
  }

  /** Two successful executions can only disagree on empty code, and there they do:
      plain stepping reports success, the native run does not. */
  lemma EmptyCodeDisagrees(env: Env, k: Kernel, s: State)
    requires env.code == []
    ensures Run(env, Start(s)).Done? && Success(Run(env, Start(s)).s)
    ensures NativeFirst(env, k, Start(s)).Interp? && NativeFirst(env, k, Start(s)).o.Done?
    ensures !Success(NativeFirst(env, k, Start(s)).o.s)
  {
  }

  /** A gas limit below the long cap: the native run never hands back, so on non-empty
      code the two executions agree with no exception at all. */
  lemma NativeFirstAgrees(env: Env, k: Kernel, s: State)
    requires env.code != [] && env.gasLimit < MAX_FULL_STEPS
    ensures NativeFirst(env, k, Start(s)) == Interp(Run(env, Start(s)))
  {
    hide Step;
    var full := Kernel(_ => false, MAX_FULL_STEPS, false);
    SegmentSound(env, full, Start(s), MAX_FULL_STEPS);
    if RunSegment(env, full, Start(s), MAX_FULL_STEPS).reason == ReasonHandoff {
      HandoffCostsGas(env, full, Start(s), MAX_FULL_STEPS);
    }
    NeverHost(env, full, Start(s), MAX_FULL_STEPS);
  }

  lemma {:induction false} NeverHost(env: Env, k: Kernel, s: State, left: nat)
    requires (forall op :: !k.stops(op)) && s.running
    ensures RunSegment(env, k, s, left).reason != ReasonHost
    decreases left
  {
    hide Step;
    if !Halted(env, s) && left > 0 && Step(env, s).Running? {
      NeverHost(env, k, Step(env, s).s, left - 1);
    }
  }

  // ------------------------------------- exactly when a whole execution agrees

  /** n plain turns from s go by without ending the run. */
  predicate TurnsLeft(env: Env, s: State, n: nat)
    decreases n
  {
    n == 0 || (!Halted(env, s) && Step(env, s).Running? && TurnsLeft(env, Step(env, s).s, n - 1))
  }

  /** After n plain turns, the run goes on to fall off the end at the cap. */
  predicate EndsAtCapAfter(env: Env, k: Kernel, s: State, n: nat)
    decreases n
  {
    if n == 0 then EndsAtCap(env, k, s, 0)
    else !Halted(env, s) && Step(env, s).Running? && EndsAtCapAfter(env, k, Step(env, s).s, n - 1)
  }

  /** The long run hands back exactly when its turns go by, in the state they lead to. */
  lemma {:induction false} LongRunHandsBack(env: Env, full: Kernel, k: Kernel, s: State, left: nat)
    requires (forall op :: !full.stops(op)) && s.running
    ensures var seg := RunSegment(env, full, s, left);
      && (seg.reason == ReasonHandoff <==> TurnsLeft(env, s, left))
      && (EndsAtCapAfter(env, k, s, left) <==> seg.reason == ReasonHandoff && EndsAtCap(env, k, seg.s, 0))
    decreases left
  {
    hide Step;
    if !Halted(env, s) && left > 0 && Step(env, s).Running? {
      LongRunHandsBack(env, full, k, Step(env, s).s, left - 1);
    }
  }

  /** A whole execution agrees with plain stepping, for every code, kernel and gas limit,
      exactly when the code is not empty and the run does not, after the turns of the
      native run, fall off the end with the segment counter at its cap. */
  lemma NativeFirstAgreesExactly(env: Env, k: Kernel, s: State)
    requires !k.requireNative
    ensures NativeFirst(env, k, Start(s)) == Interp(Run(env, Start(s)))
      <==> env.code != [] && !EndsAtCapAfter(env, k, Start(s), MAX_FULL_STEPS)
  {
    hide Step, TurnsLeft, EndsAtCapAfter, EndsAtCap;
    if env.code != [] {
      var full := Kernel(_ => false, MAX_FULL_STEPS, false);
      var seg := RunSegment(env, full, Start(s), MAX_FULL_STEPS);
      SegmentSound(env, full, Start(s), MAX_FULL_STEPS);
      NeverHost(env, full, Start(s), MAX_FULL_STEPS);
      LongRunHandsBack(env, full, k, Start(s), MAX_FULL_STEPS);
      HybridAgreesExactly(env, k, seg.s);
    }
  }

  /** Where hand-backs are forbidden: exactly when the native run ends by itself. */
  lemma NativeRequiredExactly(env: Env, k: Kernel, s: State)
    requires k.requireNative
    ensures NativeFirst(env, k, Start(s)) == Interp(Run(env, Start(s)))
      <==> env.code != [] && !TurnsLeft(env, Start(s), MAX_FULL_STEPS)
  {
    hide Step, TurnsLeft, EndsAtCapAfter, EndsAtCap;
    if env.code != [] {
      var full := Kernel(_ => false, MAX_FULL_STEPS, false);
      SegmentSound(env, full, Start(s), MAX_FULL_STEPS);
      NeverHost(env, full, Start(s), MAX_FULL_STEPS);
      LongRunHandsBack(env, full, k, Start(s), MAX_FULL_STEPS);
    }
  }

  /** The condition as a number, on code without host opcodes and with the production
      kernel: the turns that remain after the native run, modulo one round of the loop. */
  lemma NativeFirstByNumber(env: Env, k: Kernel, s: State)
    requires !k.requireNative && (forall op :: !k.stops(op)) && 0 < k.maxSteps
    requires forall i :: 0 <= i < |env.code| ==> !IsHost(env.code[i])
    ensures var n := Turns(env, Start(s));
      NativeFirst(env, k, Start(s)) == Interp(Run(env, Start(s)))
      <==> env.code != [] && !(FallsOff(env, Start(s)) && n >= MAX_FULL_STEPS
                               && StopsAtCap(n - MAX_FULL_STEPS, k.maxSteps))
  {
    hide Step, StopsAtCap, HybridRun, NativeFirst, RunSegment, Run, Turns, TurnsLeft, EndsAtCapAfter, EndsAtCap;
    NativeFirstAgreesExactly(env, k, Start(s));
    if env.code != [] {
      var full := Kernel(_ => false, MAX_FULL_STEPS, false);
      var seg := RunSegment(env, full, Start(s), MAX_FULL_STEPS);
      SegmentSound(env, full, Start(s), MAX_FULL_STEPS);
      LongRunHandsBack(env, full, k, Start(s), MAX_FULL_STEPS);
      NeverHost(env, full, Start(s), MAX_FULL_STEPS);
      if FallsOff(env, Start(s)) {
        SegmentTurns(env, full, Start(s), MAX_FULL_STEPS);
      }
      if seg.reason == ReasonHandoff {
        AgreeExactly(env, k, seg.s);
        HybridAgreesExactly(env, k, seg.s);
      }
    }
  }

  /** A whole execution that fails: 10 008 192 JUMPDESTs and gas for them. Plain stepping
      succeeds; the native run hands back after 10 000 000, the first segment of the loop
      at the end of the code, and the loop fetches past it. */
  lemma NativeHandoffAtEndRaises(env: Env, k: Kernel, s: State)
    requires AllJumpdests(env.code) && |env.code| == MAX_FULL_STEPS + MAX_PURE_STEPS && k.maxSteps == MAX_PURE_STEPS
    requires env.gasLimit >= |env.code| && !k.requireNative && (forall op :: !k.stops(op))
    ensures Run(env, Start(s)).Done? && Success(Run(env, Start(s)).s)
    ensures NativeFirst(env, k, Start(s)).FetchPastEnd?
  {
    hide Step, Turns, Run, NativeFirst;
    JumpdestTurns(env, Start(s));
    assert FallsOff(env, Start(s));
    OneRound(MAX_PURE_STEPS, MAX_PURE_STEPS);
    NativeFirstByNumber(env, k, s);
    NativeFirstRefines(env, k, s);
  }
}

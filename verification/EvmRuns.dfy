/** Whole executions of the plain interpreter loop: termination by gas, the
    instruction-boundary invariant, gas and trace bounds, word ranges
    (evm_interpreter.py, lines 322-731). */
module EvmRuns {
  import opened Wrappers
  import opened Words
  import opened Memory
  import opened Jumpdest
  import opened Evm

  predicate Halted(env: Env, s: State) {
    s.pc >= |env.code| || !s.running
  }

  /** At most n turns of `while pc < len(bytecode) and running`. */
  function Steps(env: Env, s: State, n: nat): (o: Outcome)
    ensures o.Running? ==> !Halted(env, o.s)
    decreases n
  {
    if Halted(env, s) then Done(s)
    else if n == 0 then Running(s)
    else
      match Step(env, s)
      case Running(t) => Steps(env, t, n - 1)
      case o => o
  }

  /** The loop run to its end. Every JUMP may go backwards: the gas left, not the
      position, is what runs out. */
  function Run(env: Env, s: State): (o: Outcome)
    ensures !o.Running?
    decreases env.gasLimit - s.gasUsed
  {
    if Halted(env, s) then Done(s)
    else
      match Step(env, s)
      case Running(t) => Run(env, t)
      case o => o
  }

  /** Lines 323-331: memory, storage and transient storage survive from before. */
  function Start(s: State): State {
    s.(pc := 0, stack := [], gasUsed := 0, running := true, reverted := false, ret := [], logs := [])
  }

  /** The trace the run records: one entry a turn, appended after the base charge. */
  function Trace(env: Env, s: State): seq<TraceEntry>
    decreases env.gasLimit - s.gasUsed
  {
    if Halted(env, s) || !Affordable(env, s) then []
    else
      [TraceEntry(s.pc, env.code[s.pc], |s.stack|)]
      + match Step(env, s) case Running(t) => Trace(env, t) case _ => []
  }

  // ---------------------------------------------------------------- one step

  /** The next pc is again the start of an instruction, or past the end. */
  lemma StepBoundary(env: Env, s: State)
    requires s.pc < |env.code| && WalkReaches(env.code, 0, s.pc)
    ensures WalkReaches(env.code, 0, Step(env, s).s.pc)
  {
    hide Exec;
    WalkExtends(env.code, 0, s.pc);
  }

  // ----------------------------------------------------------------- whole runs

  /** The loop invariant. */
  predicate Inv(env: Env, s: State) {
    && WalkReaches(env.code, 0, s.pc)
    && Wf(s)
    && (s.gasUsed == 0 || s.gasUsed <= env.gasLimit)
  }

  lemma StartInv(env: Env, s: State)
    requires WfStore(s.storage) && WfStore(s.transient)
    ensures Inv(env, Start(s))
  {
  }

  lemma StepInv(env: Env, s: State)
    requires Inv(env, s) && HostOk(env) && !Halted(env, s)
    ensures Step(env, s).Running? ==> Inv(env, Step(env, s).s)
    ensures WalkReaches(env.code, 0, Step(env, s).s.pc) && Wf(Step(env, s).s)
    ensures Step(env, s).Done? ==> Step(env, s).s.gasUsed == 0 || Step(env, s).s.gasUsed <= env.gasLimit
  {
    hide Exec;
    StepBoundary(env, s);
    if env.gasLimit < 0 {
      DoneWithoutBudget(env, s);
    }
  }

  /** With a negative limit every opcode is refused, even the free ones. */
  lemma DoneWithoutBudget(env: Env, s: State)
    requires s.pc < |env.code| && env.gasLimit < 0
    ensures Step(env, s).Failed?
  {
    hide Exec;
  }

  /** Every state that n turns can reach: the pc is the start of an instruction or
      past the end, never inside PUSH data; all stack words and store entries are
      words, no store keeps a zero; gas and memory only grow; and without an exception
      the gas is within the limit. */
  lemma {:induction false} ReachableInv(env: Env, s: State, n: nat)
    requires Inv(env, s) && HostOk(env)
    ensures var o := Steps(env, s, n);
      && (IsInstrStart(env.code, o.s.pc) || o.s.pc >= |env.code|)
      && Wf(o.s)
      && (!o.Failed? ==> o.s.gasUsed == 0 || o.s.gasUsed <= env.gasLimit)
      && s.gasUsed <= o.s.gasUsed && |s.mem| <= |o.s.mem|
    decreases n
  {
    hide Step;
    if !Halted(env, s) && n > 0 {
      StepInv(env, s);
      if Step(env, s).Running? {
        ReachableInv(env, Step(env, s).s, n - 1);
      }
    }
  }

  /** The same for the whole run, from any state an execution starts in. */
  lemma RunFromStart(env: Env, s0: State)
    requires WfStore(s0.storage) && WfStore(s0.transient) && HostOk(env)
    ensures var o := Run(env, Start(s0));
      && (IsInstrStart(env.code, o.s.pc) || o.s.pc >= |env.code|)
      && Wf(o.s)
      && (o.Done? ==> o.s.gasUsed == 0 || o.s.gasUsed <= env.gasLimit)
      && |s0.mem| <= |o.s.mem|
  {
    StartInv(env, s0);
    var n := RunIsSteps(env, Start(s0));
    ReachableInv(env, Start(s0), n);
  }

  /** Termination, counted: a run from s ends within gasLimit - gasUsed + 1 turns. */
  lemma {:induction false} RunWithinGas(env: Env, s: State, n: nat)
    requires n >= 1 && s.gasUsed + n > env.gasLimit
    ensures Steps(env, s, n) == Run(env, s)
    decreases n
  {
    hide Step;
    if !Halted(env, s) && Step(env, s).Running? {
      RunWithinGas(env, Step(env, s).s, n - 1);
    }
  }

  lemma RunIsSteps(env: Env, s: State) returns (n: nat)
    ensures Steps(env, s, n) == Run(env, s)
  {
    n := if env.gasLimit < s.gasUsed then 1 else env.gasLimit - s.gasUsed + 1;
    RunWithinGas(env, s, n);
  }

  /** Only halting opcodes are free, so the trace cannot outgrow the gas. */
  lemma {:induction false} TraceWithinGas(env: Env, s: State)
    ensures |Trace(env, s)| <= Run(env, s).s.gasUsed - s.gasUsed + 1
    decreases env.gasLimit - s.gasUsed
  {
    hide Step;
    if !Halted(env, s) && Step(env, s).Running? {
      TraceWithinGas(env, Step(env, s).s);
    }
  }

  /** The trace has an entry for every turn whose base price was there, in order: the pc, the opcode and the
      depth of the stack before it. It ends where the run does. */
  lemma {:induction false} TraceTells(env: Env, s: State, n: nat)
    requires Steps(env, s, n).Running?
    ensures var t, trace := Steps(env, s, n).s, Trace(env, s);
      if Affordable(env, t) then
        && n < |trace| && trace[n] == TraceEntry(t.pc, env.code[t.pc], |t.stack|)
        && (!Step(env, t).Running? || Halted(env, Step(env, t).s) ==> |trace| == n + 1)
      else |trace| == n
    decreases n
  {
    hide Step, Affordable;
    if n > 0 {
      var next := Step(env, s);
      assert next.Running?;
      assert Affordable(env, s) by { PaidForTurn(env, s); }
      TraceTells(env, next.s, n - 1);
      assert Trace(env, s) == [TraceEntry(s.pc, env.code[s.pc], |s.stack|)] + Trace(env, next.s);
    }
  }

  lemma PaidForTurn(env: Env, s: State)
    requires s.pc < |env.code| && Step(env, s).Running?
    ensures Affordable(env, s)
  {
  }

  /** An execution starts at the first byte with an empty stack and no gas used, and sees of those before it the
      memory, the two stores and nothing else. */
  lemma OnlyStoresSurvive(env: Env, s: State, t: State)
    requires s.mem == t.mem && s.storage == t.storage && s.transient == t.transient && s.calls == t.calls
    ensures Run(env, Start(s)) == Run(env, Start(t)) && Trace(env, Start(s)) == Trace(env, Start(t))
    ensures Start(s) == State(0, [], s.mem, s.storage, s.transient, 0, true, false, [], [], s.calls)
  {
    hide Run, Trace;
  }

  /** Turns compose. */
  lemma {:induction false} StepsCompose(env: Env, s: State, m: nat, n: nat)
    ensures Steps(env, s, m + n)
      == match Steps(env, s, m) case Running(t) => Steps(env, t, n) case o => o
    decreases m
  {
    hide Step;
    if !Halted(env, s) && m > 0 && Step(env, s).Running? {
      StepsCompose(env, Step(env, s).s, m - 1, n);
    }
  }

  /** A run continues from wherever a bounded number of turns left off. */
  lemma {:induction false} RunAfterSteps(env: Env, s: State, n: nat)
    ensures Run(env, s) == match Steps(env, s, n) case Running(t) => Run(env, t) case o => o
    decreases n
  {
    hide Step;
    if !Halted(env, s) && n > 0 && Step(env, s).Running? {
      RunAfterSteps(env, Step(env, s).s, n - 1);
    }
  }

  // ------------------------------------------------------- opcodes in sequence

  /** What a turn of 3 gas does to everything but the stack and the memory. */
  predicate ThreeGasTurn(s: State, o: Outcome) {
    && o.Running? && o.s.pc == s.pc + 1 && o.s.gasUsed == s.gasUsed + 3
    && o.s.running == s.running && o.s.storage == s.storage && o.s.transient == s.transient
  }

  lemma StepDup2(env: Env, s: State)
    requires s.pc < |env.code| && env.code[s.pc] == 0x81 && |s.stack| >= 2 && s.gasUsed + 3 <= env.gasLimit
    ensures var o := Step(env, s);
      ThreeGasTurn(s, o) && o.s.stack == s.stack + [s.stack[|s.stack| - 2]] && o.s.mem == s.mem
  {
    hide ExecAlu, ExecEnv, ExecMemory, ExecStorage, ExecControl, ExecLog, ExecCall, ExecCreate, Alu2, EnvWord;
  }

  lemma StepMStore(env: Env, s: State)
    requires s.pc < |env.code| && env.code[s.pc] == 0x52 && |s.stack| >= 2 && s.gasUsed + 3 <= env.gasLimit
    ensures var o := Step(env, s);
      ThreeGasTurn(s, o) && o.s.stack == s.stack[..|s.stack| - 2] && o.s.mem == WriteWord(s.mem, Top(s, 0), Top(s, 1))
  {
    hide ExecAlu, ExecStack, ExecEnv, ExecStorage, ExecControl, ExecLog, ExecCall, ExecCreate, Alu2, EnvWord, WriteWord;
  }

  lemma StepMLoad(env: Env, s: State)
    requires s.pc < |env.code| && env.code[s.pc] == 0x51 && |s.stack| >= 1 && s.gasUsed + 3 <= env.gasLimit
    ensures var o := Step(env, s);
      && ThreeGasTurn(s, o) && o.s.mem == Extend(s.mem, Top(s, 0), 32)
      && o.s.stack == s.stack[..|s.stack| - 1] + [Mask(ReadWord(o.s.mem, Top(s, 0)))]
  {
    hide ExecAlu, ExecStack, ExecEnv, ExecStorage, ExecControl, ExecLog, ExecCall, ExecCreate, ExecExtCodeCopy,
      ExecCopy, ExecMCopy, ExecPush, ReadWord, Extend, Mask, Keeps, Wf, WfStore, HostOk;
  }

  /** DUP2 DUP2 MSTORE MLOAD turns (value, offset) on the stack into
      (value, value): the word comes back from memory whatever was there. */
  lemma StoreThenLoad(env: Env, s: State)
    requires s.pc + 4 <= |env.code| && env.code[s.pc..s.pc + 4] == [0x81, 0x81, 0x52, 0x51]
    requires s.running && |s.stack| >= 2 && Wf(s)
    requires s.gasUsed + 12 <= env.gasLimit
    ensures var o := Steps(env, s, 4);
      && !o.Failed?
      && o.s.stack == s.stack[..|s.stack| - 1] + [Top(s, 1)]
      && o.s.mem == WriteWord(s.mem, Top(s, 0), Top(s, 1))
      && o.s.gasUsed == s.gasUsed + 12 && o.s.pc == s.pc + 4
  {
    hide Step, WriteWord, ReadWord, Extend;
    forall i | 0 <= i < 4 ensures env.code[s.pc + i] == [0x81, 0x81, 0x52, 0x51][i] {
      assert env.code[s.pc..s.pc + 4][i] == env.code[s.pc + i];
    }
    var v, o := Top(s, 1), Top(s, 0);
    StepDup2(env, s);
    var s1 := Step(env, s).s;
    StepDup2(env, s1);
    var s2 := Step(env, s1).s;
    assert s2.stack == s.stack + [v, o];
    StepMStore(env, s2);
    var s3 := Step(env, s2).s;
    assert s3.stack == s.stack && s3.mem == WriteWord(s.mem, o, v);
    StepMLoad(env, s3);
    var s4 := Step(env, s3).s;
    ReadAfterWrite(s.mem, o, v);
    WriteWordCovers(s.mem, o, v);
    assert Steps(env, s, 4) == Steps(env, s1, 3);
    assert Steps(env, s1, 3) == Steps(env, s2, 2);
    assert Steps(env, s2, 2) == Steps(env, s3, 1);
    assert Steps(env, s3, 1) == Steps(env, s4, 0);
  }

  lemma WriteWordCovers(m: seq<byte>, offset: nat, value: nat)
    ensures Extend(WriteWord(m, offset, value), offset, 32) == WriteWord(m, offset, value)
  {
  }
}

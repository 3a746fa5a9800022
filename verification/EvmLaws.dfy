/** What short programs and operand orders mean: instruction sequences that cancel out,
    words that come back from storage and code, and arithmetic opcodes against ordinary
    integers and bits. */
module EvmLaws {
  import opened Wrappers
  import opened Words
  import opened Alu
  import opened Memory
  import opened Jumpdest
  import opened Evm
  import opened EvmRuns

  // ---------------------------------------------------------------- sequences

  /** The opcodes stand at the pc and the gas for them is there. */
  predicate Ready(env: Env, s: State, ops: seq<byte>, gas: nat) {
    && s.running && s.pc + |ops| <= |env.code| && env.code[s.pc..s.pc + |ops|] == ops
    && s.gasUsed + gas <= env.gasLimit
  }

  lemma ReadyAt(env: Env, s: State, ops: seq<byte>, gas: nat, i: nat)
    requires Ready(env, s, ops, gas) && i < |ops|
    ensures env.code[s.pc + i] == ops[i]
  {
    assert env.code[s.pc..s.pc + |ops|][i] == env.code[s.pc + i];
  }

  /** s moved on by k bytes and g gas, with another stack. */
  function Moved(s: State, k: nat, g: nat, stack: seq<nat>): State {
    s.(pc := s.pc + k, gasUsed := s.gasUsed + g, stack := stack)
  }

  lemma StepStack(env: Env, s: State)
    requires s.pc < |env.code| && IsStackOp(env.code[s.pc]) && s.gasUsed + GasCost(env.code[s.pc]) <= env.gasLimit
    requires ExecStack(env, s, env.code[s.pc]).1.FallThrough?
    ensures Step(env, s) == Running(Moved(s, 1, GasCost(env.code[s.pc]), ExecStack(env, s, env.code[s.pc]).0.stack))
  {
    hide ExecAlu, ExecEnv, ExecMemory, ExecStorage, ExecControl, ExecLog, ExecCall, ExecCreate, GasCost, ExecPush,
      Keeps, Wf, WfStore, HostOk;
  }

  lemma StepAlu(env: Env, s: State)
    requires s.pc < |env.code| && IsAlu2(env.code[s.pc]) && |s.stack| >= 2
    requires s.gasUsed + GasCost(env.code[s.pc]) <= env.gasLimit
    ensures var v := Mask(Alu2(env.code[s.pc], Top(s, 0), Top(s, 1)));
      Step(env, s) == Running(Moved(s, 1, GasCost(env.code[s.pc]), s.stack[..|s.stack| - 2] + [v]))
  {
    hide ExecStack, ExecEnv, ExecMemory, ExecStorage, ExecControl, ExecLog, ExecCall, ExecCreate, Alu2, ExecPush,
      GasCost, Keeps, Wf, WfStore, HostOk;
  }

  lemma StorageIgnoresGas(env: Env, s: State, op: byte, gas: nat)
    requires IsStorage(op)
    ensures ExecStorage(env, s.(gasUsed := gas), op)
         == (ExecStorage(env, s, op).0.(gasUsed := gas), ExecStorage(env, s, op).1)
    ensures ExecStorage(env, s, op).0.pc == s.pc
  {
    hide Store, Load, Mask, Keeps, Wf, WfStore, HostOk;
    var t := s.(gasUsed := gas);
    if op == 0x54 || op == 0x5C {
      assert |s.stack| >= 1 ==> Popped(t, 1) == Popped(s, 1).(gasUsed := gas) && Top(t, 0) == Top(s, 0);
    } else if |s.stack| >= 2 {
      assert Popped(t, 2) == Popped(s, 2).(gasUsed := gas) && Top(t, 0) == Top(s, 0) && Top(t, 1) == Top(s, 1);
    }
  }

  lemma StepStorage(env: Env, s: State)
    requires s.pc < |env.code| && IsStorage(env.code[s.pc])
    requires s.gasUsed + GasCost(env.code[s.pc]) <= env.gasLimit
    requires ExecStorage(env, s, env.code[s.pc]).1.FallThrough?
    ensures Step(env, s) == Running(ExecStorage(env, s, env.code[s.pc]).0
                                      .(pc := s.pc + 1, gasUsed := s.gasUsed + GasCost(env.code[s.pc])))
  {
    hide Exec, ExecStorage, GasCost, ExecPush, Wf, HostOk, Keeps, Store, Load, WfStore;
    var op := env.code[s.pc];
    var gas := s.gasUsed + GasCost(op);
    StorageIgnoresGas(env, s, op, gas);
    ExecIsStorage(env, s.(gasUsed := gas), op);
  }

  lemma ExecIsStorage(env: Env, s: State, op: byte)
    requires IsStorage(op)
    ensures Exec(env, s, op) == ExecStorage(env, s, op)
  {
    hide ExecStack, ExecEnv, ExecMemory, ExecAlu, ExecStorage, ExecControl, ExecLog, ExecCall, ExecCreate, Wf;
  }

  lemma TwoSteps(env: Env, s: State, t: State, u: State)
    requires s.running && s.pc < |env.code| && Step(env, s) == Running(t)
    requires t.running && t.pc < |env.code| && Step(env, t) == Running(u)
    ensures Steps(env, s, 2) == Steps(env, u, 0)
  {
    hide Step;
    assert Steps(env, t, 1) == Steps(env, u, 0);
  }

  lemma FourSteps(env: Env, s: State, t: State, u: State, v: State, w: State)
    requires s.running && s.pc < |env.code| && Step(env, s) == Running(t)
    requires t.running && t.pc < |env.code| && Step(env, t) == Running(u)
    requires u.running && u.pc < |env.code| && Step(env, u) == Running(v)
    requires v.running && v.pc < |env.code| && Step(env, v) == Running(w)
    ensures Steps(env, s, 4) == Steps(env, w, 0)
  {
    TwoSteps(env, s, t, u);
    TwoSteps(env, u, v, w);
    StepsCompose(env, s, 2, 2);
    hide Step;
  }

  /** The stack with its top and the word n below it exchanged. */
  function Swapped(stack: seq<nat>, n: nat): seq<nat>
    requires 1 <= n < |stack|
  {
    var top := |stack| - 1;
    stack[top := stack[top - n]][top - n := stack[top]]
  }

  lemma StepSwap(env: Env, s: State, n: nat)
    requires 1 <= n <= 16 && n < |s.stack| && s.pc < |env.code| && env.code[s.pc] == (0x8F + n) as byte
    requires s.gasUsed + 3 <= env.gasLimit
    ensures Step(env, s) == Running(Moved(s, 1, 3, Swapped(s.stack, n)))
  {
    StepStack(env, s);
    hide Step;
  }

  lemma StepDup(env: Env, s: State, n: nat)
    requires 1 <= n <= 16 && n <= |s.stack| && s.pc < |env.code| && env.code[s.pc] == (0x7F + n) as byte
    requires s.gasUsed + 3 <= env.gasLimit
    ensures Step(env, s) == Running(Moved(s, 1, 3, s.stack + [Top(s, n - 1)]))
  {
    StepStack(env, s);
    hide Step;
  }

  lemma StepPop(env: Env, s: State)
    requires s.stack != [] && s.pc < |env.code| && env.code[s.pc] == 0x50 && s.gasUsed + 2 <= env.gasLimit
    ensures Step(env, s) == Running(Moved(s, 1, 2, s.stack[..|s.stack| - 1]))
  {
    StepStack(env, s);
    hide Step;
  }

  /** SWAPn SWAPn is no operation, for every n. */
  lemma SwapTwice(env: Env, s: State, n: nat)
    requires 1 <= n <= 16 && n < |s.stack|
    requires Ready(env, s, [(0x8F + n) as byte, (0x8F + n) as byte], 6)
    ensures Steps(env, s, 2) == Steps(env, Moved(s, 2, 6, s.stack), 0)
  {
    hide Step, Steps;
    var op := (0x8F + n) as byte;
    ReadyAt(env, s, [op, op], 6, 0);
    ReadyAt(env, s, [op, op], 6, 1);
    StepSwap(env, s, n);
    var t := Moved(s, 1, 3, Swapped(s.stack, n));
    StepSwap(env, t, n);
    assert Swapped(Swapped(s.stack, n), n) == s.stack;
    TwoSteps(env, s, t, Moved(s, 2, 6, s.stack));
  }

  /** DUPn POP is no operation, for every n. */
  lemma DupThenPop(env: Env, s: State, n: nat)
    requires 1 <= n <= 16 && n <= |s.stack| && Ready(env, s, [(0x7F + n) as byte, 0x50], 5)
    ensures Steps(env, s, 2) == Steps(env, Moved(s, 2, 5, s.stack), 0)
  {
    hide Step, Steps;
    var op := (0x7F + n) as byte;
    ReadyAt(env, s, [op, 0x50], 5, 0);
    ReadyAt(env, s, [op, 0x50], 5, 1);
    StepDup(env, s, n);
    var t := Moved(s, 1, 3, s.stack + [Top(s, n - 1)]);
    StepPop(env, t);
    assert t.stack[..|t.stack| - 1] == s.stack;
    TwoSteps(env, s, t, Moved(s, 2, 5, s.stack));
  }

  /** DUP2 SWAP1 SUB ADD on (b, a), a on top, gives a back: SUB takes the second word
      from the top one. */
  lemma SubThenAdd(env: Env, s: State)
    requires |s.stack| >= 2 && Wf(s) && Ready(env, s, [0x81, 0x90, 0x03, 0x01], 12)
    ensures Steps(env, s, 4) == Steps(env, Moved(s, 4, 12, s.stack[..|s.stack| - 2] + [Top(s, 0)]), 0)
  {
    hide Step, Steps, Alu2, Swapped, HostOk, Wf;
    var ops: seq<byte> := [0x81, 0x90, 0x03, 0x01];
    ReadyAt(env, s, ops, 12, 0);
    ReadyAt(env, s, ops, 12, 1);
    ReadyAt(env, s, ops, 12, 2);
    ReadyAt(env, s, ops, 12, 3);
    assert GasCost(0x03) == GasCost(0x01) == 3;
    var a, b, base := Top(s, 0), Top(s, 1), s.stack[..|s.stack| - 2];
    WordsOnTop(s);
    AddUndoesSub(a, b);
    AddCommutes(Mask(Alu2(0x03, a, b)), b);
    var d := Mask(Alu2(0x03, a, b));
    var t, u := Moved(s, 1, 3, base + [b, a, b]), Moved(s, 2, 6, base + [b, b, a]);
    var v, w := Moved(s, 3, 9, base + [b, d]), Moved(s, 4, 12, base + [a]);
    SubThenAddStacks(s.stack);
    assert base + [b] + [d] == base + [b, d];
    assert s.pc + 4 <= |env.code| && s.running && s.gasUsed + 12 <= env.gasLimit;
    hide GasCost, Ready, Mask;
    StepDup(env, s, 2);
    StepSwap(env, t, 1);
    StepOn(env, u, 0x03, base + [b], b, a);
    StepOn(env, v, 0x01, base, b, d);
    FourSteps(env, s, t, u, v, w);
  }

  lemma WordsOnTop(s: State)
    requires Wf(s) && |s.stack| >= 2
    ensures Top(s, 0) < TWO_256 && Top(s, 1) < TWO_256
  {
  }

  lemma SubThenAddStacks(stack: seq<nat>)
    requires |stack| >= 2
    ensures var a, b, base := stack[|stack| - 1], stack[|stack| - 2], stack[..|stack| - 2];
      && stack + [b] == base + [b, a, b] && Swapped(base + [b, a, b], 1) == base + [b, b, a]
      && base + [b] + [b, a] == base + [b, b, a]
  {
  }

  /** A binary opcode of 3 gas on two known words. */
  lemma StepOn(env: Env, s: State, op: byte, base: seq<nat>, second: nat, top: nat)
    requires s.pc < |env.code| && env.code[s.pc] == op && IsAlu2(op) && GasCost(op) == 3
    requires s.stack == base + [second, top] && s.gasUsed + 3 <= env.gasLimit
    ensures Step(env, s) == Running(Moved(s, 1, 3, base + [Mask(Alu2(op, top, second))]))
  {
    assert s.stack[..|s.stack| - 2] == base;
    StepAlu(env, s);
    hide Step, GasCost, Alu2;
  }

  lemma AddCommutes(a: nat, b: nat)
    ensures Alu2(0x01, a, b) == Alu2(0x01, b, a)
  {
  }

  lemma StepStore(env: Env, s: State, transient: bool)
    requires |s.stack| >= 2 && s.pc < |env.code| && env.code[s.pc] == (if transient then 0x5D else 0x55)
    requires s.gasUsed + 5000 <= env.gasLimit
    ensures var o := Step(env, s);
      && o.Running? && o.s.pc == s.pc + 1 && o.s.running == s.running && o.s.gasUsed <= s.gasUsed + 5000
      && o.s.stack == s.stack[..|s.stack| - 2]
      && o.s.storage == (if transient then s.storage else Store(s.storage, Top(s, 0), Top(s, 1)))
      && o.s.transient == (if transient then Store(s.transient, Top(s, 0), Top(s, 1)) else s.transient)
  {
    StepStorage(env, s);
    hide Step, Store;
  }

  lemma StepLoad(env: Env, s: State, transient: bool)
    requires |s.stack| >= 1 && s.pc < |env.code| && env.code[s.pc] == (if transient then 0x5C else 0x54)
    requires s.gasUsed + 200 <= env.gasLimit
    ensures var o := Step(env, s);
      && o.Running? && o.s.storage == s.storage && o.s.transient == s.transient && o.s.running == s.running
      && o.s.stack == s.stack[..|s.stack| - 1] + [Mask(Load(if transient then s.transient else s.storage, Top(s, 0)))]
  {
    StepStorage(env, s);
    hide Step, Load;
  }

  /** DUP2 DUP2 followed by a store and the matching load turns (value, key) into (value,
      value), storage and transient storage alike; under any other key the store reads as
      before, and a zero is not kept. */
  lemma StoreThenLoadKey(env: Env, s: State, transient: bool)
    requires |s.stack| >= 2 && Wf(s)
    requires Ready(env, s, [0x81, 0x81, if transient then 0x5D else 0x55, if transient then 0x5C else 0x54], 5206)
    ensures var o, key := Steps(env, s, 4), Top(s, 0);
      && !o.Failed? && o.s.stack == s.stack[..|s.stack| - 1] + [Top(s, 1)]
      && (transient ==> o.s.storage == s.storage) && (!transient ==> o.s.transient == s.transient)
      && var before := if transient then s.transient else s.storage;
        var after := if transient then o.s.transient else o.s.storage;
        && (key in after <==> Top(s, 1) != 0)
        && forall k: nat :: k != key ==> Load(after, k) == Load(before, k)
  {
    hide Step, Steps, GasCost, Store, Load, HostOk, WfStore;
    var ops: seq<byte> := [0x81, 0x81, if transient then 0x5D else 0x55, if transient then 0x5C else 0x54];
    ReadyAt(env, s, ops, 5206, 0);
    ReadyAt(env, s, ops, 5206, 1);
    ReadyAt(env, s, ops, 5206, 2);
    ReadyAt(env, s, ops, 5206, 3);
    var value, key := Top(s, 1), Top(s, 0);
    StoredKey(if transient then s.transient else s.storage, key, value);
    var t, u := Moved(s, 1, 3, s.stack + [value]), Moved(s, 2, 6, s.stack + [value, key]);
    assert t.stack + [key] == u.stack && u.stack[..|u.stack| - 2] == s.stack && Top(t, 1) == key;
    assert s.pc + 4 <= |env.code| && s.running && s.gasUsed + 5206 <= env.gasLimit && value < TWO_256;
    hide Wf, Ready;
    StepDup(env, s, 2);
    StepDup(env, t, 2);
    StepStore(env, u, transient);
    var v := Step(env, u).s;
    StepLoad(env, v, transient);
    var w := Step(env, v).s;
    FourSteps(env, s, t, u, v, w);
    Paused(env, w);
  }

  lemma Paused(env: Env, s: State)
    ensures Steps(env, s, 0).s == s && !Steps(env, s, 0).Failed?
  {
  }

  lemma StoredKey(m: map<int, int>, key: nat, value: nat)
    ensures key in Store(m, key, value) <==> value != 0
    ensures Load(Store(m, key, value), key) == value
  {
  }

  /** PUSHn pushes the number whose n big-endian bytes follow it, and the next pc is past
      those bytes. */
  lemma PushReadsNumber(env: Env, s: State, n: nat, v: nat)
    requires 1 <= n <= 32 && v < Pow(256, n) && v < TWO_256
    requires Ready(env, s, [(0x5F + n) as byte] + ToBytes(v, n), 3)
    ensures Step(env, s) == Running(Moved(s, n + 1, 3, s.stack + [v]))
  {
    hide Exec, FromBytes, ToBytes, Slice, Pow, Wf, WfStore, HostOk;
    var op := (0x5F + n) as byte;
    var ops := [op] + ToBytes(v, n);
    ReadyAt(env, s, ops, 3, 0);
    ImmediateOf(env, s, op, v, n);
    BytesRoundTrip(v, n);
    ModUnique(v, Pow(256, n), 0, v);
    assert PushSize(op) == n && GasCost(op) == 3;
  }

  lemma ImmediateOf(env: Env, s: State, op: byte, v: nat, n: nat)
    requires Ready(env, s, [op] + ToBytes(v, n), 3)
    ensures Slice(env.code, s.pc + 1, n) == ToBytes(v, n)
  {
    forall i | 0 <= i < n ensures Slice(env.code, s.pc + 1, n)[i] == ToBytes(v, n)[i] {
      ReadyAt(env, s, [op] + ToBytes(v, n), 3, i + 1);
    }
  }

  /** A jump goes where it is told exactly when that is a valid destination; otherwise the
      instruction raises with the pc unmoved. */
  lemma JumpExactly(env: Env, s: State)
    requires s.pc < |env.code| && env.code[s.pc] == 0x56 && |s.stack| >= 1 && s.gasUsed + 8 <= env.gasLimit
    ensures var t := Popped(s, 1).(gasUsed := s.gasUsed + 8);
      Step(env, s) == if Top(s, 0) in ValidDests(env.code, 0) then Running(t.(pc := Top(s, 0)))
        else Failed(t, InvalidJump)
  {
    hide Perform, ValidDests, WalkReaches, Wf, HostOk;
    ValidDestsAreStarts(env.code, 0, Top(s, 0));
    PerformJump(env, s.(gasUsed := s.gasUsed + 8));
  }

  lemma PerformJump(env: Env, t: State)
    requires |t.stack| >= 1
    ensures Perform(env, t, 0x56) == if ValidDest(env.code, Top(t, 0)) then Running(Popped(t, 1).(pc := Top(t, 0)))
      else Failed(Popped(t, 1), InvalidJump)
  {
    hide ExecAlu, ExecStack, ExecEnv, ExecMemory, ExecStorage, ExecLog, ExecCall, ExecCreate, ExecReturn, ExecPush,
      ExecSelfDestruct, ValidDest, Keeps, Wf, WfStore, HostOk;
  }

  // ---------------------------------------------------------------- a price paid twice

  /** MCOPY is charged its base price with every opcode, and again with the words it
      copies: 6 and 3 a word, not 3 and 3 a word. It runs out of gas exactly when that is
      more than what remains. */
  lemma MCopyPaysTwice(env: Env, s: State)
    requires s.pc < |env.code| && env.code[s.pc] == 0x5E && |s.stack| >= 3
    ensures var price := 6 + 3 * ((Top(s, 0) + 31) / 32);
      && (s.gasUsed + price <= env.gasLimit ==>
            && Step(env, s).Running? && Step(env, s).s.gasUsed == s.gasUsed + price
            && Step(env, s).s.mem == CopyWithin(s.mem, Top(s, 2), Top(s, 1), Top(s, 0)))
      && (s.gasUsed + price > env.gasLimit ==>
            Step(env, s).Failed? && Step(env, s).error == OutOfGas && Step(env, s).s.mem == s.mem)
  {
    hide Perform, GasCost, CopyWithin, Wf, HostOk;
    assert GasCost(0x5E) == 3 by { PriceOfMCopy(); }
    PerformMCopy(env, s.(gasUsed := s.gasUsed + 3));
  }

  lemma PriceOfMCopy()
    ensures GasCost(0x5E) == 3
  {
  }

  lemma PerformMCopy(env: Env, t: State)
    ensures Perform(env, t, 0x5E)
         == match ExecMCopy(env, t).1
            case Raised(e) => Failed(ExecMCopy(env, t).0, e)
            case _ => Running(ExecMCopy(env, t).0.(pc := t.pc + 1))
  {
    hide ExecAlu, ExecStack, ExecEnv, ExecExtCodeCopy, ExecCopy, ExecStorage, ExecControl, ExecLog, ExecCall,
      ExecCreate, ExecPush, GasCost, CopyWithin, Wf, WfStore, HostOk;
  }

  // ---------------------------------------------------------------- arithmetic opcodes

  lemma AddUndoesSub(a: nat, b: nat)
    requires a < TWO_256 && b < TWO_256
    ensures Mask(Alu2(0x01, Mask(Alu2(0x03, a, b)), b)) == a
  {
  }

  /** MUL, DIV, MOD and ADD recompose the dividend, with the dividend popped first. */
  lemma DivModRecompose(a: nat, b: nat)
    requires a < TWO_256 && 0 < b < TWO_256
    ensures var q, r := Mask(Alu2(0x04, a, b)), Mask(Alu2(0x06, a, b));
      r < b && Mask(Alu2(0x01, Mask(Alu2(0x02, q, b)), r)) == a
  {
    var q, r := a / b, a % b;
    assert q * b + r == a;
    QuotientSmall(a, b);
  }

  lemma QuotientSmall(a: nat, b: nat)
    requires b > 0
    ensures 0 <= a / b <= a && 0 <= a / b * b <= a
  {
    var q := a / b;
    assert q * b + a % b == a;
    assert q * b >= q by {
      if q > 0 {
        MulAtLeast(q, b);
        MulAtLeast(b, q);
      }
    }
  }

  /** Of LT, GT and EQ exactly one answers 1, and LT with its operands exchanged is GT. */
  lemma UnsignedOrder(a: nat, b: nat)
    ensures Alu2(0x16, a, b) + Alu2(0x17, a, b) + Alu2(0x14, a, b) == 1
    ensures Alu2(0x16, a, b) == Alu2(0x17, b, a)
    ensures Alu2(0x16, a, b) == 1 <==> a < b
  {
  }

  /** The signed comparisons of the opcode map (0x18 and 0x13) order the signed values. */
  lemma SignedOrder(a: nat, b: nat)
    requires a < TWO_256 && b < TWO_256
    ensures Alu2(0x18, a, b) == 1 <==> ToSigned(a) < ToSigned(b)
    ensures Alu2(0x13, a, b) == 1 <==> ToSigned(a) > ToSigned(b)
    ensures Alu2(0x18, a, b) + Alu2(0x13, a, b) + Alu2(0x14, a, b) == 1
  {
  }

  lemma {:induction false} ToBytesAt(v: nat, n: nat, i: nat)
    requires i < n
    ensures Pow(256, n - 1 - i) > 0 && ToBytes(v, n)[i] as int == v / Pow(256, n - 1 - i) % 256
    decreases n
  {
    PowPositive(256, n - 1 - i);
    if i < n - 1 {
      ToBytesAt(v / 256, n - 1, i);
      PowPositive(256, n - 2 - i);
      assert Pow(256, n - 1 - i) == 256 * Pow(256, n - 2 - i);
      DivDiv(v, 256, Pow(256, n - 2 - i));
    }
  }

  lemma DivDiv(v: nat, a: int, b: int)
    requires a > 0 && b > 0
    ensures a * b > 0 && v / a / b == v / (a * b)
  {
    var q := v / a / b;
    var r := v / a % b * a + v % a;
    assert v / a == q * b + v / a % b;
    assert v == (v / a) * a + v % a;
    assert v == q * (a * b) + r by {
      assert (q * b + v / a % b) * a == q * (a * b) + v / a % b * a;
    }
    assert 0 <= r < a * b by {
      Below(v / a % b, b, v % a, a);
    }
    ModUnique(v, a * b, q, r);
  }

  lemma Below(x: int, b: int, y: int, a: int)
    requires 0 <= x < b && 0 <= y < a
    ensures 0 <= x * a + y < a * b
  {
    assert x * a + y < x * a + a == (x + 1) * a <= b * a;
  }

  /** BYTE reads the byte that MSTORE would put at that offset. */
  lemma ByteIsStoredByte(index: nat, word: nat, m: seq<byte>, offset: nat)
    requires word < TWO_256 && index < 32
    ensures Alu2(0x1A, index, word) == At(WriteWord(m, offset, word), offset + index) as int
  {
    WriteWordWindow(m, offset, word, offset + index);
    ToBytesAt(word, 32, index);
    hide WriteWord, At, ToBytes, Pow;
  }

  function Bit(v: nat, k: nat): nat
    decreases k
  {
    if k == 0 then v % 2 else Bit(v / 2, k - 1)
  }

  lemma {:induction false} AndAtMost(a: nat, b: nat)
    ensures BitAnd(a, b) <= a && BitAnd(a, b) <= b
    decreases a
  {
    if a > 0 {
      AndAtMost(a / 2, b / 2);
      assert a % 2 * (b % 2) <= a % 2 && a % 2 * (b % 2) <= b % 2;
    }
  }

  lemma AndHalf(a: nat, b: nat)
    ensures BitAnd(a, b) / 2 == BitAnd(a / 2, b / 2) && BitAnd(a, b) % 2 == a % 2 * (b % 2)
  {
    var x := a % 2 * (b % 2);
    assert x == 0 || x == 1;
    assert a > 0 ==> BitAnd(a, b) == x + 2 * BitAnd(a / 2, b / 2);
  }

  lemma {:induction false} AndBits(a: nat, b: nat, k: nat)
    ensures Bit(BitAnd(a, b), k) == Bit(a, k) * Bit(b, k)
    decreases k
  {
    AndHalf(a, b);
    if k > 0 {
      AndBits(a / 2, b / 2, k - 1);
    }
  }

  /** AND, OR and XOR work bit by bit. */
  lemma {:induction false} LogicBits(a: nat, b: nat, k: nat)
    ensures BitAnd(a, b) <= a && BitAnd(a, b) <= b && BitOr(a, b) >= 0 && BitXor(a, b) >= 0
    ensures Bit(BitAnd(a, b), k) == Bit(a, k) * Bit(b, k)
    ensures Bit(BitOr(a, b), k) == Bit(a, k) + Bit(b, k) - Bit(a, k) * Bit(b, k)
    ensures Bit(BitXor(a, b), k) == Bit(a, k) + Bit(b, k) - 2 * Bit(a, k) * Bit(b, k)
    decreases k
  {
    AndBits(a, b, k);
    AndAtMost(a, b);
    HalfLogic(a, b);
    hide BitAnd;
    if k > 0 {
      LogicBits(a / 2, b / 2, k - 1);
    }
  }

  lemma HalfLogic(a: nat, b: nat)
    ensures BitOr(a, b) >= 0 && BitXor(a, b) >= 0
    ensures BitOr(a, b) / 2 == BitOr(a / 2, b / 2) && BitXor(a, b) / 2 == BitXor(a / 2, b / 2)
    ensures BitOr(a, b) % 2 == a % 2 + b % 2 - a % 2 * (b % 2)
    ensures BitXor(a, b) % 2 == a % 2 + b % 2 - 2 * (a % 2 * (b % 2))
  {
    AndAtMost(a, b);
    AndHalf(a, b);
    hide BitAnd;
    var x := a % 2 * (b % 2);
    assert x == 0 || x == 1;
  }

  /** SIGNEXTEND keeps the low index + 1 bytes and repeats their sign: as a signed number the
      result is those bytes read in two's complement. From index 31 on that is the word. */
  lemma SignExtendValue(index: nat, word: nat)
    requires word < TWO_256
    ensures index >= 31 ==> SignExtend(index, word) == word
    ensures index < 31 ==>
      var span := Pow(256, index + 1);
      && 0 < span <= SIGN_BIT
      && var low := word % span;
        ToSigned(SignExtend(index, word)) == if 2 * low >= span then low - span else low
  {
    Pow256Is2To256();
    if index < 31 {
      PowPositive(256, index + 1);
      PowAdd(256, index + 1, 31 - (index + 1));
      PowPositive(256, 31 - (index + 1));
      assert Pow(256, 32) == 256 * Pow(256, 31);
      assert Pow(256, 31) * 128 == SIGN_BIT;
      assert Pow(256, index + 1) * Pow(256, 31 - (index + 1)) == Pow(256, 31);
      MulAtLeast(Pow(256, 31 - (index + 1)), Pow(256, index + 1));
    }
    hide Pow;
  }

  // ---------------------------------------------------------------- nested calls

  /** A nested call never overdraws: whatever the callee says it used, the charge stays
      within the limit, so the call itself cannot run out of gas. */
  lemma CallNeverOverdraws(env: Env, s: State, a: CallArgs)
    requires s.gasUsed <= env.gasLimit
    ensures var r := ExecuteCall(env, s, a);
      r.1 != Raised(OutOfGas) && s.gasUsed <= r.0.gasUsed <= env.gasLimit
      && r.0.gasUsed - s.gasUsed <= CallGas(Remaining(env, s), a.gas, a.value, a.kind)
  {
    hide ReturnFromCall, Extend, Slice, CallGas;
  }

  /** A creation has no such cap: it runs out of gas exactly when the init code reports
      more than what remains. */
  lemma CreateOverdrawsExactly(env: Env, s: State, value: nat, offset: nat, size: nat, salt: Option<nat>)
    requires s.gasUsed <= env.gasLimit && env.host.contractCreate.Some?
    ensures var t := Extend(s.mem, offset, size);
      var answer := env.host.contractCreate.value(s.calls, Slice(t, offset, size), value, salt);
      ExecuteCreate(env, s, value, offset, size, salt).1 == Raised(OutOfGas)
      <==> answer.Reply? && answer.value.gasUsed > Remaining(env, s)
  {
    hide Extend, Slice;
  }
}

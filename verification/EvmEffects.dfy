/** What the instructions of the opcode map do to a stack written out word by word, its top
    last (evm_interpreter.py, lines 361-719): which word is which operand, which bytes of
    memory are read or written, what a callback is asked and what becomes of its answer, and
    the exact price. The laws are about a turn of the loop and use plain integers, windows of
    bytes and the interpreter's own state. */
module EvmEffects {
  import opened Wrappers
  import opened Words
  import opened Alu
  import opened Memory
  import opened Jumpdest
  import opened Evm
  import opened EvmLaws

  // ------------------------------------------------------------- bytes of memory

  /** size bytes from an offset, with zeros past the end. */
  function Window(m: seq<byte>, offset: nat, size: nat): (w: seq<byte>) {
    seq(size, i requires 0 <= i < size => if offset + i < |m| then m[offset + i] else 0)
  }

  /** The memory stretched with zeros so that it holds a window, an empty one included. */
  function Grown(m: seq<byte>, offset: nat, size: nat): (g: seq<byte>) {
    if offset + size <= |m| then m else seq(offset + size, i requires 0 <= i => if i < |m| then m[i] else 0)
  }

  /** The memory with data at an offset, zeros in the gap before it. */
  function Written(m: seq<byte>, offset: nat, data: seq<byte>): (w: seq<byte>) {
    var end := offset + |data|;
    seq(if end <= |m| then |m| else end, i requires 0 <= i =>
      if offset <= i < end then data[i - offset] else if i < |m| then m[i] else 0)
  }

  lemma SliceIsWindow(m: seq<byte>, offset: nat, size: nat)
    ensures Slice(m, offset, size) == Window(m, offset, size)
  {
  }

  lemma ExtendIsGrown(m: seq<byte>, offset: nat, size: nat)
    ensures Extend(m, offset, size) == Grown(m, offset, size)
    ensures Slice(Extend(m, offset, size), offset, size) == Window(m, offset, size)
  {
  }

  lemma SpliceIsWritten(m: seq<byte>, offset: nat, data: seq<byte>)
    ensures Splice(Extend(m, offset, |data|), offset, data) == Written(m, offset, data)
  {
    var w := Splice(Extend(m, offset, |data|), offset, data);
    forall i | 0 <= i < |w| ensures w[i] == Written(m, offset, data)[i] {
      if offset <= i < offset + |data| {
        assert w[i] == w[offset..offset + |data|][i - offset];
      }
    }
  }

  lemma CopyInIsWritten(m: seq<byte>, dest: nat, src: seq<byte>, offset: nat, size: nat)
    ensures CopyIn(m, dest, src, offset, size) == Written(m, dest, Window(src, offset, size))
  {
    SliceIsWindow(src, offset, size);
    SpliceIsWritten(m, dest, Window(src, offset, size));
  }

  // --------------------------------------------------------------- from turn to body

  /** The opcode stands at the pc and its price is there. */
  predicate Stands(env: Env, s: State, op: byte, price: nat) {
    s.pc < |env.code| && env.code[s.pc] == op && s.gasUsed + price <= env.gasLimit
  }

  /** How a body leaves the turn. */
  function Leaves(r: (State, Flow)): Outcome {
    match r.1
    case FallThrough => Running(r.0.(pc := r.0.pc + 1))
    case Jumped => Running(r.0)
    case Stopped => Done(r.0)
    case Raised(e) => Failed(r.0, e)
  }

  lemma StepIs(env: Env, s: State, op: byte)
    requires op != 0x00 && !(0x60 <= op <= 0x7F) && Stands(env, s, op, BaseCost(op))
    ensures Step(env, s) == Leaves(Exec(env, s.(gasUsed := s.gasUsed + BaseCost(op)), op))
  {
    hide Exec, BaseCost, Keeps, Wf, HostOk;
  }

  lemma PriceOf(op: byte)
    ensures IsAlu1(op) || 0x10 <= op <= 0x1D || 0x51 <= op <= 0x53 ==> BaseCost(op) == 3
    ensures op == 0x37 || op == 0x39 || op == 0x3E || op == 0x35 || op == 0x49 || op == 0xFE ==> BaseCost(op) == 3
    ensures op == 0x01 || op == 0x03 ==> BaseCost(op) == 3
    ensures op == 0x02 || 0x04 <= op <= 0x07 || op == 0x0B || op == 0x47 ==> BaseCost(op) == 5
    ensures IsAlu3(op) ==> BaseCost(op) == 8
    ensures op == 0x0A || op == 0x57 ==> BaseCost(op) == 10
    ensures op == 0x5B ==> BaseCost(op) == 1
    ensures op == 0x20 ==> BaseCost(op) == 30
    ensures op == 0x31 ==> BaseCost(op) == 400
    ensures op == 0x40 ==> BaseCost(op) == 20
    ensures IsCall(op) || op == 0x3B || op == 0x3C || op == 0x3F ==> BaseCost(op) == 700
    ensures IsCreate(op) ==> BaseCost(op) == 32000
    ensures op == 0xFF ==> BaseCost(op) == 5000
    ensures IsLog(op) || op == 0x00 || op == 0xF3 || op == 0xFD ==> BaseCost(op) == 0
  {
  }

  lemma ExecIs(env: Env, s: State, op: byte)
    ensures IsAlu1(op) || IsAlu2(op) || IsAlu3(op) ==> Exec(env, s, op) == ExecAlu(env, s, op)
    ensures IsEnvWord(op) || IsQuery(op) ==> Exec(env, s, op) == ExecEnv(env, s, op)
    ensures IsMemory(op) ==> Exec(env, s, op) == ExecMemory(env, s, op)
    ensures IsControl(op) ==> Exec(env, s, op) == ExecControl(env, s, op)
    ensures IsLog(op) ==> Exec(env, s, op) == ExecLog(env, s, op)
    ensures IsCall(op) ==> Exec(env, s, op) == ExecCall(env, s, op)
    ensures IsCreate(op) ==> Exec(env, s, op) == ExecCreate(env, s, op)
  {
    hide ExecStack, ExecEnv, ExecMemory, ExecAlu, ExecStorage, ExecControl, ExecLog, ExecCall, ExecCreate, Keeps, Wf,
      HostOk;
  }

  // --------------------------------------------------------------- jumps and halts

  /** A conditional jump is taken exactly when the word below the destination is not zero. */
  lemma JumpIfExactly(env: Env, s: State, base: seq<nat>, cond: nat, dest: nat)
    requires Stands(env, s, 0x57, 10) && s.stack == base + [cond, dest]
    ensures var t := s.(gasUsed := s.gasUsed + 10, stack := base);
      Step(env, s) == if cond == 0 then Running(t.(pc := s.pc + 1))
        else if dest in ValidDests(env.code, 0) then Running(t.(pc := dest))
        else Failed(t, InvalidJump)
  {
    hide Exec, ValidDests, WalkReaches, Keeps, Wf, HostOk, BaseCost;
    PriceOf(0x57);
    StepIs(env, s, 0x57);
    ExecIs(env, s.(gasUsed := s.gasUsed + 10), 0x57);
    ValidDestsAreStarts(env.code, 0, dest);
    assert s.stack[..|s.stack| - 2] == base;
  }

  /** RETURN and REVERT end the execution with the bytes of a window: the offset is on top,
      the size below it. REVERT alone marks the execution reverted. */
  lemma ReturnsWindow(env: Env, s: State, op: byte, base: seq<nat>, size: nat, offset: nat)
    requires (op == 0xF3 || op == 0xFD) && Stands(env, s, op, 0) && s.stack == base + [size, offset]
    ensures Step(env, s) == Done(s.(stack := base, mem := Grown(s.mem, offset, size),
                                    ret := Window(s.mem, offset, size),
                                    reverted := s.reverted || op == 0xFD, running := false))
  {
    hide Exec, Extend, Slice, Window, Grown, Keeps, Wf, HostOk, BaseCost;
    PriceOf(op);
    StepIs(env, s, op);
    ExecIs(env, s, op);
    ExtendIsGrown(s.mem, offset, size);
    assert s.stack[..|s.stack| - 2] == base;
    assert s.(gasUsed := s.gasUsed + 0) == s;
  }

  /** SELFDESTRUCT tells the host the address in the top word and ends the execution. */
  lemma SelfDestructs(env: Env, s: State, base: seq<nat>, who: nat)
    requires Stands(env, s, 0xFF, 5000) && s.stack == base + [who]
    ensures var t := s.(gasUsed := s.gasUsed + 5000, stack := base);
      Step(env, s) == match env.host.selfDestruct
        case None => Done(t.(running := false))
        case Some(f) =>
          if f(s.calls, who % TWO_160).Reply? then Done(t.(running := false, calls := s.calls + 1))
          else Failed(t.(calls := s.calls + 1), HostError)
  {
    hide Exec, Keeps, Wf, HostOk, ExecReturn, Step, Perform, BaseCost;
    PriceOf(0xFF);
    StepIs(env, s, 0xFF);
    ExecIs(env, s.(gasUsed := s.gasUsed + 5000), 0xFF);
    assert s.stack[..|s.stack| - 1] == base;
  }

  /** Addresses are the 160 low bits of a word. */
  lemma AddressSpan()
    ensures Pow(2, 160) == TWO_160
  {
    Pow2To4();
    PowAdd(2, 4, 4);
    PowAdd(2, 8, 8);
    PowAdd(2, 16, 16);
    PowAdd(2, 32, 32);
    PowAdd(2, 64, 64);
    PowAdd(2, 128, 32);
  }

  /** STOP ends the execution, JUMPDEST goes on for one gas, INVALID raises. */
  lemma PlainEnds(env: Env, s: State)
    requires s.pc < |env.code| && s.gasUsed <= env.gasLimit
    ensures env.code[s.pc] == 0x00 ==> Step(env, s) == Done(s.(running := false))
    ensures Stands(env, s, 0x5B, 1) ==> Step(env, s) == Running(s.(pc := s.pc + 1, gasUsed := s.gasUsed + 1))
    ensures Stands(env, s, 0xFE, 3) ==> Step(env, s) == Failed(s.(gasUsed := s.gasUsed + 3), InvalidOpcode)
  {
    hide Exec, ExecReturn, ExecSelfDestruct, Jump, Keeps, Wf, HostOk;
    assert s.(gasUsed := s.gasUsed + 0) == s;
    if Stands(env, s, 0x5B, 1) {
      StepIs(env, s, 0x5B);
      ExecIs(env, s.(gasUsed := s.gasUsed + 1), 0x5B);
    }
    if Stands(env, s, 0xFE, 3) {
      StepIs(env, s, 0xFE);
      ExecIs(env, s.(gasUsed := s.gasUsed + 3), 0xFE);
    }
  }

  // ------------------------------------------------------------ arithmetic and logic

  lemma StepUnary(env: Env, s: State, op: byte, base: seq<nat>, x: nat)
    requires IsAlu1(op) && Stands(env, s, op, 3) && s.stack == base + [x]
    ensures Step(env, s) == Running(Moved(s, 1, 3, base + [Mask(Alu1(op, x))]))
  {
    hide Exec, Alu1, Mask, Step, Perform, Keeps, Wf, HostOk, BaseCost;
    PriceOf(op);
    StepIs(env, s, op);
    ExecIs(env, s.(gasUsed := s.gasUsed + 3), op);
    assert s.stack[..|s.stack| - 1] == base;
  }

  lemma StepBinary(env: Env, s: State, op: byte, base: seq<nat>, y: nat, x: nat)
    requires IsAlu2(op) && Stands(env, s, op, BaseCost(op)) && s.stack == base + [y, x]
    ensures Step(env, s) == Running(Moved(s, 1, BaseCost(op), base + [Mask(Alu2(op, x, y))]))
  {
    hide Exec, Alu2, Mask, BaseCost, Step, Perform, Keeps, Wf, HostOk;
    StepIs(env, s, op);
    ExecIs(env, s.(gasUsed := s.gasUsed + BaseCost(op)), op);
    assert s.stack[..|s.stack| - 2] == base;
  }

  lemma StepTernary(env: Env, s: State, op: byte, base: seq<nat>, z: nat, y: nat, x: nat)
    requires IsAlu3(op) && Stands(env, s, op, 8) && s.stack == base + [z, y, x]
    ensures Step(env, s) == Running(Moved(s, 1, 8, base + [Mask(Alu3(op, x, y, z))]))
  {
    hide Exec, Alu3, Mask, Step, Perform, Keeps, Wf, HostOk, BaseCost;
    PriceOf(op);
    StepIs(env, s, op);
    ExecIs(env, s.(gasUsed := s.gasUsed + 8), op);
    assert s.stack[..|s.stack| - 3] == base;
  }

  /** The turn puts a word in place of the operands above base, for this price. */
  predicate Gives(env: Env, s: State, price: nat, base: seq<nat>, word: int) {
    s.pc < |env.code| && word >= 0 && Step(env, s) == Running(Moved(s, 1, price, base + [word]))
  }

  /** ADD, MUL, SUB, DIV, MOD, ISZERO, NOT, ADDMOD and MULMOD in integers: x is the top word, y the
      one below, z the third. DIV and MOD by zero give zero, as do ADDMOD and MULMOD with
      modulus zero, which is on top. */
  lemma UnsignedArithmetic(env: Env, s: State, op: byte, base: seq<nat>, z: nat, y: nat, x: nat)
    requires x < TWO_256 && y < TWO_256 && z < TWO_256 && s.stack == base + [z, y, x] && Stands(env, s, op, 8)
    ensures op == 0x01 ==> Gives(env, s, 3, base + [z], (x + y) % TWO_256)
    ensures op == 0x02 ==> Gives(env, s, 5, base + [z], x * y % TWO_256)
    ensures op == 0x03 ==> Gives(env, s, 3, base + [z], (x - y) % TWO_256)
    ensures op == 0x04 ==> Gives(env, s, 5, base + [z], if y == 0 then 0 else x / y)
    ensures op == 0x06 ==> Gives(env, s, 5, base + [z], if y == 0 then 0 else x % y)
    ensures op == 0x08 ==> Gives(env, s, 8, base, if x == 0 then 0 else (y + z) % x)
    ensures op == 0x09 ==> Gives(env, s, 8, base, if x == 0 then 0 else y * z % x)
    ensures op == 0x15 ==> Gives(env, s, 3, base + [z, y], if x == 0 then 1 else 0)
    ensures op == 0x19 ==> Gives(env, s, 3, base + [z, y], TWO_256 - 1 - x)
  {
    hide Step, BaseCost;
    PriceOf(op);
    assert base + [z, y, x] == base + [z] + [y, x] == base + [z, y] + [x];
    if IsAlu1(op) {
      StepUnary(env, s, op, base + [z, y], x);
    } else if IsAlu3(op) {
      StepTernary(env, s, op, base, z, y, x);
    } else if IsAlu2(op) && op <= 0x06 {
      StepBinary(env, s, op, base + [z], y, x);
      if op == 0x04 && y > 0 {
        QuotientSmall(x, y);
      }
    }
  }

  /** The signed and the shifting opcodes: the divisor, the base of the power, the word extended
      and the word shifted are below the top word. SDiv, SMod, SignExtend and Sar are tied to
      integers by the laws SignedDivMod, SignExtendValue and SarIsFloorDivision. */
  lemma SignedAndPowers(env: Env, s: State, op: byte, base: seq<nat>, y: nat, x: nat)
    requires x < TWO_256 && y < TWO_256 && s.stack == base + [y, x] && Stands(env, s, op, 10)
    ensures op == 0x05 ==> Gives(env, s, 5, base, if y == 0 then 0 else SDiv(x, y))
    ensures op == 0x07 ==> Gives(env, s, 5, base, if y == 0 then 0 else SMod(x, y))
    ensures op == 0x0A ==> Gives(env, s, 10, base, if x == 0 && y == 0 then 0 else Pow(y, x) % TWO_256)
    ensures op == 0x0B ==> Gives(env, s, 5, base, SignExtend(x, y))
    ensures op == 0x1B ==> Gives(env, s, 3, base, if x >= 256 then 0 else y * Pow(2, x) % TWO_256)
    ensures Pow(2, x) > 0 && (op == 0x1C ==> Gives(env, s, 3, base, y / Pow(2, x)))
    ensures op == 0x1D ==> Gives(env, s, 3, base, Sar(y, x))
  {
    hide Step, BaseCost, SDiv, SMod, Sar, SignExtend, Pow, TruncDiv, TruncMod;
    SignedWords(x, y);
    PowPositive(2, x);
    if op == 0x05 || op == 0x07 || op == 0x0A || op == 0x0B || 0x1B <= op <= 0x1D {
      PriceOf(op);
      StepBinary(env, s, op, base, y, x);
      ShiftedWords(y, x);
      ExtendedWord(x, y);
    }
  }

  lemma SignedWords(x: nat, y: nat)
    ensures SDiv(x, y) < TWO_256 && SMod(x, y) < TWO_256
    ensures y == 0 ==> SDiv(x, y) == 0 && SMod(x, y) == 0
  {
    hide TruncDiv, TruncMod, ToSigned;
  }

  lemma ShiftedWords(y: nat, x: nat)
    requires y < TWO_256 && Pow(2, x) > 0
    ensures Shr(y, x) == y / Pow(2, x) && 0 <= y / Pow(2, x) <= y
    ensures Sar(y, x) < TWO_256
  {
    hide Pow;
    QuotientSmall(y, Pow(2, x));
    if x >= 256 {
      PowBeyondWord(x);
      SmallQuotient(y, Pow(2, x));
    }
  }

  lemma ExtendedWord(index: nat, word: nat)
    requires word < TWO_256
    ensures SignExtend(index, word) < TWO_256
  {
    hide Pow;
    if index < 32 {
      PowPositive(256, index + 1);
      var span := Pow(256, index + 1);
      QuotientSmall(word, span);
      assert word == word / span * span + word % span;
    }
  }

  lemma {:induction false} OrWithin(a: nat, b: nat, k: nat)
    requires a < Pow(2, k) && b < Pow(2, k)
    ensures 0 <= BitXor(a, b) <= BitOr(a, b) < Pow(2, k)
  {
    HalfLogic(a, b);
    if k > 0 {
      OrWithin(a / 2, b / 2, k - 1);
    }
    hide BitAnd;
    assert 0 <= BitAnd(a, b) by { AndAtMost(a, b); }
  }

  /** AND, OR and XOR of the two top words, which LogicBits describes bit by bit. */
  lemma LogicOnStack(env: Env, s: State, op: byte, base: seq<nat>, y: nat, x: nat)
    requires x < TWO_256 && y < TWO_256 && s.stack == base + [y, x] && Stands(env, s, op, 3)
    ensures op == 0x10 ==> Gives(env, s, 3, base, BitAnd(x, y))
    ensures op == 0x11 ==> Gives(env, s, 3, base, BitOr(x, y))
    ensures op == 0x12 ==> Gives(env, s, 3, base, BitXor(x, y))
  {
    hide Step, BitAnd, BitOr, BitXor, Pow, BaseCost;
    PriceOf(op);
    Pow256Is2To256();
    OrWithin(x, y, 256);
    AndAtMost(x, y);
    if 0x10 <= op <= 0x12 {
      StepBinary(env, s, op, base, y, x);
    }
  }

  /** The comparisons of the top word with the one below. */
  lemma OrderOnStack(env: Env, s: State, op: byte, base: seq<nat>, y: nat, x: nat)
    requires x < TWO_256 && y < TWO_256 && s.stack == base + [y, x] && Stands(env, s, op, 3)
    ensures op == 0x13 ==> Gives(env, s, 3, base, if ToSigned(x) > ToSigned(y) then 1 else 0)
    ensures op == 0x14 ==> Gives(env, s, 3, base, if x == y then 1 else 0)
    ensures op == 0x16 ==> Gives(env, s, 3, base, if x < y then 1 else 0)
    ensures op == 0x17 ==> Gives(env, s, 3, base, if x > y then 1 else 0)
    ensures op == 0x18 ==> Gives(env, s, 3, base, if ToSigned(x) < ToSigned(y) then 1 else 0)
  {
    hide Step, BaseCost;
    PriceOf(op);
    if 0x13 <= op <= 0x14 || 0x16 <= op <= 0x18 {
      StepBinary(env, s, op, base, y, x);
    }
  }

  /** BYTE: the index is on top and counts from the most significant byte of the word below. */
  lemma ByteOnStack(env: Env, s: State, base: seq<nat>, y: nat, x: nat)
    requires y < TWO_256 && s.stack == base + [y, x] && Stands(env, s, 0x1A, 3)
    ensures Gives(env, s, 3, base, if x < 32 then ToBytes(y, 32)[x] as int else 0)
  {
    hide Step, BaseCost, ToBytes, Pow;
    PriceOf(0x1A);
    StepBinary(env, s, 0x1A, base, y, x);
    if x < 32 {
      ToBytesAt(y, 32, x);
    }
  }

  // ------------------------------------------------------------------ stack words

  /** POP drops the top word, DUPn repeats the n-th word from the top, SWAPn exchanges the top
      word with the one that has n - 1 words between them. */
  lemma StackWords(env: Env, s: State, base: seq<nat>, x: nat, above: seq<nat>, y: nat)
    requires s.stack == base + [x] + above + [y] && |above| <= 15
    ensures Stands(env, s, 0x50, 2) ==> Step(env, s) == Running(Moved(s, 1, 2, base + [x] + above))
    ensures Stands(env, s, 0x80, 3) ==> Step(env, s) == Running(Moved(s, 1, 3, s.stack + [y]))
    ensures |above| <= 14 && Stands(env, s, (0x81 + |above|) as byte, 3) ==>
      Step(env, s) == Running(Moved(s, 1, 3, s.stack + [x]))
    ensures Stands(env, s, (0x90 + |above|) as byte, 3) ==>
      Step(env, s) == Running(Moved(s, 1, 3, base + [y] + above + [x]))
  {
    hide Step;
    if Stands(env, s, 0x50, 2) {
      StepPop(env, s);
      assert s.stack[..|s.stack| - 1] == base + [x] + above;
    } else if Stands(env, s, 0x80, 3) {
      StepDup(env, s, 1);
    } else if |above| <= 14 && Stands(env, s, (0x81 + |above|) as byte, 3) {
      StepDup(env, s, |above| + 2);
    } else if Stands(env, s, (0x90 + |above|) as byte, 3) {
      StepSwap(env, s, |above| + 1);
      assert Swapped(s.stack, |above| + 1) == base + [y] + above + [x];
    }
  }

  // ------------------------------------------------------------------ the context

  lemma StepEnvWord(env: Env, s: State, op: byte)
    requires IsEnvWord(op) && Stands(env, s, op, BaseCost(op))
    ensures Step(env, s)
         == Running(Moved(s, 1, BaseCost(op),
                          s.stack + [Mask(EnvWord(env, s.(gasUsed := s.gasUsed + BaseCost(op)), op))]))
  {
    hide Exec, EnvWord, Mask, BaseCost, Step, Perform, Keeps, Wf, HostOk;
    StepIs(env, s, op);
    ExecIs(env, s.(gasUsed := s.gasUsed + BaseCost(op)), op);
  }

  /** The turn puts a word on top of the stack for two gas. */
  predicate Tells(env: Env, s: State, word: int) {
    Gives(env, s, 2, s.stack, word % TWO_256)
  }

  /** What each opcode without operands tells about the context, the execution and itself. GAS
      tells what remains after its own price, MSIZE the memory in whole words. */
  lemma ContextWords(env: Env, s: State, op: byte)
    requires Stands(env, s, op, 2)
    ensures op == 0x30 ==> Tells(env, s, env.ctx.address)
    ensures op == 0x32 ==> Tells(env, s, env.ctx.origin)
    ensures op == 0x33 ==> Tells(env, s, env.ctx.caller)
    ensures op == 0x34 ==> Tells(env, s, env.ctx.value)
    ensures op == 0x36 ==> Tells(env, s, |env.ctx.calldata|)
    ensures op == 0x38 ==> Tells(env, s, |env.code|)
    ensures op == 0x3A ==> Tells(env, s, env.ctx.gasPrice)
    ensures op == 0x3D ==> Tells(env, s, |s.ret|)
    ensures op == 0x41 ==> Tells(env, s, env.ctx.coinbase)
    ensures op == 0x42 ==> Tells(env, s, env.ctx.timestamp)
    ensures op == 0x43 ==> Tells(env, s, env.ctx.blockNumber)
    ensures op == 0x44 ==> Tells(env, s, env.ctx.difficulty)
    ensures op == 0x45 ==> Tells(env, s, env.gasLimit)
    ensures op == 0x46 ==> Tells(env, s, env.ctx.chainId)
    ensures op == 0x48 ==> Tells(env, s, env.ctx.baseFee)
    ensures op == 0x4A ==> Tells(env, s, env.ctx.blobBaseFee)
    ensures op == 0x58 ==> Tells(env, s, s.pc)
    ensures op == 0x59 ==> Tells(env, s, |s.mem| + (-|s.mem|) % 32)
    ensures op == 0x5A ==> Tells(env, s, env.gasLimit - s.gasUsed - 2)
    ensures op == 0x5F ==> Tells(env, s, 0)
  {
    hide Step;
    if IsEnvWord(op) {
      StepEnvWord(env, s, op);
    }
  }

  /** The answer of a callback that is asked one number, or zero without a callback, in place
      of the operands above base. */
  predicate Asks(env: Env, s: State, price: nat, base: seq<nat>, callback: Option<(nat, nat) -> Answer<int>>,
                 arg: nat) {
    s.pc < |env.code|
    && Step(env, s) == match callback
      case None => Running(Moved(s, 1, price, base + [0]))
      case Some(f) =>
        match f(s.calls, arg)
        case Threw => Failed(s.(gasUsed := s.gasUsed + price, stack := base, calls := s.calls + 1), HostError)
        case Reply(v) => Running(Moved(s, 1, price, base + [Mask(v)]).(calls := s.calls + 1))
  }

  lemma StepQuery(env: Env, s: State, op: byte, base: seq<nat>, x: nat)
    requires IsQuery(op) && op != 0x47 && s.stack == base + [x] && Stands(env, s, op, BaseCost(op))
    ensures Step(env, s) == Leaves(ExecQuery(env, s.(gasUsed := s.gasUsed + BaseCost(op), stack := base), op, x))
  {
    hide Exec, ExecQuery, Step, Perform, Keeps, Wf, HostOk, EnvWord, BaseCost, Ask, Leaves;
    StepIs(env, s, op);
    var t := s.(gasUsed := s.gasUsed + BaseCost(op));
    ExecIs(env, t, op);
    assert Popped(t, 1) == t.(stack := base);
  }

  lemma AskLeaves(env: Env, s: State, price: nat, base: seq<nat>, callback: Option<(nat, nat) -> Answer<int>>,
                  arg: nat)
    requires s.pc < |env.code|
    requires Step(env, s) == Leaves(Ask(env, s.(gasUsed := s.gasUsed + price, stack := base), callback, arg))
    ensures Asks(env, s, price, base, callback, arg)
  {
    hide Step, Mask, Keeps, Wf, HostOk;
  }

  /** BALANCE, EXTCODESIZE and BLOCKHASH ask for the top word, the first two for its 160 low
      bits. */
  lemma QueriesTopWord(env: Env, s: State, op: byte, base: seq<nat>, x: nat)
    requires s.stack == base + [x]
    ensures Stands(env, s, 0x31, 400) ==> Asks(env, s, 400, base, env.host.balanceOf, x % TWO_160)
    ensures Stands(env, s, 0x3B, 700) ==> Asks(env, s, 700, base, env.host.codeSizeOf, x % TWO_160)
    ensures Stands(env, s, 0x40, 20) ==> Asks(env, s, 20, base, env.host.blockHashOf, x)
  {
    hide Step, Ask, Asks, AskCodeHash, Leaves, Keeps, Wf, HostOk;
    if Stands(env, s, 0x31, 400) {
      StepQuery(env, s, 0x31, base, x);
      AskLeaves(env, s, 400, base, env.host.balanceOf, x % TWO_160);
    } else if Stands(env, s, 0x3B, 700) {
      StepQuery(env, s, 0x3B, base, x);
      AskLeaves(env, s, 700, base, env.host.codeSizeOf, x % TWO_160);
    } else if Stands(env, s, 0x40, 20) {
      StepQuery(env, s, 0x40, base, x);
      AskLeaves(env, s, 20, base, env.host.blockHashOf, x);
    }
  }

  /** SELFBALANCE asks for the balance of the executing contract, if it has an address. */
  lemma AsksOwnBalance(env: Env, s: State)
    requires Stands(env, s, 0x47, 5)
    ensures env.ctx.hasAddress ==>
      Asks(env, s, 5, s.stack, env.host.balanceOf, env.ctx.address % TWO_256 % TWO_160)
    ensures !env.ctx.hasAddress ==> Gives(env, s, 5, s.stack, 0)
  {
    hide Step, Exec, Ask, Asks, Perform, Keeps, Wf, HostOk, BaseCost;
    PriceOf(0x47);
    StepIs(env, s, 0x47);
    ExecIs(env, s.(gasUsed := s.gasUsed + 5), 0x47);
    if env.ctx.hasAddress {
      AskLeaves(env, s, 5, s.stack, env.host.balanceOf, env.ctx.address % TWO_256 % TWO_160);
    }
  }

  /** BLOBHASH and CALLDATALOAD look the top word up, with zeros past the end. */
  lemma LooksUpTopWord(env: Env, s: State, op: byte, base: seq<nat>, x: nat)
    requires s.stack == base + [x] && Stands(env, s, op, 3)
    ensures op == 0x49 ==>
      Gives(env, s, 3, base, if x < |env.ctx.blobHashes| then env.ctx.blobHashes[x] % TWO_256 else 0)
    ensures op == 0x35 ==> Gives(env, s, 3, base, FromBytes(Window(env.ctx.calldata, x, 32)) % TWO_256)
  {
    hide FromBytes, Window, Slice, Step, AskCodeHash, Ask, Wf, HostOk, Keeps, BaseCost;
    PriceOf(op);
    if op == 0x49 || op == 0x35 {
      StepQuery(env, s, op, base, x);
      SliceIsWindow(env.ctx.calldata, x, 32);
    }
  }

  /** EXTCODEHASH asks for the size first, and for that many bytes of code from zero when it is
      positive; the digest of no code is zero. */
  lemma AsksCodeHash(env: Env, s: State, base: seq<nat>, x: nat)
    requires s.stack == base + [x] && Stands(env, s, 0x3F, 700)
    ensures env.host.codeSizeOf.None? || env.host.codeCopyOf.None? ==> Gives(env, s, 700, base, 0)
    ensures env.host.codeSizeOf.Some? && env.host.codeCopyOf.Some? ==>
      var who, sized := x % TWO_160, env.host.codeSizeOf.value(s.calls, x % TWO_160);
      var t := s.(gasUsed := s.gasUsed + 700, stack := base);
      Step(env, s) ==
        if sized.Threw? then Failed(t.(calls := s.calls + 1), HostError)
        else if sized.value <= 0 then Running(Moved(s, 1, 700, base + [0]).(calls := s.calls + 1))
        else match env.host.codeCopyOf.value(s.calls + 1, who, 0, sized.value)
          case Threw => Failed(t.(calls := s.calls + 2), HostError)
          case Reply(code) =>
            var word := if code == [] then 0 else env.keccak(code) % TWO_256;
            Running(Moved(s, 1, 700, base + [word]).(calls := s.calls + 2))
  {
    hide Step, Ask, Wf, HostOk, Keeps, BaseCost;
    PriceOf(0x3F);
    StepQuery(env, s, 0x3F, base, x);
  }

  // ------------------------------------------------------------------ memory

  lemma StepMemory(env: Env, s: State, op: byte)
    requires IsMemory(op) && Stands(env, s, op, BaseCost(op))
    ensures Step(env, s) == Leaves(ExecMemory(env, s.(gasUsed := s.gasUsed + BaseCost(op)), op))
  {
    hide Exec, ExecMemory, Step, Perform, BaseCost, Leaves, Keeps, Wf, HostOk;
    StepIs(env, s, op);
    ExecIs(env, s.(gasUsed := s.gasUsed + BaseCost(op)), op);
  }

  /** MLOAD of the offset on top: the word of the 32 bytes there. */
  lemma LoadsWord(env: Env, s: State, base: seq<nat>, x: nat)
    requires s.stack == base + [x] && Stands(env, s, 0x51, 3)
    ensures Step(env, s) == Running(Moved(s, 1, 3, base + [FromBytes(Window(s.mem, x, 32)) % TWO_256])
                                      .(mem := Grown(s.mem, x, 32)))
  {
    hide Step, FromBytes, Window, Grown, Slice, Extend, BaseCost, Keeps, Wf, HostOk, ExecExtCodeCopy, ExecMCopy,
      ExecCopy;
    PriceOf(0x51);
    StepMemory(env, s, 0x51);
    ExtendIsGrown(s.mem, x, 32);
    assert s.stack[..|s.stack| - 1] == base;
  }

  /** SHA3 of a window: the offset is on top, the size below it. */
  lemma HashesWindow(env: Env, s: State, base: seq<nat>, size: nat, offset: nat)
    requires s.stack == base + [size, offset] && Stands(env, s, 0x20, 30)
    ensures Step(env, s) == Running(Moved(s, 1, 30, base + [env.keccak(Window(s.mem, offset, size)) % TWO_256])
                                      .(mem := Grown(s.mem, offset, size)))
  {
    hide Step, Window, Grown, Slice, Extend, Keeps, Wf, HostOk, ExecExtCodeCopy, ExecMCopy, ExecCopy, BaseCost;
    PriceOf(0x20);
    StepMemory(env, s, 0x20);
    ExtendIsGrown(s.mem, offset, size);
    assert s.stack[..|s.stack| - 2] == base;
  }

  /** MSTORE and MSTORE8 of the value below the offset. */
  lemma WritesMemory(env: Env, s: State, base: seq<nat>, y: nat, x: nat)
    requires s.stack == base + [y, x]
    ensures Stands(env, s, 0x52, 3) ==>
      Step(env, s) == Running(Moved(s, 1, 3, base).(mem := Written(s.mem, x, ToBytes(y, 32))))
    ensures Stands(env, s, 0x53, 3) ==>
      Step(env, s) == Running(Moved(s, 1, 3, base).(mem := Written(s.mem, x, [(y % 256) as byte])))
  {
    hide Step, ToBytes, Written, Splice, Extend, BaseCost, Keeps, Wf, HostOk, ExecExtCodeCopy, ExecMCopy, ExecCopy;
    PriceOf(0x52);
    PriceOf(0x53);
    assert s.stack[..|s.stack| - 2] == base;
    if Stands(env, s, 0x52, 3) {
      StepMemory(env, s, 0x52);
      SpliceIsWritten(s.mem, x, ToBytes(y, 32));
    } else if Stands(env, s, 0x53, 3) {
      StepMemory(env, s, 0x53);
      SpliceIsWritten(s.mem, x, [(y % 256) as byte]);
    }
  }

  /** The copies of call data, code and return data: destination on top, then the offset in the
      source, then the size. */
  lemma CopiesWindow(env: Env, s: State, op: byte, base: seq<nat>, size: nat, offset: nat, dest: nat)
    requires (op == 0x37 || op == 0x39 || op == 0x3E) && Stands(env, s, op, 3)
    requires s.stack == base + [size, offset, dest]
    ensures var src := if op == 0x37 then env.ctx.calldata else if op == 0x39 then env.code else s.ret;
      Step(env, s) == Running(Moved(s, 1, 3, base).(mem := Written(s.mem, dest, Window(src, offset, size))))
  {
    hide Step, CopyIn, Window, Written, Wf, HostOk, Keeps, ExecExtCodeCopy, ExecMCopy, BaseCost;
    PriceOf(op);
    StepMemory(env, s, op);
    CopyInIsWritten(s.mem, dest, if op == 0x37 then env.ctx.calldata else if op == 0x39 then env.code else s.ret,
                    offset, size);
    assert s.stack[..|s.stack| - 3] == base;
  }

  /** EXTCODECOPY has its own order: the offset in the code on top, then the offset in memory,
      the size and the address. What the host hands back is copied from its start. */
  lemma CopiesForeignCode(env: Env, s: State, base: seq<nat>, who: nat, size: nat, dest: nat, offset: nat)
    requires Stands(env, s, 0x3C, 700) && s.stack == base + [who, size, dest, offset]
    ensures var t := Moved(s, 1, 700, base);
      Step(env, s) == match env.host.codeCopyOf
        case None => Running(t.(mem := Written(s.mem, dest, Window([], 0, size))))
        case Some(f) =>
          match f(s.calls, who % TWO_160, offset, size)
          case Threw => Failed(s.(gasUsed := s.gasUsed + 700, stack := base, calls := s.calls + 1), HostError)
          case Reply(chunk) =>
            Running(t.(calls := s.calls + 1, mem := Written(s.mem, dest, Window(chunk, 0, size))))
  {
    hide Step, CopyIn, Window, Written, Wf, HostOk, Keeps, ExecCopy, ExecMCopy, BaseCost;
    PriceOf(0x3C);
    StepMemory(env, s, 0x3C);
    forall chunk ensures CopyIn(s.mem, dest, chunk, 0, size) == Written(s.mem, dest, Window(chunk, 0, size)) {
      CopyInIsWritten(s.mem, dest, chunk, 0, size);
    }
    assert s.stack[..|s.stack| - 4] == base;
  }

  /** MCOPY: the size is on top, then the source, then the destination; the bytes are those
      the source held before, zeros past its end, and both windows exist afterwards. */
  lemma CopiesWithin(env: Env, s: State, base: seq<nat>, dest: nat, src: nat, size: nat)
    requires Stands(env, s, 0x5E, 3) && s.stack == base + [dest, src, size]
    ensures var price := 6 + (size + 31) / 32 * 3;
      Step(env, s) == if s.gasUsed + price > env.gasLimit
        then Failed(s.(gasUsed := s.gasUsed + 3, stack := base), OutOfGas)
        else Running(Moved(s, 1, price, base)
                       .(mem := Written(Grown(Grown(s.mem, dest, size), src, size), dest,
                                        Window(s.mem, src, size))))
  {
    hide Step, CopyWithin, Window, Grown, Written, Keeps, Wf, HostOk, ExecExtCodeCopy, ExecCopy, GasCost;
    PriceOfMCopy();
    StepMemory(env, s, 0x5E);
    CopyWithinIsWritten(s.mem, dest, src, size);
    assert s.stack[..|s.stack| - 3] == base;
  }

  lemma CopyWithinIsWritten(m: seq<byte>, dest: nat, src: nat, size: nat)
    ensures CopyWithin(m, dest, src, size)
         == Written(Grown(Grown(m, dest, size), src, size), dest, Window(m, src, size))
  {
    hide CopyIn, Written;
    var g := Extend(Extend(m, dest, size), src, size);
    ExtendIsGrown(m, dest, size);
    ExtendIsGrown(Extend(m, dest, size), src, size);
    assert g[src..src + size] == Window(m, src, size);
    assert Window(g[src..src + size], 0, size) == Window(m, src, size);
    CopyInIsWritten(g, dest, g[src..src + size], 0, size);
  }

  // ------------------------------------------------------------------ logs

  /** LOG0-LOG4: the topics are the top words, in the order they were pushed, below them the size
      and the offset of the data. The price is 375 for the log, 375 for a topic and one for a
      byte, and a refusal by the host leaves no entry. */
  lemma Logs(env: Env, s: State, op: byte, base: seq<nat>, offset: nat, size: nat, topics: seq<nat>)
    requires 0xA0 <= op <= 0xA4 && |topics| == op as nat - 0xA0 && Stands(env, s, op, 0)
    requires s.stack == base + [offset, size] + topics
    ensures var price, data := 375 + 375 * |topics| + size, Window(s.mem, offset, size);
      var t := s.(gasUsed := s.gasUsed + price, stack := base, mem := Grown(s.mem, offset, size));
      var logged := t.(pc := s.pc + 1, logs := s.logs + [LogEntry(topics, data)]);
      Step(env, s) ==
        if s.gasUsed + price > env.gasLimit then Failed(s.(stack := base), OutOfGas)
        else match env.host.emitLog
          case None => Running(logged)
          case Some(f) =>
            if f(s.calls, topics, data).Reply? then Running(logged.(calls := s.calls + 1))
            else Failed(t.(calls := s.calls + 1), HostError)
  {
    hide Step, Perform, Exec, Window, Grown, Slice, Extend, Keeps, Wf, HostOk, BaseCost;
    PriceOf(op);
    StepIs(env, s, op);
    assert s.(gasUsed := s.gasUsed + 0) == s;
    ExecIs(env, s, op);
    ExtendIsGrown(s.mem, offset, size);
    assert s.stack[|s.stack| - |topics|..] == topics && s.stack[..|s.stack| - |topics| - 2] == base;
  }

  // ------------------------------------------------------------------ calls

  /** 63/64 of what remains, no more than was asked for unless that is zero, and 2300 more for a
      call that sends value, within what remains. */
  function Allowance(remaining: nat, requested: nat, value: nat): nat {
    var share := remaining * 63 / 64;
    var capped := if 0 < requested < share then requested else share;
    if value == 0 then capped else if capped + 2300 < remaining then capped + 2300 else remaining
  }

  /** The words of a call: what remains of the stack, the return window, the argument window,
      the value if the kind sends one, the address and the gas on top. */
  datatype Operands = Operands(
    base: seq<nat>, retSize: nat, retOffset: nat, argsSize: nat, argsOffset: nat, value: nat, to: nat, gas: nat)

  predicate OnStack(s: State, op: byte, o: Operands) {
    && s.stack == o.base + [o.retSize, o.retOffset, o.argsSize, o.argsOffset]
                  + (if op == 0xF1 || op == 0xF2 then [o.value] else []) + [o.to, o.gas]
    && (op == 0xF4 || op == 0xFA ==> o.value == 0)
  }

  /** What the host is asked: the address cut to 160 bits, the argument window, the value, the
      allowance and the kind. */
  function Request(env: Env, s: State, op: byte, o: Operands): CallRequest
    requires s.gasUsed + 700 <= env.gasLimit
  {
    var kind := if op == 0xF1 then Call else if op == 0xF2 then CallCode else if op == 0xF4 then DelegateCall
                else StaticCall;
    CallRequest(o.to % TWO_160, Window(s.mem, o.argsOffset, o.argsSize), o.value,
                Allowance(env.gasLimit - s.gasUsed - 700, o.gas, o.value), kind)
  }

  lemma OperandsOnStack(s: State, op: byte, o: Operands)
    requires IsCall(op) && OnStack(s, op, o)
    ensures |s.stack| >= CallArity(op) && Popped(s, CallArity(op)).stack == o.base
    ensures CallArgsOf(s, op)
         == CallArgs(KindOf(op), o.gas, o.to, o.value, o.argsOffset, o.argsSize, o.retOffset, o.retSize)
  {
    assert s.stack[..|s.stack| - CallArity(op)] == o.base;
  }

  lemma StepCall(env: Env, s: State, op: byte, o: Operands)
    requires IsCall(op) && Stands(env, s, op, 700) && OnStack(s, op, o)
    ensures Step(env, s) == Leaves(ExecuteCall(env, s.(gasUsed := s.gasUsed + 700, stack := o.base),
      CallArgs(KindOf(op), o.gas, o.to, o.value, o.argsOffset, o.argsSize, o.retOffset, o.retSize)))
  {
    hide Step, Perform, Exec, ExecuteCall, CallArgsOf, KindOf, OnStack, Leaves, Keeps, Wf, HostOk, BaseCost;
    PriceOf(op);
    StepIs(env, s, op);
    ExecIs(env, s.(gasUsed := s.gasUsed + 700), op);
    OperandsOnStack(s.(gasUsed := s.gasUsed + 700), op, o) by { OnStackIgnoresGas(s, op, o); }
  }

  lemma OnStackIgnoresGas(s: State, op: byte, o: Operands)
    requires OnStack(s, op, o)
    ensures OnStack(s.(gasUsed := s.gasUsed + 700), op, o)
  {
  }

  /** Without a callback a call fails: 0 is pushed and the return data is empty. */
  lemma CallWithoutHost(env: Env, s: State, op: byte, o: Operands)
    requires IsCall(op) && Stands(env, s, op, 700) && OnStack(s, op, o) && env.host.contractCall.None?
    ensures Step(env, s) == Running(Moved(s, 1, 700, o.base + [0]).(ret := []))
  {
    hide Step, OnStack, KindOf, Keeps, Wf, HostOk;
    StepCall(env, s, op, o);
  }

  lemma AllowanceIsCallGas(remaining: nat, s: State, op: byte, o: Operands)
    requires IsCall(op) && OnStack(s, op, o)
    ensures CallGas(remaining, o.gas, o.value, KindOf(op)) == Allowance(remaining, o.gas, o.value)
  {
  }

  /** What of the callee's gas is paid. */
  function Cost(used: int, allowance: nat): nat {
    if used <= 0 then 0 else if used < allowance then used else allowance
  }

  lemma FinishIs(env: Env, s: State, op: byte, o: Operands, gas: nat, out: CallReply)
    requires IsCall(op) && s.gasUsed + gas <= env.gasLimit
    ensures var a := CallArgs(KindOf(op), o.gas, o.to, o.value, o.argsOffset, o.argsSize, o.retOffset, o.retSize);
      FinishCall(env, s, a, gas, out)
      == (s.(gasUsed := s.gasUsed + Cost(out.gasUsed, gas),
             stack := s.stack + [if out.success && !out.reverted then 1 else 0], ret := out.returnData,
             mem := Written(s.mem, o.retOffset, Window(out.returnData, 0, o.retSize)),
             storage := if (op == 0xF2 || op == 0xF4) && out.storage.Some? then out.storage.value else s.storage),
          FallThrough)
  {
    hide Window, Written, CopyIn, Slice, Extend, Keeps, Wf, WfStore, HostOk;
    CopyInIsWritten(s.mem, o.retOffset, out.returnData, 0, o.retSize);
  }

  /** What a call leaves after the callback answered: the callee's gas up to the allowance is
      paid, 1 is pushed if it succeeded and did not revert and 0 otherwise, its data is the
      return data and fills the return window, zero-padded, and only CALLCODE and DELEGATECALL
      take over the storage it hands back. */
  lemma CallLeaves(env: Env, s: State, op: byte, o: Operands)
    requires IsCall(op) && Stands(env, s, op, 700) && OnStack(s, op, o) && env.host.contractCall.Some?
    ensures var request := Request(env, s, op, o);
      var grown := Grown(s.mem, o.argsOffset, o.argsSize);
      Step(env, s) == match env.host.contractCall.value(s.calls, request)
        case Threw =>
          Failed(s.(gasUsed := s.gasUsed + 700, stack := o.base, mem := grown, calls := s.calls + 1), HostError)
        case Reply(out) =>
          Running(Moved(s, 1, 700 + Cost(out.gasUsed, request.gas),
                        o.base + [if out.success && !out.reverted then 1 else 0])
                    .(calls := s.calls + 1, ret := out.returnData,
                    mem := Written(grown, o.retOffset, Window(out.returnData, 0, o.retSize)),
                    storage := if (op == 0xF2 || op == 0xF4) && out.storage.Some? then out.storage.value
                               else s.storage))
  {
    hide Step, OnStack, CallGas, Allowance, Window, Grown, Written, FinishCall, Slice, Extend, Keeps, Wf, WfStore,
      HostOk, Cost;
    StepCall(env, s, op, o);
    var remaining := env.gasLimit - s.gasUsed - 700;
    AllowanceIsCallGas(remaining, s, op, o);
    ExtendIsGrown(s.mem, o.argsOffset, o.argsSize);
    var request := Request(env, s, op, o);
    var t := s.(gasUsed := s.gasUsed + 700, stack := o.base, mem := Grown(s.mem, o.argsOffset, o.argsSize),
                calls := s.calls + 1);
    match env.host.contractCall.value(s.calls, request)
    case Threw =>
    case Reply(out) => FinishIs(env, t, op, o, request.gas, out);
  }

  // ------------------------------------------------------------------ creations

  lemma StepCreate(env: Env, s: State, op: byte, base: seq<nat>, value: nat, offset: nat, size: nat,
                   salt: seq<nat>)
    requires IsCreate(op) && Stands(env, s, op, 32000) && |salt| == (if op == 0xF5 then 1 else 0)
    requires s.stack == base + [value, offset, size] + salt
    ensures Step(env, s) == Leaves(ExecuteCreate(env, s.(gasUsed := s.gasUsed + 32000, stack := base),
      value, offset, size, if op == 0xF5 then Some(salt[0]) else None))
  {
    hide Step, Perform, Exec, ExecuteCreate, Leaves, Keeps, Wf, HostOk, BaseCost;
    PriceOf(op);
    StepIs(env, s, op);
    ExecIs(env, s.(gasUsed := s.gasUsed + 32000), op);
    assert s.stack[..|s.stack| - 3 - |salt|] == base;
  }

  /** CREATE and CREATE2: the init code is the window whose size is above its offset, the value is
      below them and the salt of CREATE2 on top. The gas the host reports is charged without a
      cap; the address is pushed, or 0 when the creation failed or reverted. */
  lemma CreateLeaves(env: Env, s: State, op: byte, base: seq<nat>, value: nat, offset: nat, size: nat,
                     salt: seq<nat>)
    requires IsCreate(op) && Stands(env, s, op, 32000) && |salt| == (if op == 0xF5 then 1 else 0)
    requires s.stack == base + [value, offset, size] + salt
    ensures env.host.contractCreate.None? ==> Step(env, s) == Running(Moved(s, 1, 32000, base + [0]))
    ensures env.host.contractCreate.Some? ==>
      var init, grown := Window(s.mem, offset, size), Grown(s.mem, offset, size);
      Step(env, s) ==
        match env.host.contractCreate.value(s.calls, init, value, if op == 0xF5 then Some(salt[0]) else None)
        case Threw =>
          Failed(s.(gasUsed := s.gasUsed + 32000, stack := base, mem := grown, calls := s.calls + 1), HostError)
        case Reply(out) =>
          var used := s.gasUsed + 32000 + (if out.gasUsed <= 0 then 0 else out.gasUsed);
          var t := s.(gasUsed := used, mem := grown, calls := s.calls + 1, stack := base);
          if used > env.gasLimit then Failed(t, OutOfGas)
          else
            var word := if out.success && !out.reverted then out.address % TWO_256 else 0;
            Running(t.(pc := s.pc + 1, stack := base + [word]))
  {
    hide Step, Window, Grown, Slice, Extend, Keeps, Wf, HostOk;
    StepCreate(env, s, op, base, value, offset, size, salt);
    ExtendIsGrown(s.mem, offset, size);
  }

  // ------------------------------------------------------------------ storage

  /** SLOAD and TLOAD put the word under the key on top, zero if there is none. */
  lemma LoadsKey(env: Env, s: State, op: byte, base: seq<nat>, key: nat)
    requires (op == 0x54 || op == 0x5C) && s.stack == base + [key]
    ensures var m := if op == 0x54 then s.storage else s.transient;
      var price := if op == 0x54 then 200 else 100;
      Stands(env, s, op, price) ==> Gives(env, s, price, base, (if key in m then m[key] else 0) % TWO_256)
  {
    hide Step, Keeps, Wf, HostOk;
    assert s.stack[..|s.stack| - 1] == base;
    if Stands(env, s, op, if op == 0x54 then 200 else 100) {
      StepStorage(env, s);
    }
  }

  /** SSTORE and TSTORE keep the word below the key under it, and a zero by removing the entry. */
  lemma StoresKey(env: Env, s: State, op: byte, base: seq<nat>, value: nat, key: nat)
    requires (op == 0x55 || op == 0x5D) && s.stack == base + [value, key]
    ensures Stands(env, s, op, 5000) && op == 0x55 ==>
      Step(env, s) == Running(Moved(s, 1, 5000, base)
                                .(storage := if value == 0 then s.storage - {key} else s.storage[key := value]))
    ensures Stands(env, s, op, 100) && op == 0x5D ==>
      Step(env, s) == Running(Moved(s, 1, 100, base)
                                .(transient := if value == 0 then s.transient - {key} else s.transient[key := value]))
  {
    hide Step, Keeps, Wf, HostOk;
    assert s.stack[..|s.stack| - 2] == base;
    if Stands(env, s, op, if op == 0x55 then 5000 else 100) {
      StepStorage(env, s);
    }
  }

  // ------------------------------------------------------------------ too few words

  /** How many words an instruction takes from the stack or reaches into. */
  function Needs(op: byte): nat {
    match op
    case 0x15 => 1 case 0x19 => 1 case 0x31 => 1 case 0x35 => 1 case 0x3B => 1 case 0x3F => 1 case 0x40 => 1
    case 0x49 => 1 case 0x50 => 1 case 0x51 => 1 case 0x54 => 1 case 0x56 => 1 case 0x5C => 1 case 0xFF => 1
    case 0x20 => 2 case 0x52 => 2 case 0x53 => 2 case 0x55 => 2 case 0x57 => 2 case 0x5D => 2 case 0xF3 => 2
    case 0xFD => 2
    case 0x08 => 3 case 0x09 => 3 case 0x37 => 3 case 0x39 => 3 case 0x3E => 3 case 0x5E => 3 case 0xF0 => 3
    case 0x3C => 4 case 0xF5 => 4
    case 0xF4 => 6 case 0xFA => 6 case 0xF1 => 7 case 0xF2 => 7
    case _ =>
      if 0x01 <= op <= 0x0B || 0x10 <= op <= 0x1D then 2
      else if 0x80 <= op <= 0x8F then op as nat - 0x7F
      else if 0x90 <= op <= 0x9F then op as nat - 0x8E
      else if 0xA0 <= op <= 0xA4 then op as nat - 0x9E
      else 0
  }

  predicate Short(r: (State, Flow)) {
    r.1 == Raised(StackUnderflow)
  }

  /** A short body popped what there was; DUP and SWAP look before they touch the stack. */
  predicate ShortOf(s: State, op: byte, r: (State, Flow)) {
    && (Short(r) <==> |s.stack| < Needs(op))
    && (Short(r) ==> r.0 == s.(stack := if 0x80 <= op <= 0x9F then s.stack else []))
  }

  predicate Supported(op: byte) {
    || op <= 0x0B || 0x10 <= op <= 0x1D || op == 0x20 || 0x30 <= op <= 0x4A || 0x50 <= op <= 0xA4
    || 0xF0 <= op <= 0xF5 || op == 0xFA || op >= 0xFD
  }

  lemma SupportedGroups(op: byte)
    ensures IsAlu1(op) || IsAlu2(op) || IsAlu3(op) || IsStackOp(op) || IsEnvWord(op) || IsQuery(op) || IsMemory(op)
         || IsStorage(op) || IsControl(op) || IsLog(op) || IsCall(op) || IsCreate(op) || op == 0 || 0x60 <= op <= 0x7F
         <==> Supported(op)
  {
  }

  /** Every other byte raises when its price, that of an unnamed opcode, is there. */
  lemma UnsupportedRaises(env: Env, s: State, op: byte)
    requires !Supported(op) && Stands(env, s, op, 3)
    ensures Step(env, s) == Failed(s.(gasUsed := s.gasUsed + 3), UnsupportedOpcode)
  {
    hide ExecAlu, ExecStack, ExecEnv, ExecMemory, ExecStorage, ExecControl, ExecLog, ExecCall, ExecCreate, Keeps,
      Wf, HostOk, ExecPush, Step, Perform;
    SupportedGroups(op);
    StepIs(env, s, op);
  }

  lemma ShortArithmetic(env: Env, s: State, op: byte)
    ensures IsAlu1(op) || IsAlu2(op) || IsAlu3(op) ==> ShortOf(s, op, ExecAlu(env, s, op))
    ensures IsStackOp(op) ==> ShortOf(s, op, ExecStack(env, s, op))
  {
    hide Alu1, Alu2, Alu3, Keeps, Wf, HostOk, Mask;
  }

  lemma ShortQuery(env: Env, s: State, op: byte)
    requires IsEnvWord(op) || IsQuery(op)
    ensures ShortOf(s, op, ExecEnv(env, s, op))
  {
    hide EnvWord, Keeps, Wf, HostOk, Mask, ReadWord;
  }

  lemma ShortMemory(env: Env, s: State, op: byte)
    requires IsMemory(op)
    ensures ShortOf(s, op, ExecMemory(env, s, op))
  {
    hide Keeps, Wf, HostOk, Mask, ReadWord, WriteWord, WriteByte, CopyIn, CopyWithin, Extend, Slice, GasCost;
  }

  lemma ShortControl(env: Env, s: State, op: byte)
    ensures IsStorage(op) ==> ShortOf(s, op, ExecStorage(env, s, op))
    ensures IsControl(op) ==> ShortOf(s, op, ExecControl(env, s, op))
  {
    hide Keeps, Wf, HostOk, Mask, Load, Store, Extend, Slice, ValidDest;
  }

  lemma ShortHost(env: Env, s: State, op: byte)
    ensures IsLog(op) ==> ShortOf(s, op, ExecLog(env, s, op))
    ensures IsCall(op) ==> ShortOf(s, op, ExecCall(env, s, op))
    ensures IsCreate(op) ==> ShortOf(s, op, ExecCreate(env, s, op))
  {
    hide Keeps, Wf, HostOk, Mask, Extend, Slice, CopyIn, CallGas, ReturnFromCall, CallArgsOf;
  }

  lemma ShortBody(env: Env, t: State, op: byte)
    requires op != 0x00 && !(0x60 <= op <= 0x7F)
    ensures ShortOf(t, op, Exec(env, t, op))
  {
    hide ExecAlu, ExecStack, ExecEnv, ExecMemory, ExecStorage, ExecControl, ExecLog, ExecCall, ExecCreate, Needs,
      Keeps, Wf, HostOk;
    ShortArithmetic(env, t, op);
    ShortControl(env, t, op);
    ShortHost(env, t, op);
    if IsEnvWord(op) || IsQuery(op) {
      ShortQuery(env, t, op);
    } else if IsMemory(op) {
      ShortMemory(env, t, op);
    }
    OthersNeedNothing(op);
    SupportedGroups(op);
  }

  lemma OthersNeedNothing(op: byte)
    ensures op == 0x00 || 0x60 <= op <= 0x7F || !Supported(op) ==> Needs(op) == 0
  {
  }

  /** A turn whose price is there raises a stack underflow exactly when the stack holds fewer
      words than the instruction needs. What there was is popped, but by DUP and SWAP. */
  lemma UnderflowExactly(env: Env, s: State)
    requires s.pc < |env.code| && Affordable(env, s)
    ensures var op, o := env.code[s.pc], Step(env, s);
      && (o.Failed? && o.error == StackUnderflow <==> |s.stack| < Needs(op))
      && (|s.stack| < Needs(op) ==>
            o.s == s.(gasUsed := s.gasUsed + BaseCost(op), stack := if 0x80 <= op <= 0x9F then s.stack else []))
  {
    hide Exec, Needs, BaseCost, Keeps, Wf, HostOk, ExecPush;
    var op := env.code[s.pc];
    OthersNeedNothing(op);
    if op != 0x00 && !(0x60 <= op <= 0x7F) {
      ShortBody(env, s.(gasUsed := s.gasUsed + BaseCost(op)), op);
    }
  }
}

/** The interpreter in its own form: an object whose fields each instruction
    updates in place (evm_interpreter.py, lines 55-719). Every method is proved to
    do exactly what the functions of Evm.dfy, EvmRuns.dfy and Hybrid.dfy say. */
module Interpreter {
  import opened Wrappers
  import opened Words
  import opened Alu
  import opened Memory
  import opened Jumpdest
  import opened Evm
  import opened EvmRuns
  import opened Hybrid

  /** A value, or the exception that left the method early. */
  datatype Fallible<+T> = Ok(value: T) | Raise(error: Error) {
    predicate IsFailure() { Raise? }

    function PropagateFailure<U>(): Fallible<U>
      requires Raise?
    {
      Raise(error)
    }

    function Extract(): T
      requires Ok?
    {
      value
    }
  }

  lemma ExpCase(a: nat, b: nat)
    ensures Alu2(0x0A, a, b) == ExpSpec(b, a)
  {
  }

  /** A Python dict of storage slots: an object, so that rebinding the field and
      changing the contents are different things. */
  class StorageDict {
    var m: map<int, int>

    constructor (m: map<int, int>)
      ensures this.m == m
    {
      this.m := m;
    }
  }

  /** A method that leaves the fields as `post` did what `spec` says. */
  predicate Agrees(r: Fallible<Flow>, post: State, spec: (State, Flow)) {
    post == spec.0 && (match r case Ok(flow) => flow == spec.1 && !flow.Raised? case Raise(e) => spec.1 == Raised(e))
  }

  /** The packed table answers for the code. */
  predicate TableFor(table: seq<bv8>, code: seq<byte>) {
    |table| == (|code| + 7) / 8
    && forall d: nat | d < |code| :: IsJumpdest(table, d, |code|) <==> ValidDest(code, d)
  }

  class EVM {
    const gasLimit: int
    const ctx: Ctx
    const host: Host
    const keccak: seq<byte> -> nat

    var bytecode: seq<byte>
    var pc: nat
    var stack: seq<nat>
    var memory: seq<byte>
    var storage: StorageDict
    var transientStorage: map<int, int>
    var gasUsed: nat
    var running: bool
    var reverted: bool
    var returnData: seq<byte>
    var trace: seq<TraceEntry>
    var logs: seq<LogEntry>
    /** Callbacks made so far. */
    var calls: nat

    constructor (gasLimit: int, ctx: Ctx, host: Host, keccak: seq<byte> -> nat)
      ensures fresh(storage) && storage.m == map[] && memory == [] && transientStorage == map[]
      ensures this.gasLimit == gasLimit && this.ctx == ctx && this.host == host && this.keccak == keccak
    {
      this.gasLimit, this.ctx, this.host, this.keccak := gasLimit, ctx, host, keccak;
      bytecode, pc, stack, memory := [], 0, [], [];
      storage := new StorageDict(map[]);
      transientStorage, gasUsed, running, reverted := map[], 0, true, false;
      returnData, trace, logs, calls := [], [], [], 0;
    }

    function EnvOf(): Env
      reads this`bytecode
    {
      Env(bytecode, gasLimit, ctx, host, keccak)
    }

    /** The fields as a value. */
    function Snap(): State
      reads this, storage
    {
      State(pc, stack, memory, storage.m, transientStorage, gasUsed, running, reverted, returnData, logs, calls)
    }

    method ConsumeGas(cost: nat) returns (r: Fallible<()>)
      modifies this`gasUsed
      ensures old(gasUsed) + cost > gasLimit ==> r == Raise(OutOfGas) && gasUsed == old(gasUsed)
      ensures old(gasUsed) + cost <= gasLimit ==> r == Ok(()) && gasUsed == old(gasUsed) + cost
    {
      if gasUsed + cost > gasLimit {
        return Raise(OutOfGas);
      }
      gasUsed := gasUsed + cost;
      return Ok(());
    }

    method Push(value: int)
      modifies this`stack
      ensures stack == old(stack) + [Mask(value)]
    {
      stack := stack + [Mask(value)];
    }

    method Pop() returns (r: Fallible<nat>)
      modifies this`stack
      ensures old(stack) == [] ==> r == Raise(StackUnderflow) && stack == []
      ensures old(stack) != [] ==>
        r == Ok(old(stack)[|old(stack)| - 1]) && stack == old(stack)[..|old(stack)| - 1]
    {
      if stack == [] {
        return Raise(StackUnderflow);
      }
      var v := stack[|stack| - 1];
      stack := stack[..|stack| - 1];
      return Ok(v);
    }

    /** `a, b = self._pop(), self._pop()` */
    method Pop2() returns (r: Fallible<nat>, b: nat)
      modifies this`stack
      ensures |old(stack)| < 2 ==> r == Raise(StackUnderflow) && stack == []
      ensures |old(stack)| >= 2 ==>
        && r == Ok(old(stack)[|old(stack)| - 1]) && b == old(stack)[|old(stack)| - 2]
        && stack == old(stack)[..|old(stack)| - 2]
    {
      b := 0;
      var a :- Pop();
      b :- Pop();
      return Ok(a), b;
    }

    method Pop3() returns (r: Fallible<nat>, b: nat, c: nat)
      modifies this`stack
      ensures |old(stack)| < 3 ==> r == Raise(StackUnderflow) && stack == []
      ensures |old(stack)| >= 3 ==>
        && r == Ok(old(stack)[|old(stack)| - 1])
        && b == old(stack)[|old(stack)| - 2] && c == old(stack)[|old(stack)| - 3]
        && stack == old(stack)[..|old(stack)| - 3]
    {
      b, c := 0, 0;
      var a;
      a, b :- Pop2();
      c :- Pop();
      return Ok(a), b, c;
    }

    method MemExtend(offset: nat, size: nat)
      modifies this`memory
      ensures memory == Extend(old(memory), offset, size)
    {
      var need := offset + size;
      if need > |memory| {
        memory := memory + Zeros(need - |memory|);
      }
    }

    // ------------------------------------------------------ instruction groups

    method DoAlu(op: byte) returns (r: Fallible<Flow>)
      requires IsAlu1(op) || IsAlu2(op) || IsAlu3(op)
      modifies this`stack
      ensures Agrees(r, Snap(), ExecAlu(EnvOf(), old(Snap()), op))
    {
      hide ExecAlu;
      if IsAlu1(op) {
        r := DoUnary(op);
      } else if IsAlu2(op) {
        r := DoBinary(op);
      } else {
        r := DoTernary(op);
      }
    }

    method DoUnary(op: byte) returns (r: Fallible<Flow>)
      requires IsAlu1(op)
      modifies this`stack
      ensures Agrees(r, Snap(), ExecAlu(EnvOf(), old(Snap()), op))
    {
      hide Alu1, Alu2, Alu3, Mask, Keeps, Wf, WfStore, HostOk;
      var a :- Pop();
      Push(Alu1(op, a));
      return Ok(FallThrough);
    }

    method DoBinary(op: byte) returns (r: Fallible<Flow>)
      requires !IsAlu1(op) && IsAlu2(op)
      modifies this`stack
      ensures Agrees(r, Snap(), ExecAlu(EnvOf(), old(Snap()), op))
    {
      hide Alu1, Alu2, Alu3, IsAlu1, IsAlu2, IsAlu3, Mask, Keeps, Wf, WfStore, HostOk;
      var a, b :- Pop2();
      var v := Binary(op, a, b);
      Push(v);
      return Ok(FallThrough);
    }

    method DoTernary(op: byte) returns (r: Fallible<Flow>)
      requires !IsAlu1(op) && !IsAlu2(op) && IsAlu3(op)
      modifies this`stack
      ensures Agrees(r, Snap(), ExecAlu(EnvOf(), old(Snap()), op))
    {
      hide Alu1, Alu2, Alu3, IsAlu1, IsAlu2, IsAlu3, Mask, Keeps, Wf, WfStore, HostOk;
      var a, b, c :- Pop3();
      Push(Alu3(op, a, b, c));
      return Ok(FallThrough);
    }

    method Binary(op: byte, a: nat, b: nat) returns (v: int)
      requires IsAlu2(op)
      ensures v == Alu2(op, a, b)
    {
      hide Alu2;
      if op == 0x0A {
        v := Exp(b, a);
        ExpCase(a, b);
      } else {
        v := Alu2(op, a, b);
      }
    }

    /** native.evm_stack_dup and evm_stack_swap work on the list itself. */
    method DoStack(op: byte) returns (r: Fallible<Flow>)
      requires IsStackOp(op)
      modifies this`stack
      ensures Agrees(r, Snap(), ExecStack(EnvOf(), old(Snap()), op))
    {
      if op == 0x50 {
        var _ :- Pop();
        return Ok(FallThrough);
      } else if op <= 0x8F {
        var depth := op as nat - 0x7F;
        if depth > |stack| {
          return Raise(StackUnderflow);
        }
        stack := stack + [stack[|stack| - depth]];
        return Ok(FallThrough);
      } else {
        var depth := op as nat - 0x8F;
        if depth >= |stack| {
          return Raise(StackUnderflow);
        }
        var top := |stack| - 1;
        stack := stack[top := stack[top - depth]][top - depth := stack[top]];
        return Ok(FallThrough);
      }
    }

    /** A callback of one argument, if there is one; its answer is pushed. */
    method PushAnswer(callback: Option<(nat, nat) -> Answer<int>>, arg: nat) returns (r: Fallible<Flow>)
      modifies this`stack, this`calls
      ensures Agrees(r, Snap(), Ask(EnvOf(), old(Snap()), callback, arg))
    {
      var v := 0;
      if callback.Some? {
        var answer := callback.value(calls, arg);
        calls := calls + 1;
        if answer.Threw? {
          return Raise(HostError);
        }
        v := answer.value;
      }
      Push(v);
      return Ok(FallThrough);
    }

    method PushCodeHash(addr: nat) returns (r: Fallible<Flow>)
      modifies this`stack, this`calls
      ensures Agrees(r, Snap(), AskCodeHash(EnvOf(), old(Snap()), addr))
    {
      hide Keeps, Wf, WfStore, HostOk;
      var codeHash := 0;
      if host.codeSizeOf.Some? && host.codeCopyOf.Some? {
        var size := host.codeSizeOf.value(calls, addr);
        calls := calls + 1;
        if size.Threw? {
          return Raise(HostError);
        }
        if size.value > 0 {
          var code := host.codeCopyOf.value(calls, addr, 0, size.value);
          calls := calls + 1;
          if code.Threw? {
            return Raise(HostError);
          }
          if code.value != [] {
            codeHash := keccak(code.value);
          }
        }
      }
      Push(codeHash);
      return Ok(FallThrough);
    }

    method DoEnv(op: byte) returns (r: Fallible<Flow>)
      requires IsEnvWord(op) || IsQuery(op)
      modifies this`stack, this`calls
      ensures Agrees(r, Snap(), ExecEnv(EnvOf(), old(Snap()), op))
    {
      hide EnvWord, Ask, AskCodeHash, ReadWord;
      if IsEnvWord(op) {
        Push(EnvWord(EnvOf(), Snap(), op));
        return Ok(FallThrough);
      }
      if op == 0x47 {
        if ctx.hasAddress {
          r := PushAnswer(host.balanceOf, Address(Mask(ctx.address)));
        } else {
          Push(0);
          r := Ok(FallThrough);
        }
        return;
      }
      var a :- Pop();
      match op {
        case 0x31 => r := PushAnswer(host.balanceOf, Address(a));
        case 0x35 => Push(ReadWord(ctx.calldata, a)); r := Ok(FallThrough);
        case 0x3B => r := PushAnswer(host.codeSizeOf, Address(a));
        case 0x3F => r := PushCodeHash(Address(a));
        case 0x40 => r := PushAnswer(host.blockHashOf, a);
        case _ =>
          Push(if a < |ctx.blobHashes| then ctx.blobHashes[a] else 0);
          r := Ok(FallThrough);
      }
    }

    method DoCopy(op: byte) returns (r: Fallible<Flow>)
      requires op == 0x37 || op == 0x39 || op == 0x3E
      modifies this`stack, this`memory
      ensures Agrees(r, Snap(), ExecCopy(EnvOf(), old(Snap()), op))
    {
      hide CopyIn;
      var dest, offset, size :- Pop3();
      var src := if op == 0x37 then ctx.calldata else if op == 0x39 then bytecode else returnData;
      memory := CopyIn(memory, dest, src, offset, size);
      return Ok(FallThrough);
    }

    /** code_copy_of, or nothing when the callback is absent. */
    method FetchCode(addr: nat, offset: nat, size: nat) returns (r: Fallible<seq<byte>>)
      modifies this`calls
      ensures host.codeCopyOf.None? ==> r == Ok([]) && calls == old(calls)
      ensures host.codeCopyOf.Some? ==>
        && calls == old(calls) + 1
        && r == match host.codeCopyOf.value(old(calls), addr, offset, size)
                case Threw => Raise(HostError)
                case Reply(chunk) => Ok(chunk)
    {
      if host.codeCopyOf.None? {
        return Ok([]);
      }
      var answer := host.codeCopyOf.value(calls, addr, offset, size);
      calls := calls + 1;
      if answer.Threw? {
        return Raise(HostError);
      }
      return Ok(answer.value);
    }

    method DoExtCodeCopy() returns (r: Fallible<Flow>)
      modifies this`stack, this`memory, this`calls
      ensures Agrees(r, Snap(), ExecExtCodeCopy(EnvOf(), old(Snap())))
    {
      hide CopyExtCode, Keeps, Wf, WfStore, HostOk;
      var codeOffset, memOffset, size :- Pop3();
      var who :- Pop();
      assert Snap() == Popped(old(Snap()), 4);
      r := CopyCode(codeOffset, memOffset, size, who);
    }

    method CopyCode(codeOffset: nat, memOffset: nat, size: nat, who: nat) returns (r: Fallible<Flow>)
      modifies this`memory, this`calls
      ensures Agrees(r, Snap(), CopyExtCode(EnvOf(), old(Snap()), codeOffset, memOffset, size, who))
    {
      hide CopyIn, Keeps, Wf, WfStore, HostOk, Address;
      var chunk :- FetchCode(Address(who), codeOffset, size);
      memory := CopyIn(memory, memOffset, chunk, 0, size);
      return Ok(FallThrough);
    }

    /** Both windows are extended, the source bytes taken out, then written. */
    method DoMCopy() returns (r: Fallible<Flow>)
      modifies this`stack, this`memory, this`gasUsed
      ensures Agrees(r, Snap(), ExecMCopy(EnvOf(), old(Snap())))
    {
      hide CopyWithin, GasCost, Keeps, Wf, WfStore, HostOk;
      var size, src, dest :- Pop3();
      var _ :- ConsumeGas(GasCost(0x5E) + 3 * ((size + 31) / 32));
      MoveMemory(dest, src, size);
      return Ok(FallThrough);
    }

    method MoveMemory(dest: nat, src: nat, size: nat)
      modifies this`memory
      ensures memory == CopyWithin(old(memory), dest, src, size)
    {
      hide CopyIn, Extend;
      MemExtend(dest, size);
      MemExtend(src, size);
      var chunk := memory[src..src + size];
      memory := CopyIn(memory, dest, chunk, 0, size);
    }

    method DoKeccak() returns (r: Fallible<Flow>)
      modifies this`stack, this`memory
      ensures Agrees(r, Snap(), ExecMemory(EnvOf(), old(Snap()), 0x20))
    {
      hide Extend, Slice, Mask, Keeps, Wf, WfStore, HostOk;
      var offset, size :- Pop2();
      MemExtend(offset, size);
      Push(keccak(Slice(memory, offset, size)));
      return Ok(FallThrough);
    }

    method DoMStore(op: byte) returns (r: Fallible<Flow>)
      requires op == 0x52 || op == 0x53
      modifies this`stack, this`memory
      ensures Agrees(r, Snap(), ExecMemory(EnvOf(), old(Snap()), op))
    {
      hide WriteWord, WriteByte, Keeps, Wf, WfStore, HostOk;
      var offset, value :- Pop2();
      memory := if op == 0x52 then WriteWord(memory, offset, value) else WriteByte(memory, offset, value);
      return Ok(FallThrough);
    }

    method DoMemory(op: byte) returns (r: Fallible<Flow>)
      requires IsMemory(op)
      modifies this`stack, this`memory, this`gasUsed, this`calls
      ensures Agrees(r, Snap(), ExecMemory(EnvOf(), old(Snap()), op))
    {
      hide ExecExtCodeCopy, ExecMCopy, ExecCopy, ReadWord, WriteWord, WriteByte, Extend, Slice, Mask,
        Keeps, Wf, WfStore, HostOk;
      if op == 0x51 {
        var offset :- Pop();
        MemExtend(offset, 32);
        Push(ReadWord(memory, offset));
        r := Ok(FallThrough);
      } else if op == 0x20 {
        r := DoKeccak();
      } else if op == 0x52 || op == 0x53 {
        r := DoMStore(op);
      } else if op == 0x3C {
        r := DoExtCodeCopy();
      } else if op == 0x5E {
        r := DoMCopy();
      } else {
        r := DoCopy(op);
      }
    }

    /** SSTORE changes the dict, TSTORE a field of the interpreter. */
    method DoStorage(op: byte) returns (r: Fallible<Flow>)
      requires IsStorage(op)
      modifies this`stack, this`transientStorage, storage
      ensures Agrees(r, Snap(), ExecStorage(EnvOf(), old(Snap()), op))
    {
      hide ExecStorage;
      if op == 0x54 || op == 0x5C {
        r := DoLoad(op);
      } else {
        r := DoStore(op);
      }
    }

    method DoLoad(op: byte) returns (r: Fallible<Flow>)
      requires op == 0x54 || op == 0x5C
      modifies this`stack
      ensures Agrees(r, Snap(), ExecStorage(EnvOf(), old(Snap()), op))
    {
      hide Store, Mask, Keeps, Wf, WfStore, HostOk;
      var key :- Pop();
      var m := if op == 0x54 then storage.m else transientStorage;
      Push(if key in m then m[key] else 0);
      return Ok(FallThrough);
    }

    method DoStore(op: byte) returns (r: Fallible<Flow>)
      requires op == 0x55 || op == 0x5D
      modifies this`stack, this`transientStorage, storage
      ensures Agrees(r, Snap(), ExecStorage(EnvOf(), old(Snap()), op))
    {
      hide Store, Mask, Keeps, Wf, WfStore, HostOk;
      var key, value :- Pop2();
      if op == 0x55 {
        StoreSlot(key, value);
      } else {
        transientStorage := Store(transientStorage, key, value);
      }
      return Ok(FallThrough);
    }

    /** The dict itself is changed; a zero removes the key. */
    method StoreSlot(key: nat, value: nat)
      modifies storage
      ensures storage.m == Store(old(storage.m), key, value)
    {
      if value == 0 {
        if key in storage.m {
          storage.m := storage.m - {key};
        }
      } else {
        storage.m := storage.m[key := value];
      }
    }

    method JumpTo(dest: nat, table: seq<bv8>) returns (r: Fallible<Flow>)
      requires TableFor(table, bytecode)
      modifies this`pc
      ensures Agrees(r, Snap(), Jump(EnvOf(), old(Snap()), dest))
    {
      if !IsJumpdest(table, dest, |bytecode|) {
        return Raise(InvalidJump);
      }
      pc := dest;
      return Ok(Jumped);
    }

    method DoControl(op: byte, table: seq<bv8>) returns (r: Fallible<Flow>)
      requires IsControl(op) && TableFor(table, bytecode)
      modifies this`stack, this`pc, this`memory, this`returnData, this`reverted, this`running, this`calls
      ensures Agrees(r, Snap(), ExecControl(EnvOf(), old(Snap()), op))
    {
      hide ValidDest, TableFor, Jump, ExecReturn, ExecSelfDestruct;
      if op == 0x5B {
        r := Ok(FallThrough);
      } else if op == 0xFE {
        r := Raise(InvalidOpcode);
      } else if op == 0x56 {
        var dest :- Pop();
        r := JumpTo(dest, table);
      } else if op == 0x57 {
        var dest, cond :- Pop2();
        if cond != 0 {
          r := JumpTo(dest, table);
        } else {
          r := Ok(FallThrough);
        }
      } else if op == 0xFF {
        r := DoSelfDestruct();
      } else {
        r := DoReturn(op == 0xFD);
      }
    }

    method DoSelfDestruct() returns (r: Fallible<Flow>)
      modifies this`stack, this`running, this`calls
      ensures Agrees(r, Snap(), ExecSelfDestruct(EnvOf(), old(Snap())))
    {
      hide Keeps, Wf, WfStore, HostOk, Address;
      var beneficiary :- Pop();
      if host.selfDestruct.Some? {
        var answer := host.selfDestruct.value(calls, Address(beneficiary));
        calls := calls + 1;
        if answer.Threw? {
          return Raise(HostError);
        }
      }
      running := false;
      return Ok(Stopped);
    }

    method DoReturn(reverts: bool) returns (r: Fallible<Flow>)
      modifies this`stack, this`memory, this`returnData, this`reverted, this`running
      ensures Agrees(r, Snap(), ExecReturn(EnvOf(), old(Snap()), reverts))
    {
      hide Extend, Slice, Keeps, Wf, WfStore, HostOk;
      var offset, size :- Pop2();
      MemExtend(offset, size);
      returnData := Slice(memory, offset, size);
      if reverts {
        reverted := true;
      }
      running := false;
      return Ok(Stopped);
    }

    /** The comprehension that pops the topics, newest first. */
    method PopTopics(n: nat) returns (r: Fallible<seq<nat>>)
      modifies this`stack
      ensures n > |old(stack)| ==> r == Raise(StackUnderflow) && stack == []
      ensures n <= |old(stack)| ==>
        r == Ok(old(stack)[|old(stack)| - n..]) && stack == old(stack)[..|old(stack)| - n]
    {
      var topics: seq<nat> := [];
      ghost var before := stack;
      for i := 0 to n
        invariant i <= |before| && |topics| == i
        invariant stack == before[..|before| - i]
        invariant topics == before[|before| - i..]
      {
        var v :- Pop();
        topics := [v] + topics;
      }
      return Ok(topics);
    }

    method EmitLog(topics: seq<nat>, data: seq<byte>) returns (r: Fallible<Flow>)
      modifies this`logs, this`calls
      ensures host.emitLog.None? ==>
        r == Ok(FallThrough) && calls == old(calls) && logs == old(logs) + [LogEntry(topics, data)]
      ensures host.emitLog.Some? ==>
        && calls == old(calls) + 1
        && match host.emitLog.value(old(calls), topics, data)
           case Threw => r == Raise(HostError) && logs == old(logs)
           case Reply(_) => r == Ok(FallThrough) && logs == old(logs) + [LogEntry(topics, data)]
    {
      if host.emitLog.Some? {
        var answer := host.emitLog.value(calls, topics, data);
        calls := calls + 1;
        if answer.Threw? {
          return Raise(HostError);
        }
      }
      logs := logs + [LogEntry(topics, data)];
      return Ok(FallThrough);
    }

    method DoLog(op: byte) returns (r: Fallible<Flow>)
      requires IsLog(op)
      modifies this`stack, this`memory, this`gasUsed, this`logs, this`calls
      ensures Agrees(r, Snap(), ExecLog(EnvOf(), old(Snap()), op))
    {
      hide LogAt, Keeps, Wf, WfStore, HostOk;
      var n := op as nat - 0xA0;
      var topics :- PopTopics(n);
      var size, offset :- Pop2();
      assert Snap() == Popped(old(Snap()), n + 2) && topics == Topics(old(Snap()), n);
      r := LogPopped(topics, size, offset);
    }

    method LogPopped(topics: seq<nat>, size: nat, offset: nat) returns (r: Fallible<Flow>)
      modifies this`memory, this`gasUsed, this`logs, this`calls
      ensures Agrees(r, Snap(), LogAt(EnvOf(), old(Snap()), topics, size, offset))
    {
      hide Extend, Slice, Keeps, Wf, WfStore, HostOk;
      var _ :- ConsumeGas(LOG_GAS + |topics| * 375 + size);
      MemExtend(offset, size);
      r := EmitLog(topics, Slice(memory, offset, size));
    }

    method ChargeSubcallGas(subGas: int) returns (r: Fallible<()>)
      modifies this`gasUsed
      ensures var (t, flow) := ChargeSubcall(EnvOf(), old(Snap()), subGas);
        Snap() == t && r == if flow.Raised? then Raise(flow.error) else Ok(())
    {
      if subGas > 0 {
        gasUsed := gasUsed + subGas;
        if gasUsed > gasLimit {
          return Raise(OutOfGas);
        }
      }
      return Ok(());
    }

    /** _execute_call and the push of its result. A DELEGATECALL or CALLCODE that
        gets storage back rebinds the field to a new dict. */
    method CallOut(a: CallArgs) returns (r: Fallible<Flow>)
      modifies this`stack, this`memory, this`gasUsed, this`returnData, this`storage, this`calls
      ensures Agrees(r, Snap(), ExecuteCall(EnvOf(), old(Snap()), a))
      ensures storage == old(storage) || fresh(storage)
    {
      hide Extend, Slice, FinishCall, CallGas, Mask, Keeps, Wf, WfStore, HostOk, Address;
      if host.contractCall.None? {
        returnData := [];
        Push(0);
        return Ok(FallThrough);
      }
      MemExtend(a.argsOffset, a.argsSize);
      var data := Slice(memory, a.argsOffset, a.argsSize);
      var remaining := if gasLimit <= gasUsed then 0 else gasLimit - gasUsed;
      var callGas := CallGas(remaining, a.gas, a.value, a.kind);
      var answer := host.contractCall.value(calls, CallRequest(Address(a.to), data, a.value, callGas, a.kind));
      calls := calls + 1;
      if answer.Threw? {
        return Raise(HostError);
      }
      r := CallReplied(a, callGas, answer.value);
    }

    method CallReplied(a: CallArgs, callGas: nat, out: CallReply) returns (r: Fallible<Flow>)
      modifies this`stack, this`memory, this`gasUsed, this`returnData, this`storage
      ensures Agrees(r, Snap(), FinishCall(EnvOf(), old(Snap()), a, callGas, out))
      ensures storage == old(storage) || fresh(storage)
    {
      hide ReturnFromCall, ChargeSubcall, Keeps, Wf, WfStore, HostOk;
      var _ :- ChargeSubcallGas(Min(out.gasUsed, callGas));
      Returned(a, out);
      return Ok(FallThrough);
    }

    method Returned(a: CallArgs, out: CallReply)
      modifies this`stack, this`memory, this`returnData, this`storage
      ensures Snap() == ReturnFromCall(old(Snap()), a, out)
      ensures storage == old(storage) || fresh(storage)
    {
      returnData := out.returnData;
      if (a.kind.DelegateCall? || a.kind.CallCode?) && out.storage.Some? {
        storage := new StorageDict(out.storage.value);
      }
      memory := CopyIn(memory, a.retOffset, out.returnData, 0, a.retSize);
      Push(if out.success && !out.reverted then 1 else 0);
    }

    method PopCallArgs(op: byte) returns (r: Fallible<CallArgs>)
      requires IsCall(op)
      modifies this`stack
      ensures |old(stack)| < CallArity(op) ==> r == Raise(StackUnderflow) && stack == []
      ensures |old(stack)| >= CallArity(op) ==>
        r == Ok(CallArgsOf(old(Snap()), op)) && stack == old(stack)[..|old(stack)| - CallArity(op)]
    {
      var value := 0;
      var gas, toWord :- Pop2();
      if op == 0xF1 || op == 0xF2 {
        value :- Pop();
      }
      assert stack == old(stack)[..|old(stack)| - (CallArity(op) - 4)];
      var argsOffset, argsSize :- Pop2();
      var retOffset, retSize :- Pop2();
      assert stack == old(stack)[..|old(stack)| - CallArity(op)];
      return Ok(CallArgs(KindOf(op), gas, toWord, value, argsOffset, argsSize, retOffset, retSize));
    }

    method DoCall(op: byte) returns (r: Fallible<Flow>)
      requires IsCall(op)
      modifies this`stack, this`memory, this`gasUsed, this`returnData, this`storage, this`calls
      ensures Agrees(r, Snap(), ExecCall(EnvOf(), old(Snap()), op))
      ensures storage == old(storage) || fresh(storage)
    {
      hide ExecuteCall, CallArgsOf;
      var args :- PopCallArgs(op);
      r := CallOut(args);
    }

    method CreateOut(value: nat, offset: nat, size: nat, salt: Option<nat>) returns (r: Fallible<Flow>)
      modifies this`stack, this`memory, this`gasUsed, this`calls
      ensures Agrees(r, Snap(), ExecuteCreate(EnvOf(), old(Snap()), value, offset, size, salt))
    {
      hide Extend, Slice, FinishCreate, Mask, Keeps, Wf, WfStore, HostOk;
      if host.contractCreate.None? {
        Push(0);
        return Ok(FallThrough);
      }
      MemExtend(offset, size);
      var answer := host.contractCreate.value(calls, Slice(memory, offset, size), value, salt);
      calls := calls + 1;
      if answer.Threw? {
        return Raise(HostError);
      }
      r := CreateReplied(answer.value);
    }

    method CreateReplied(out: CreateReply) returns (r: Fallible<Flow>)
      modifies this`stack, this`gasUsed
      ensures Agrees(r, Snap(), FinishCreate(EnvOf(), old(Snap()), out))
    {
      hide ChargeSubcall, Mask, Keeps, Wf, WfStore, HostOk;
      var _ :- ChargeSubcallGas(out.gasUsed);
      Push(if !out.success || out.reverted then 0 else out.address);
      return Ok(FallThrough);
    }

    method DoCreate(op: byte) returns (r: Fallible<Flow>)
      requires IsCreate(op)
      modifies this`stack, this`memory, this`gasUsed, this`calls
      ensures Agrees(r, Snap(), ExecCreate(EnvOf(), old(Snap()), op))
    {
      hide ExecuteCreate, Keeps, Wf, WfStore, HostOk;
      ghost var s := Snap();
      var salt := None;
      if op == 0xF5 {
        var word :- Pop();
        salt := Some(word);
      }
      var size, offset, value :- Pop3();
      assert Snap() == Popped(s, if op == 0xF5 then 4 else 3);
      r := CreateOut(value, offset, size, salt);
    }

    // -------------------------------------------------------------- the dispatch

    method Dispatch(op: byte, table: seq<bv8>) returns (r: Fallible<Flow>)
      requires TableFor(table, bytecode)
      modifies this, storage
      ensures Agrees(r, Snap(), Exec(EnvOf(), old(Snap()), op))
      ensures storage == old(storage) || fresh(storage)
      ensures bytecode == old(bytecode) && trace == old(trace)
    {
      hide TableFor, ExecAlu, ExecStack, ExecEnv, ExecMemory, ExecStorage, ExecControl, ExecLog, ExecCall, ExecCreate;
      if IsAlu1(op) || IsAlu2(op) || IsAlu3(op) {
        r := DoAlu(op);
      } else if IsStackOp(op) {
        r := DoStack(op);
      } else if IsEnvWord(op) || IsQuery(op) {
        r := DoEnv(op);
      } else if IsMemory(op) {
        r := DoMemory(op);
      } else if IsStorage(op) {
        r := DoStorage(op);
      } else if IsControl(op) {
        r := DoControl(op, table);
      } else if IsLog(op) {
        r := DoLog(op);
      } else if IsCall(op) {
        r := DoCall(op);
      } else if IsCreate(op) {
        r := DoCreate(op);
      } else {
        r := Raise(UnsupportedOpcode);
      }
    }

    /** PUSH1-PUSH32: pc is left on the last byte of the immediate. */
    method DoPush(op: byte)
      requires 0x60 <= op <= 0x7F
      modifies this`stack, this`pc
      ensures Snap() == ExecPush(EnvOf(), old(Snap()), op)
    {
      hide FromBytes, Slice;
      var n := op as nat - 0x5F;
      Push(FromBytes(Slice(bytecode, pc + 1, n)));
      pc := pc + n;
    }

    /** Lines 361-719: one turn. The result says whether to go round again. */
    method Turn(table: seq<bv8>) returns (r: Fallible<bool>)
      requires pc < |bytecode| && TableFor(table, bytecode)
      modifies this, storage
      ensures bytecode == old(bytecode)
      ensures match Step(EnvOf(), old(Snap()))
        case Running(t) => Snap() == t && r == Ok(true)
        case Done(t) => Snap() == t && r == Ok(false)
        case Failed(t, e) => Snap() == t && r == Raise(e)
      ensures storage == old(storage) || fresh(storage)
      ensures trace == if Affordable(EnvOf(), old(Snap()))
        then old(trace) + [TraceEntry(old(pc), bytecode[old(pc)], |old(stack)|)] else old(trace)
    {
      hide TableFor, Perform, GasCost, Keeps, Wf, WfStore, HostOk, Exec, ExecPush;
      var op := bytecode[pc];
      if !IsLog(op) {
        var _ :- ConsumeGas(GasCost(op));
      }
      trace := trace + [TraceEntry(pc, op, |stack|)];
      r := Act(op, table);
    }

    /** The opcode itself, once charged and traced. */
    method Act(op: byte, table: seq<bv8>) returns (r: Fallible<bool>)
      requires TableFor(table, bytecode)
      modifies this, storage
      ensures bytecode == old(bytecode) && trace == old(trace)
      ensures match Perform(EnvOf(), old(Snap()), op)
        case Running(t) => Snap() == t && r == Ok(true)
        case Done(t) => Snap() == t && r == Ok(false)
        case Failed(t, e) => Snap() == t && r == Raise(e)
      ensures storage == old(storage) || fresh(storage)
    {
      hide TableFor, Exec, ExecPush, Keeps, Wf, WfStore, HostOk;
      if op == 0x00 {
        running := false;
        return Ok(false);
      }
      if 0x60 <= op <= 0x7F {
        DoPush(op);
      } else {
        var flow :- Dispatch(op, table);
        if flow == Jumped {
          return Ok(true);
        }
        if flow == Stopped {
          return Ok(false);
        }
      }
      pc := pc + 1;
      return Ok(true);
    }

    // ------------------------------------------------------------------ the loop

    /** _apply_native_segment, and the dict flushed in place by the kernel. */
    method ApplySegment(s: State)
      modifies this, storage
      ensures Snap() == s && storage == old(storage) && bytecode == old(bytecode) && trace == old(trace)
    {
      ApplyMachine(s);
      returnData, logs, calls := s.ret, s.logs, s.calls;
      transientStorage, storage.m := s.transient, s.storage;
    }

    method ApplyMachine(s: State)
      modifies this`pc, this`gasUsed, this`running, this`reverted, this`stack, this`memory
      ensures pc == s.pc && gasUsed == s.gasUsed && running == s.running && reverted == s.reverted
      ensures stack == s.stack && memory == s.mem
    {
      pc, gasUsed, running, reverted := s.pc, s.gasUsed, s.running, s.reverted;
      stack, memory := s.stack, s.mem;
    }

    /** A turn with a kernel: one native segment unless the opcode is a host opcode,
        then one interpreted turn unless the segment ended the run. */
    method NativeTurn(table: seq<bv8>, k: Kernel) returns (more: bool, exit: Exit)
      requires pc < |bytecode| && running && TableFor(table, bytecode)
      modifies this, storage
      ensures bytecode == old(bytecode)
      ensures match HybridTurn(EnvOf(), k, old(Snap()))
        case Interp(Running(t)) => Snap() == t && more
        case h => !more && (Snap(), exit) == ExitOf(h)
      ensures storage == old(storage) || fresh(storage)
    {
      hide TableFor, Step, RunSegment;
      if !IsHost(bytecode[pc]) {
        var seg := RunSegment(EnvOf(), k, Snap(), k.maxSteps);
        SegmentSound(EnvOf(), k, Snap(), k.maxSteps);
        ApplySegment(seg.s);
        match seg.reason {
          case ReasonError(e) => return false, ExitError(e);
          case ReasonHost =>
          case ReasonHandoff =>
            if k.requireNative {
              return false, Forbidden;
            }
          case _ => return false, Ended;
        }
        if pc >= |bytecode| {
          return false, PastEnd;
        }
      }
      more, exit := PlainTurnAt(table);
    }

    method PlainTurnAt(table: seq<bv8>) returns (more: bool, exit: Exit)
      requires pc < |bytecode| && TableFor(table, bytecode)
      modifies this, storage
      ensures bytecode == old(bytecode)
      ensures match Step(EnvOf(), old(Snap()))
        case Running(t) => Snap() == t && more
        case o => !more && (Snap(), exit) == ExitOf(Interp(o))
      ensures storage == old(storage) || fresh(storage)
      ensures trace == if Affordable(EnvOf(), old(Snap()))
        then old(trace) + [TraceEntry(old(pc), bytecode[old(pc)], |old(stack)|)] else old(trace)
    {
      hide Step, TableFor;
      var again := Turn(table);
      if again.Raise? {
        return false, ExitError(again.error);
      }
      return again.value, Ended;
    }

    /** Lines 351-719. */
    method Loop(table: seq<bv8>, kernel: Option<Kernel>) returns (exit: Exit)
      requires TableFor(table, bytecode)
      modifies this, storage
      ensures bytecode == old(bytecode)
      ensures (Snap(), exit) == ExitOf(LoopSpec(EnvOf(), kernel, old(Snap())))
      ensures storage == old(storage) || fresh(storage)
      ensures kernel.None? ==> trace == old(trace) + Trace(EnvOf(), old(Snap()))
    {
      hide TableFor, Step, HybridTurn, Run, HybridRun, Trace;
      ghost var s0, trace0, env := Snap(), trace, EnvOf();
      while pc < |bytecode| && running
        invariant EnvOf() == env && TableFor(table, bytecode)
        invariant storage == old(storage) || fresh(storage)
        invariant LoopSpec(env, kernel, Snap()) == LoopSpec(env, kernel, s0)
        invariant kernel.None? ==> trace + Trace(env, Snap()) == trace0 + Trace(env, s0)
        decreases gasLimit - gasUsed
      {
        ghost var before, seen := Snap(), trace;
        LoopUnfold(env, kernel, before);
        var more;
        if kernel.Some? {
          more, exit := NativeTurn(table, kernel.value);
        } else {
          more, exit := PlainTurnAt(table);
          assert seen + Trace(env, before) == trace + (if more then Trace(env, Snap()) else []);
        }
        if !more {
          return;
        }
      }
      LoopUnfold(env, kernel, Snap());
      return Ended;
    }

    /** Lines 310-346: the storage contents are put back after any exception or
        revert, in whatever dict the field holds by then. */
    method ExecuteBytecode(code: seq<byte>, kernel: Option<Kernel>) returns (exit: Exit, result: Result)
      modifies this, storage
      ensures bytecode == code
      ensures exit == ExitOf(ExecuteSpec(EnvOf(), kernel, old(Snap()))).1
      ensures var t := ExitOf(ExecuteSpec(EnvOf(), kernel, old(Snap()))).0;
        Snap() == if exit != Ended || t.reverted then t.(storage := old(storage.m)) else t
      ensures exit != Ended || reverted ==> storage.m == old(storage.m)
      ensures storage == old(storage) || fresh(storage)
      ensures result == Result(Success(Snap()), Snap(), trace)
      ensures kernel.None? ==> trace == Trace(EnvOf(), Start(old(Snap())))
    {
      hide ExecuteSpec, TableFor;
      var snapshot := storage.m;
      exit := ExecuteImpl(code, kernel);
      if exit != Ended || reverted {
        storage.m := snapshot;
      }
      result := Result(Success(Snap()), Snap(), trace);
    }

    method ExecuteImpl(code: seq<byte>, kernel: Option<Kernel>) returns (exit: Exit)
      modifies this, storage
      ensures bytecode == code
      ensures (Snap(), exit) == ExitOf(ExecuteSpec(EnvOf(), kernel, old(Snap())))
      ensures storage == old(storage) || fresh(storage)
      ensures kernel.None? ==> trace == Trace(EnvOf(), Start(old(Snap())))
    {
      hide TableFor, Run, HybridRun, NativeFirst, Trace, Keeps, Wf, WfStore, HostOk;
      Reset(code);
      var table := JumpTable(code);
      if kernel.Some? {
        var over;
        over, exit := RunUntilHalt(kernel.value);
        if over {
          return;
        }
      }
      exit := Loop(table, kernel);
    }

    /** Lines 323-331. */
    method Reset(code: seq<byte>)
      modifies this
      ensures Snap() == Start(old(Snap())) && bytecode == code && trace == [] && storage == old(storage)
    {
      ResetMachine();
      returnData, trace, logs, bytecode := [], [], [], code;
    }

    method ResetMachine()
      modifies this`pc, this`stack, this`gasUsed, this`running, this`reverted
      ensures pc == 0 && stack == [] && gasUsed == 0 && running && !reverted
    {
      pc, stack, gasUsed, running, reverted := 0, [], 0, true, false;
    }

    /** _run_native_until_halt and lines 335-349. */
    method RunUntilHalt(k: Kernel) returns (over: bool, exit: Exit)
      modifies this, storage
      ensures bytecode == old(bytecode) && storage == old(storage)
      ensures if over then (Snap(), exit) == ExitOf(NativeFirst(EnvOf(), k, old(Snap())))
              else NativeFirst(EnvOf(), k, old(Snap())) == HybridRun(EnvOf(), k, Snap())
    {
      hide UntilHalt, HybridRun;
      var seg := UntilHalt(EnvOf(), Snap());
      ApplySegment(seg.s);
      match seg.reason {
        case ReasonError(e) => return true, ExitError(e);
        case ReasonHandoff => return k.requireNative, Forbidden;
        case _ => return true, Ended;
      }
    }
  }

  /** The trace still to come after a turn. */
  function TraceAfter(env: Env, o: Outcome): seq<TraceEntry> {
    if o.Running? then Trace(env, o.s) else []
  }

  lemma LoopUnfold(env: Env, kernel: Option<Kernel>, s: State)
    ensures Halted(env, s) ==> LoopSpec(env, kernel, s) == Interp(Done(s)) && Trace(env, s) == []
    ensures !Halted(env, s) && kernel.None? ==>
      LoopSpec(env, kernel, s)
      == if Step(env, s).Running? then LoopSpec(env, kernel, Step(env, s).s) else Interp(Step(env, s))
    ensures !Halted(env, s) ==>
      Trace(env, s)
      == if !Affordable(env, s) then []
         else [TraceEntry(s.pc, env.code[s.pc], |s.stack|)] + TraceAfter(env, Step(env, s))
    ensures !Halted(env, s) && kernel.Some? ==>
      var h := HybridTurn(env, kernel.value, s);
      LoopSpec(env, kernel, s) == if h.Interp? && h.o.Running? then LoopSpec(env, kernel, h.o.s) else h
  {
    hide Step, HybridTurn;
  }

  method JumpTable(code: seq<byte>) returns (table: seq<bv8>)
    ensures TableFor(table, code)
  {
    table := BuildJumpdestTable(code);
    TableOfCode(table, code);
  }

  lemma TableOfCode(table: seq<bv8>, code: seq<byte>)
    requires |table| == (|code| + 7) / 8
    requires forall d: nat :: IsJumpdest(table, d, |code|) <==> d in ValidDests(code, 0)
    ensures TableFor(table, code)
  {
    forall d: nat | d < |code| ensures IsJumpdest(table, d, |code|) <==> ValidDest(code, d) {
      ValidDestsAreStarts(code, 0, d);
    }
  }

  /** The dictionary returned by execute_bytecode; the fields come from the state. */
  datatype Result = Result(success: bool, fields: State, trace: seq<TraceEntry>)

  /** How the loop was left. */
  datatype Exit = Ended | ExitError(error: Error) | PastEnd | Forbidden

  function ExitOf(h: HybridOutcome): (State, Exit) {
    match h
    case Interp(Failed(s, e)) => (s, ExitError(e))
    case Interp(o) => (o.s, Ended)
    case FetchPastEnd(s) => (s, PastEnd)
    case HandoffForbidden(s) => (s, Forbidden)
  }

  function LoopSpec(env: Env, kernel: Option<Kernel>, s: State): HybridOutcome {
    match kernel
    case None => Interp(Run(env, s))
    case Some(k) => HybridRun(env, k, s)
  }

  function ExecuteSpec(env: Env, kernel: Option<Kernel>, s: State): HybridOutcome {
    match kernel
    case None => Interp(Run(env, Start(s)))
    case Some(k) => NativeFirst(env, k, Start(s))
  }
}

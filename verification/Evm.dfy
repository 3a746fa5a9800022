/** One instruction of the interpreter as a function on values
    (evm_interpreter.py, lines 60-208 and 361-719). The class in
    Interpreter.dfy performs the same instruction in place and is proved equal
    to these functions. */
module Evm {
  import opened Wrappers
  import opened Words
  import opened Alu
  import opened Memory
  import opened Jumpdest

  const TWO_160: int := 0x1_00000000_00000000_00000000_00000000_00000000

  /** What a host callback did: returned a value, or raised. */
  datatype Answer<+T> = Reply(value: T) | Threw

  datatype Error =
    | OutOfGas | StackUnderflow | InvalidJump | InvalidOpcode | UnsupportedOpcode | HostError

  datatype CallKind = Call | CallCode | DelegateCall | StaticCall

  datatype CallRequest = CallRequest(to: nat, data: seq<byte>, value: nat, gas: nat, kind: CallKind)

  datatype CallReply = CallReply(success: bool, reverted: bool, gasUsed: int, returnData: seq<byte>,
                                 storage: Option<map<int, int>>)

  datatype CreateReply = CreateReply(success: bool, reverted: bool, gasUsed: int, address: int)

  /** The callbacks of EVMContext. Each takes the number of callbacks made so far,
      so that a callback with its own state may answer the same question
      differently later in the run. */
  datatype Host = Host(
    balanceOf: Option<(nat, nat) -> Answer<int>>,
    codeSizeOf: Option<(nat, nat) -> Answer<int>>,
    codeCopyOf: Option<(nat, nat, nat, int) -> Answer<seq<byte>>>,
    blockHashOf: Option<(nat, nat) -> Answer<int>>,
    emitLog: Option<(nat, seq<nat>, seq<byte>) -> Answer<()>>,
    selfDestruct: Option<(nat, nat) -> Answer<()>>,
    contractCall: Option<(nat, CallRequest) -> Answer<CallReply>>,
    contractCreate: Option<(nat, seq<byte>, nat, Option<nat>) -> Answer<CreateReply>>)

  datatype Ctx = Ctx(
    address: int, hasAddress: bool, caller: int, origin: int, coinbase: int, value: int,
    blockNumber: int, timestamp: int, chainId: int, baseFee: int, gasPrice: int,
    difficulty: int, blobBaseFee: int, blobHashes: seq<int>, calldata: seq<byte>)

  /** Everything an execution reads and never changes. */
  datatype Env = Env(code: seq<byte>, gasLimit: int, ctx: Ctx, host: Host, keccak: seq<byte> -> nat)

  datatype TraceEntry = TraceEntry(pc: nat, op: byte, depth: nat)

  datatype LogEntry = LogEntry(topics: seq<nat>, data: seq<byte>)

  /** The mutable fields of EVM but for the trace, which no instruction reads. The
      last element of the stack is its top; calls counts the callbacks made. */
  datatype State = State(
    pc: nat, stack: seq<nat>, mem: seq<byte>, storage: map<int, int>, transient: map<int, int>,
    gasUsed: nat, running: bool, reverted: bool, ret: seq<byte>,
    logs: seq<LogEntry>, calls: nat)

  /** How an instruction body leaves the loop iteration. */
  datatype Flow = FallThrough | Jumped | Stopped | Raised(error: Error)

  // ---------------------------------------------------------------- invariants

  predicate WfStore(m: map<int, int>) {
    forall k :: k in m ==> 0 <= k < TWO_256 && 0 < m[k] < TWO_256
  }

  /** Stack words are words; neither store keeps a zero or a non-word. */
  predicate Wf(s: State) {
    && (forall i :: 0 <= i < |s.stack| ==> s.stack[i] < TWO_256)
    && WfStore(s.storage)
    && WfStore(s.transient)
  }

  /** Sub-calls hand back only well-formed storage. */
  ghost predicate HostOk(env: Env) {
    env.host.contractCall.Some? ==>
      forall n: nat, r: CallRequest ::
        var a := env.host.contractCall.value(n, r);
        a.Reply? && a.value.storage.Some? ==> WfStore(a.value.storage.value)
  }

  predicate ValidDest(code: seq<byte>, d: nat) {
    d < |code| && code[d] == JUMPDEST && WalkReaches(code, 0, d)
  }

  /** What every instruction body leaves alone or only moves one way. */
  predicate Keeps(env: Env, s: State, s': State, flow: Flow) {
    && s.gasUsed <= s'.gasUsed
    && (!flow.Raised? && s.gasUsed <= env.gasLimit ==> s'.gasUsed <= env.gasLimit)
    && |s.mem| <= |s'.mem|
    && (flow.FallThrough? || flow.Jumped? ==> s'.running == s.running && s'.reverted == s.reverted)
    && (flow.Stopped? ==> !s'.running)
    && (!flow.Jumped? ==> s'.pc == s.pc)
    && (flow.Jumped? ==> ValidDest(env.code, s'.pc))
  }

  // ------------------------------------------------------------------- helpers

  function Top(s: State, i: nat): nat
    requires i < |s.stack|
  {
    s.stack[|s.stack| - 1 - i]
  }

  function Popped(s: State, k: nat): State
    requires k <= |s.stack|
  {
    s.(stack := s.stack[..|s.stack| - k])
  }

  function Push(s: State, v: int): State {
    s.(stack := s.stack + [Mask(v)])
  }

  function Underflow(s: State): (State, Flow) {
    (s.(stack := []), Raised(StackUnderflow))
  }

  function Called(s: State): State {
    s.(calls := s.calls + 1)
  }

  function Address(word: nat): nat {
    word % TWO_160
  }

  function Load(m: map<int, int>, key: nat): int {
    if key in m then m[key] else 0
  }

  /** A zero write deletes the entry. */
  function Store(m: map<int, int>, key: nat, value: nat): (m': map<int, int>)
    ensures WfStore(m) && key < TWO_256 && value < TWO_256 ==> WfStore(m')
    ensures Load(m', key) == value
    ensures forall k: nat :: k != key ==> Load(m', k) == Load(m, k)
  {
    if value == 0 then m - {key} else m[key := value]
  }

  // --------------------------------------------------------------------- gas

  const LOG_GAS: nat := 375

  function IsLog(op: byte): bool {
    0xA0 <= op <= 0xA4
  }

  /** GAS_COSTS[_opcode_name(op)], with the default of 3. */
  function GasCost(op: byte): nat {
    match op
    case 0x00 => 0
    case 0x02 => 5
    case 0x04 => 5
    case 0x05 => 5
    case 0x06 => 5
    case 0x07 => 5
    case 0x08 => 8
    case 0x09 => 8
    case 0x0A => 10
    case 0x0B => 5
    case 0x20 => 30
    case 0x30 => 2
    case 0x31 => 400
    case 0x32 => 2
    case 0x33 => 2
    case 0x34 => 2
    case 0x36 => 2
    case 0x38 => 2
    case 0x3A => 2
    case 0x3B => 700
    case 0x3C => 700
    case 0x3D => 2
    case 0x3F => 700
    case 0x40 => 20
    case 0x41 => 2
    case 0x42 => 2
    case 0x43 => 2
    case 0x44 => 2
    case 0x45 => 2
    case 0x46 => 2
    case 0x47 => 5
    case 0x48 => 2
    case 0x4A => 2
    case 0x50 => 2
    case 0x54 => 200
    case 0x55 => 5000
    case 0x56 => 8
    case 0x57 => 10
    case 0x58 => 2
    case 0x59 => 2
    case 0x5A => 2
    case 0x5B => 1
    case 0x5C => 100
    case 0x5D => 100
    case 0x5F => 2
    case 0xF0 => 32000
    case 0xF1 => 700
    case 0xF2 => 700
    case 0xF3 => 0
    case 0xF4 => 700
    case 0xF5 => 32000
    case 0xFA => 700
    case 0xFD => 0
    case 0xFF => 5000
    case _ => 3
  }

  // --------------------------------------------------- arithmetic, logic, stack

  predicate IsAlu1(op: byte) {
    op == 0x15 || op == 0x19
  }

  predicate IsAlu2(op: byte) {
    || 0x01 <= op <= 0x07 || op == 0x0A || op == 0x0B
    || 0x10 <= op <= 0x14 || 0x16 <= op <= 0x18 || 0x1A <= op <= 0x1D
  }

  predicate IsAlu3(op: byte) {
    op == 0x08 || op == 0x09
  }

  function Alu1(op: byte, a: nat): int {
    if op == 0x15 then Bool(a == 0) else TWO_256 - 1 - a
  }

  /** a is popped first. The 0x10-0x1A map is this interpreter's own. */
  function Alu2(op: byte, a: nat, b: nat): int {
    match op
    case 0x01 => a + b
    case 0x02 => a * b
    case 0x03 => a - b
    case 0x04 => Div(a, b)
    case 0x05 => SDiv(a, b)
    case 0x06 => Mod(a, b)
    case 0x07 => SMod(a, b)
    case 0x0A => ExpSpec(b, a)
    case 0x0B => SignExtend(a, b)
    case 0x10 => BitAnd(a, b)
    case 0x11 => BitOr(a, b)
    case 0x12 => BitXor(a, b)
    case 0x13 => Slt(b, a)
    case 0x14 => Bool(a == b)
    case 0x16 => Bool(a < b)
    case 0x17 => Bool(a > b)
    case 0x18 => Slt(a, b)
    case 0x1A => Byte(a, b)
    case 0x1B => Shl(b, a)
    case 0x1C => Shr(b, a)
    case _ => Sar(b, a)
  }

  /** The modulus is popped first, then b, then a. */
  function Alu3(op: byte, m: nat, b: nat, a: nat): int {
    if op == 0x08 then Mod(a + b, m) else Mod(a * b, m)
  }

  function ExecAlu(env: Env, s: State, op: byte): (r: (State, Flow))
    ensures Keeps(env, s, r.0, r.1)
    ensures Wf(s) ==> Wf(r.0)
  {
    if IsAlu1(op) then
      if |s.stack| < 1 then Underflow(s)
      else (Push(Popped(s, 1), Alu1(op, Top(s, 0))), FallThrough)
    else if IsAlu2(op) then
      if |s.stack| < 2 then Underflow(s)
      else (Push(Popped(s, 2), Alu2(op, Top(s, 0), Top(s, 1))), FallThrough)
    else
      if |s.stack| < 3 then Underflow(s)
      else (Push(Popped(s, 3), Alu3(op, Top(s, 0), Top(s, 1), Top(s, 2))), FallThrough)
  }

  predicate IsStackOp(op: byte) {
    op == 0x50 || 0x80 <= op <= 0x9F
  }

  /** POP, DUP1-16 and SWAP1-16. A failed DUP or SWAP leaves the stack as it was. */
  function ExecStack(env: Env, s: State, op: byte): (r: (State, Flow))
    requires IsStackOp(op)
    ensures Keeps(env, s, r.0, r.1)
    ensures Wf(s) ==> Wf(r.0)
  {
    if op == 0x50 then
      if |s.stack| < 1 then Underflow(s) else (Popped(s, 1), FallThrough)
    else if op <= 0x8F then
      var n := op as nat - 0x7F;
      if n > |s.stack| then (s, Raised(StackUnderflow))
      else (s.(stack := s.stack + [Top(s, n - 1)]), FallThrough)
    else
      var n := op as nat - 0x8F;
      if n >= |s.stack| then (s, Raised(StackUnderflow))
      else
        var top := |s.stack| - 1;
        (s.(stack := s.stack[top := s.stack[top - n]][top - n := s.stack[top]]), FallThrough)
  }

  // ------------------------------------------------------- environment queries

  predicate IsEnvWord(op: byte) {
    || op == 0x30 || 0x32 <= op <= 0x34 || op == 0x36 || op == 0x38 || op == 0x3A || op == 0x3D
    || 0x41 <= op <= 0x46 || op == 0x48 || op == 0x4A || 0x58 <= op <= 0x5A || op == 0x5F
  }

  function RoundUp32(n: nat): nat {
    (n + 31) / 32 * 32
  }

  /** The opcodes that push one value and call nobody. */
  function EnvWord(env: Env, s: State, op: byte): int {
    match op
    case 0x30 => env.ctx.address
    case 0x32 => env.ctx.origin
    case 0x33 => env.ctx.caller
    case 0x34 => env.ctx.value
    case 0x36 => |env.ctx.calldata|
    case 0x38 => |env.code|
    case 0x3A => env.ctx.gasPrice
    case 0x3D => |s.ret|
    case 0x41 => env.ctx.coinbase
    case 0x42 => env.ctx.timestamp
    case 0x43 => env.ctx.blockNumber
    case 0x44 => env.ctx.difficulty
    case 0x45 => env.gasLimit
    case 0x46 => env.ctx.chainId
    case 0x48 => env.ctx.baseFee
    case 0x4A => env.ctx.blobBaseFee
    case 0x58 => s.pc
    case 0x59 => RoundUp32(|s.mem|)
    case 0x5A => if env.gasLimit <= s.gasUsed then 0 else env.gasLimit - s.gasUsed
    case _ => 0
  }

  predicate IsQuery(op: byte) {
    op == 0x31 || op == 0x35 || op == 0x3B || op == 0x3F || op == 0x40 || op == 0x47 || op == 0x49
  }

  /** Asks a callback of one argument, or answers 0 when there is none. */
  function Ask(env: Env, s: State, callback: Option<(nat, nat) -> Answer<int>>, arg: nat): (r: (State, Flow))
    ensures Keeps(env, s, r.0, r.1)
    ensures Wf(s) ==> Wf(r.0)
  {
    match callback
    case None => (Push(s, 0), FallThrough)
    case Some(f) =>
      match f(s.calls, arg)
      case Threw => (Called(s), Raised(HostError))
      case Reply(v) => (Push(Called(s), v), FallThrough)
  }

  /** EXTCODEHASH: size first, then the code, then its digest. */
  function AskCodeHash(env: Env, s: State, addr: nat): (r: (State, Flow))
    ensures Keeps(env, s, r.0, r.1)
    ensures Wf(s) ==> Wf(r.0)
  {
    if env.host.codeSizeOf.None? || env.host.codeCopyOf.None? then (Push(s, 0), FallThrough)
    else
      match env.host.codeSizeOf.value(s.calls, addr)
      case Threw => (Called(s), Raised(HostError))
      case Reply(size) =>
        if size <= 0 then (Push(Called(s), 0), FallThrough)
        else
          match env.host.codeCopyOf.value(s.calls + 1, addr, 0, size)
          case Threw => (Called(Called(s)), Raised(HostError))
          case Reply(code) =>
            (Push(Called(Called(s)), if code == [] then 0 else env.keccak(code)), FallThrough)
  }

  /** The queries that pop their argument. */
  function ExecQuery(env: Env, t: State, op: byte, a: nat): (r: (State, Flow))
    ensures Keeps(env, t, r.0, r.1)
    ensures Wf(t) ==> Wf(r.0)
  {
    match op
    case 0x31 => Ask(env, t, env.host.balanceOf, Address(a))
    case 0x35 => (Push(t, ReadWord(env.ctx.calldata, a)), FallThrough)
    case 0x3B => Ask(env, t, env.host.codeSizeOf, Address(a))
    case 0x3F => AskCodeHash(env, t, Address(a))
    case 0x40 => Ask(env, t, env.host.blockHashOf, a)
    case _ => (Push(t, if a < |env.ctx.blobHashes| then env.ctx.blobHashes[a] else 0), FallThrough)
  }

  function ExecEnv(env: Env, s: State, op: byte): (r: (State, Flow))
    requires IsEnvWord(op) || IsQuery(op)
    ensures Keeps(env, s, r.0, r.1)
    ensures Wf(s) ==> Wf(r.0)
  {
    if IsEnvWord(op) then (Push(s, EnvWord(env, s, op)), FallThrough)
    else if op == 0x47 then
      if env.ctx.hasAddress then Ask(env, s, env.host.balanceOf, Address(Mask(env.ctx.address)))
      else (Push(s, 0), FallThrough)
    else if |s.stack| < 1 then Underflow(s)
    else ExecQuery(env, Popped(s, 1), op, Top(s, 0))
  }

  // ----------------------------------------------------------- memory, storage

  predicate IsMemory(op: byte) {
    op == 0x20 || op == 0x37 || op == 0x39 || op == 0x3C || op == 0x3E || 0x51 <= op <= 0x53 || op == 0x5E
  }

  /** A second, size-dependent charge inside an instruction body. */
  function ChargeExtra(env: Env, s: State, cost: nat): (State, Flow) {
    if s.gasUsed + cost > env.gasLimit then (s, Raised(OutOfGas))
    else (s.(gasUsed := s.gasUsed + cost), FallThrough)
  }

  function ExecCopy(env: Env, s: State, op: byte): (r: (State, Flow))
    requires op == 0x37 || op == 0x39 || op == 0x3E
    ensures Keeps(env, s, r.0, r.1)
    ensures Wf(s) ==> Wf(r.0)
  {
    if |s.stack| < 3 then Underflow(s)
    else
      var dest, offset, size := Top(s, 0), Top(s, 1), Top(s, 2);
      var src := if op == 0x37 then env.ctx.calldata else if op == 0x39 then env.code else s.ret;
      (Popped(s, 3).(mem := CopyIn(s.mem, dest, src, offset, size)), FallThrough)
  }

  /** The rest of EXTCODECOPY once its operands are popped. */
  function CopyExtCode(env: Env, t: State, codeOffset: nat, memOffset: nat, size: nat, who: nat): (r: (State, Flow))
    ensures Keeps(env, t, r.0, r.1)
    ensures Wf(t) ==> Wf(r.0)
  {
    match env.host.codeCopyOf
    case None => (t.(mem := CopyIn(t.mem, memOffset, [], 0, size)), FallThrough)
    case Some(f) =>
      match f(t.calls, Address(who), codeOffset, size)
      case Threw => (Called(t), Raised(HostError))
      case Reply(chunk) => (Called(t).(mem := CopyIn(t.mem, memOffset, chunk, 0, size)), FallThrough)
  }

  function ExecExtCodeCopy(env: Env, s: State): (r: (State, Flow))
    ensures Keeps(env, s, r.0, r.1)
    ensures Wf(s) ==> Wf(r.0)
  {
    if |s.stack| < 4 then Underflow(s)
    else CopyExtCode(env, Popped(s, 4), Top(s, 0), Top(s, 1), Top(s, 2), Top(s, 3))
  }

  /** MCOPY pops length, source, destination, in that order. The charge inside its body
      names the opcode again, and so adds its base price a second time. */
  function ExecMCopy(env: Env, s: State): (r: (State, Flow))
    ensures Keeps(env, s, r.0, r.1)
    ensures Wf(s) ==> Wf(r.0)
  {
    if |s.stack| < 3 then Underflow(s)
    else
      var size, src, dest := Top(s, 0), Top(s, 1), Top(s, 2);
      var (t, flow) := ChargeExtra(env, Popped(s, 3), GasCost(0x5E) + 3 * ((size + 31) / 32));
      if flow.Raised? then (t, flow)
      else (t.(mem := CopyWithin(s.mem, dest, src, size)), FallThrough)
  }

  function ExecMemory(env: Env, s: State, op: byte): (r: (State, Flow))
    requires IsMemory(op)
    ensures Keeps(env, s, r.0, r.1)
    ensures Wf(s) ==> Wf(r.0)
  {
    if op == 0x51 then
      if |s.stack| < 1 then Underflow(s)
      else
        var offset := Top(s, 0);
        var t := Popped(s, 1).(mem := Extend(s.mem, offset, 32));
        (Push(t, ReadWord(t.mem, offset)), FallThrough)
    else if op == 0x20 then
      if |s.stack| < 2 then Underflow(s)
      else
        var offset, size := Top(s, 0), Top(s, 1);
        var t := Popped(s, 2).(mem := Extend(s.mem, offset, size));
        (Push(t, env.keccak(Slice(t.mem, offset, size))), FallThrough)
    else if op == 0x52 || op == 0x53 then
      if |s.stack| < 2 then Underflow(s)
      else
        var offset, value := Top(s, 0), Top(s, 1);
        (Popped(s, 2).(mem := if op == 0x52 then WriteWord(s.mem, offset, value)
                              else WriteByte(s.mem, offset, value)), FallThrough)
    else if op == 0x3C then ExecExtCodeCopy(env, s)
    else if op == 0x5E then ExecMCopy(env, s)
    else ExecCopy(env, s, op)
  }

  predicate IsStorage(op: byte) {
    op == 0x54 || op == 0x55 || op == 0x5C || op == 0x5D
  }

  function ExecStorage(env: Env, s: State, op: byte): (r: (State, Flow))
    requires IsStorage(op)
    ensures Keeps(env, s, r.0, r.1)
    ensures Wf(s) ==> Wf(r.0)
  {
    if op == 0x54 || op == 0x5C then
      if |s.stack| < 1 then Underflow(s)
      else (Push(Popped(s, 1), Load(if op == 0x54 then s.storage else s.transient, Top(s, 0))), FallThrough)
    else if |s.stack| < 2 then Underflow(s)
    else
      var key, value, t := Top(s, 0), Top(s, 1), Popped(s, 2);
      if op == 0x55 then (t.(storage := Store(s.storage, key, value)), FallThrough)
      else (t.(transient := Store(s.transient, key, value)), FallThrough)
  }

  // ------------------------------------------------------------------- control

  predicate IsControl(op: byte) {
    op == 0x56 || op == 0x57 || op == 0x5B || op == 0xF3 || op == 0xFD || op == 0xFE || op == 0xFF
  }

  function Jump(env: Env, s: State, dest: nat): (State, Flow) {
    if ValidDest(env.code, dest) then (s.(pc := dest), Jumped) else (s, Raised(InvalidJump))
  }

  /** RETURN, and REVERT when it reverts. */
  function ExecReturn(env: Env, s: State, reverts: bool): (r: (State, Flow))
    ensures Keeps(env, s, r.0, r.1) && (r.1.Stopped? || r.1.Raised?)
    ensures Wf(s) ==> Wf(r.0)
  {
    if |s.stack| < 2 then Underflow(s)
    else
      var offset, size := Top(s, 0), Top(s, 1);
      var t := Popped(s, 2).(mem := Extend(s.mem, offset, size));
      (t.(ret := Slice(t.mem, offset, size), reverted := s.reverted || reverts, running := false), Stopped)
  }

  function ExecSelfDestruct(env: Env, s: State): (r: (State, Flow))
    ensures Keeps(env, s, r.0, r.1)
    ensures Wf(s) ==> Wf(r.0)
  {
    if |s.stack| < 1 then Underflow(s)
    else
      match env.host.selfDestruct
      case None => (Popped(s, 1).(running := false), Stopped)
      case Some(f) =>
        match f(s.calls, Address(Top(s, 0)))
        case Threw => (Called(Popped(s, 1)), Raised(HostError))
        case Reply(_) => (Called(Popped(s, 1)).(running := false), Stopped)
  }

  function ExecControl(env: Env, s: State, op: byte): (r: (State, Flow))
    requires IsControl(op)
    ensures Keeps(env, s, r.0, r.1)
    ensures Wf(s) ==> Wf(r.0)
    ensures op == 0xF3 || op == 0xFD ==> r.1.Stopped? || r.1.Raised?
  {
    if op == 0x5B then (s, FallThrough)
    else if op == 0xFE then (s, Raised(InvalidOpcode))
    else if op == 0x56 then
      if |s.stack| < 1 then Underflow(s) else Jump(env, Popped(s, 1), Top(s, 0))
    else if op == 0x57 then
      if |s.stack| < 2 then Underflow(s)
      else if Top(s, 1) != 0 then Jump(env, Popped(s, 2), Top(s, 0))
      else (Popped(s, 2), FallThrough)
    else if op == 0xFF then ExecSelfDestruct(env, s)
    else ExecReturn(env, s, op == 0xFD)
  }

  // ----------------------------------------------------------------- host calls

  /** Topics in push order: the list built by the pops is reversed. */
  function Topics(s: State, n: nat): seq<nat>
    requires n <= |s.stack|
  {
    s.stack[|s.stack| - n..]
  }

  /** The rest of a log once its operands are popped: the whole price is charged here. */
  function LogAt(env: Env, s: State, topics: seq<nat>, size: nat, offset: nat): (r: (State, Flow))
    ensures Keeps(env, s, r.0, r.1)
    ensures Wf(s) ==> Wf(r.0)
    ensures r.1.FallThrough? ==> r.0.gasUsed >= s.gasUsed + LOG_GAS && r.0.gasUsed <= env.gasLimit
    ensures !r.1.Jumped? && !r.1.Stopped?
  {
    var (t, flow) := ChargeExtra(env, s, LOG_GAS + |topics| * 375 + size);
    if flow.Raised? then (t, flow)
    else
      var u := t.(mem := Extend(s.mem, offset, size));
      var data := Slice(u.mem, offset, size);
      var logged := u.logs + [LogEntry(topics, data)];
      match env.host.emitLog
      case None => (u.(logs := logged), FallThrough)
      case Some(f) =>
        match f(s.calls, topics, data)
        case Threw => (Called(u), Raised(HostError))
        case Reply(_) => (Called(u).(logs := logged), FallThrough)
  }

  /** LOG0-LOG4 pop the topics, then the size, then the offset. */
  function ExecLog(env: Env, s: State, op: byte): (r: (State, Flow))
    requires IsLog(op)
    ensures Keeps(env, s, r.0, r.1)
    ensures Wf(s) ==> Wf(r.0)
    ensures r.1.FallThrough? ==> r.0.gasUsed >= s.gasUsed + LOG_GAS && r.0.gasUsed <= env.gasLimit
    ensures !r.1.Jumped? && !r.1.Stopped?
  {
    var n := op as nat - 0xA0;
    if |s.stack| < n + 2 then Underflow(s)
    else LogAt(env, Popped(s, n + 2), Topics(s, n), Top(s, n), Top(s, n + 1))
  }

  /** _charge_subcall_gas adds first and complains afterwards. */
  function ChargeSubcall(env: Env, s: State, gas: int): (r: (State, Flow))
    ensures Keeps(env, s, r.0, r.1)
    ensures r.0 == s.(gasUsed := r.0.gasUsed)
  {
    if gas <= 0 then (s, FallThrough)
    else
      var t := s.(gasUsed := s.gasUsed + gas);
      (t, if t.gasUsed > env.gasLimit then Raised(OutOfGas) else FallThrough)
  }

  function Remaining(env: Env, s: State): nat {
    if env.gasLimit <= s.gasUsed then 0 else env.gasLimit - s.gasUsed
  }

  function Min(a: int, b: int): int {
    if a <= b then a else b
  }

  /** evm_plan_nested_call_gas: 63/64 of what remains, capped by the request when
      there is one, plus the stipend for a value transfer. */
  function CallGas(remaining: nat, requested: nat, value: nat, kind: CallKind): (g: nat)
    ensures g <= remaining
  {
    var base := if requested > 0 then Min(remaining * 63 / 64, requested) else remaining * 63 / 64;
    if value > 0 && (kind.Call? || kind.CallCode?) then Min(remaining, base + 2300) else base
  }

  datatype CallArgs = CallArgs(kind: CallKind, gas: nat, to: nat, value: nat, argsOffset: nat, argsSize: nat,
                               retOffset: nat, retSize: nat)

  /** Return data, the storage a DELEGATECALL or CALLCODE hands back, the copy into
      the return window, and the success flag. */
  function ReturnFromCall(s: State, a: CallArgs, out: CallReply): (t: State)
    ensures t.gasUsed == s.gasUsed && |s.mem| <= |t.mem|
    ensures t.running == s.running && t.reverted == s.reverted && t.pc == s.pc
    ensures Wf(s) && (out.storage.Some? ==> WfStore(out.storage.value)) ==> Wf(t)
  {
    var rebinds := (a.kind.DelegateCall? || a.kind.CallCode?) && out.storage.Some?;
    var t := s.(
      ret := out.returnData,
      storage := if rebinds then out.storage.value else s.storage,
      mem := CopyIn(s.mem, a.retOffset, out.returnData, 0, a.retSize));
    Push(t, Bool(out.success && !out.reverted))
  }

  /** What follows the callback's answer: the capped charge, then the results. */
  function FinishCall(env: Env, s: State, a: CallArgs, gas: nat, out: CallReply): (r: (State, Flow))
    ensures Keeps(env, s, r.0, r.1)
    ensures Wf(s) && (out.storage.Some? ==> WfStore(out.storage.value)) ==> Wf(r.0)
  {
    var (u, flow) := ChargeSubcall(env, s, Min(out.gasUsed, gas));
    if flow.Raised? then (u, flow) else (ReturnFromCall(u, a, out), FallThrough)
  }

  /** _execute_call followed by the push of its result. */
  function ExecuteCall(env: Env, s: State, a: CallArgs): (r: (State, Flow))
    ensures Keeps(env, s, r.0, r.1)
    ensures Wf(s) && HostOk(env) ==> Wf(r.0)
  {
    match env.host.contractCall
    case None => (Push(s.(ret := []), 0), FallThrough)
    case Some(f) =>
      var t := s.(mem := Extend(s.mem, a.argsOffset, a.argsSize));
      var data := Slice(t.mem, a.argsOffset, a.argsSize);
      var gas := CallGas(Remaining(env, s), a.gas, a.value, a.kind);
      match f(s.calls, CallRequest(Address(a.to), data, a.value, gas, a.kind))
      case Threw => (Called(t), Raised(HostError))
      case Reply(out) => FinishCall(env, Called(t), a, gas, out)
  }

  predicate IsCall(op: byte) {
    op == 0xF1 || op == 0xF2 || op == 0xF4 || op == 0xFA
  }

  function KindOf(op: byte): CallKind {
    match op
    case 0xF1 => Call
    case 0xF2 => CallCode
    case 0xF4 => DelegateCall
    case _ => StaticCall
  }

  /** CALL and CALLCODE pop seven words, DELEGATECALL and STATICCALL six. */
  function CallArity(op: byte): nat {
    if op == 0xF1 || op == 0xF2 then 7 else 6
  }

  /** gas, target, value if the kind has one, then the argument and return windows. */
  function CallArgsOf(s: State, op: byte): CallArgs
    requires IsCall(op) && |s.stack| >= CallArity(op)
  {
    if CallArity(op) == 7 then
      CallArgs(KindOf(op), Top(s, 0), Top(s, 1), Top(s, 2), Top(s, 3), Top(s, 4), Top(s, 5), Top(s, 6))
    else
      CallArgs(KindOf(op), Top(s, 0), Top(s, 1), 0, Top(s, 2), Top(s, 3), Top(s, 4), Top(s, 5))
  }

  function ExecCall(env: Env, s: State, op: byte): (r: (State, Flow))
    requires IsCall(op)
    ensures Keeps(env, s, r.0, r.1)
    ensures Wf(s) && HostOk(env) ==> Wf(r.0)
  {
    if |s.stack| < CallArity(op) then Underflow(s)
    else ExecuteCall(env, Popped(s, CallArity(op)), CallArgsOf(s, op))
  }

  /** What follows the callback's answer; the charge is not capped. */
  function FinishCreate(env: Env, s: State, out: CreateReply): (r: (State, Flow))
    ensures Keeps(env, s, r.0, r.1)
    ensures Wf(s) ==> Wf(r.0)
  {
    var (u, flow) := ChargeSubcall(env, s, out.gasUsed);
    if flow.Raised? then (u, flow)
    else (Push(u, if !out.success || out.reverted then 0 else out.address), FallThrough)
  }

  /** _execute_create followed by the push of its result. */
  function ExecuteCreate(env: Env, s: State, value: nat, offset: nat, size: nat, salt: Option<nat>): (r: (State, Flow))
    ensures Keeps(env, s, r.0, r.1)
    ensures Wf(s) ==> Wf(r.0)
  {
    match env.host.contractCreate
    case None => (Push(s, 0), FallThrough)
    case Some(f) =>
      var t := s.(mem := Extend(s.mem, offset, size));
      match f(s.calls, Slice(t.mem, offset, size), value, salt)
      case Threw => (Called(t), Raised(HostError))
      case Reply(out) => FinishCreate(env, Called(t), out)
  }

  predicate IsCreate(op: byte) {
    op == 0xF0 || op == 0xF5
  }

  /** CREATE pops size, offset, value; CREATE2 pops the salt before them. */
  function ExecCreate(env: Env, s: State, op: byte): (r: (State, Flow))
    requires IsCreate(op)
    ensures Keeps(env, s, r.0, r.1)
    ensures Wf(s) ==> Wf(r.0)
  {
    if op == 0xF0 then
      if |s.stack| < 3 then Underflow(s)
      else ExecuteCreate(env, Popped(s, 3), Top(s, 2), Top(s, 1), Top(s, 0), None)
    else
      if |s.stack| < 4 then Underflow(s)
      else ExecuteCreate(env, Popped(s, 4), Top(s, 3), Top(s, 2), Top(s, 1), Some(Top(s, 0)))
  }

  // ------------------------------------------------------------------ dispatch

  /** PUSH1-PUSH32: the immediate, zero-padded at the end of the code; pc moves
      onto its last byte. */
  function ExecPush(env: Env, s: State, op: byte): State
    requires 0x60 <= op <= 0x7F
  {
    var n := PushSize(op);
    Push(s, FromBytes(Slice(env.code, s.pc + 1, n))).(pc := s.pc + n)
  }

  /** Every opcode except STOP and PUSH. */
  function Exec(env: Env, s: State, op: byte): (r: (State, Flow))
    ensures Keeps(env, s, r.0, r.1)
    ensures Wf(s) && HostOk(env) ==> Wf(r.0)
    ensures IsLog(op) && r.1.FallThrough? ==> r.0.gasUsed >= s.gasUsed + LOG_GAS && r.0.gasUsed <= env.gasLimit
    ensures IsLog(op) ==> !r.1.Jumped? && !r.1.Stopped?
    ensures op == 0xF3 || op == 0xFD ==> r.1.Stopped? || r.1.Raised?
  {
    if IsAlu1(op) || IsAlu2(op) || IsAlu3(op) then ExecAlu(env, s, op)
    else if IsStackOp(op) then ExecStack(env, s, op)
    else if IsEnvWord(op) || IsQuery(op) then ExecEnv(env, s, op)
    else if IsMemory(op) then ExecMemory(env, s, op)
    else if IsStorage(op) then ExecStorage(env, s, op)
    else if IsControl(op) then ExecControl(env, s, op)
    else if IsLog(op) then ExecLog(env, s, op)
    else if IsCall(op) then ExecCall(env, s, op)
    else if IsCreate(op) then ExecCreate(env, s, op)
    else (s, Raised(UnsupportedOpcode))
  }

  /** LOG0-LOG4 are charged in their own body. */
  function BaseCost(op: byte): nat {
    if IsLog(op) then 0 else GasCost(op)
  }

  predicate Affordable(env: Env, s: State)
    requires s.pc < |env.code|
  {
    IsLog(env.code[s.pc]) || s.gasUsed + BaseCost(env.code[s.pc]) <= env.gasLimit
  }

  datatype Outcome = Running(s: State) | Done(s: State) | Failed(s: State, error: Error)

  /** The part of a turn after the base charge. */
  function Perform(env: Env, t: State, op: byte): (o: Outcome)
    ensures t.gasUsed <= o.s.gasUsed && |t.mem| <= |o.s.mem|
    ensures !o.Failed? && t.gasUsed <= env.gasLimit ==> o.s.gasUsed <= env.gasLimit
    ensures o.Running? ==> o.s.running == t.running && o.s.reverted == t.reverted
    ensures o.Running? && IsLog(op) ==> t.gasUsed < o.s.gasUsed <= env.gasLimit
    ensures o.Running? && !IsLog(op) ==> GasCost(op) > 0
    ensures o.Done? ==> !o.s.running
    ensures Wf(t) && HostOk(env) ==> Wf(o.s)
  {
    if op == 0x00 then Done(t.(running := false))
    else if 0x60 <= op <= 0x7F then
      var u := ExecPush(env, t, op);
      Running(u.(pc := u.pc + 1))
    else
      var (u, flow) := Exec(env, t, op);
      match flow
      case FallThrough => Running(u.(pc := u.pc + 1))
      case Jumped => Running(u)
      case Stopped => Done(u)
      case Raised(e) => Failed(u, e)
  }

  /** One turn of the loop body. Gas strictly grows, and within the limit,
      whenever the loop goes round again. */
  function Step(env: Env, s: State): (o: Outcome)
    requires s.pc < |env.code|
    ensures !Affordable(env, s) ==> o == Failed(s, OutOfGas)
    ensures s.gasUsed <= o.s.gasUsed
    ensures o.Running? ==> s.gasUsed < o.s.gasUsed <= env.gasLimit
    ensures o.Running? ==> o.s.running == s.running && o.s.reverted == s.reverted
    ensures o.Done? ==> !o.s.running && (s.gasUsed <= env.gasLimit ==> o.s.gasUsed <= env.gasLimit)
    ensures |s.mem| <= |o.s.mem|
    ensures Wf(s) && HostOk(env) ==> Wf(o.s)
  {
    var op := env.code[s.pc];
    if !Affordable(env, s) then Failed(s, OutOfGas)
    else Perform(env, s.(gasUsed := s.gasUsed + BaseCost(op)), op)
  }
}

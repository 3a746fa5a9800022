/** Instruction boundaries and the bit-packed jump table
    (crypto/native.py, lines 843-866), against the definition of valid jump
    destinations in section 9.4.3 of the Ethereum Yellow Paper. */
module Jumpdest {
  import opened Words

  const JUMPDEST: byte := 0x5B

  function PushSize(op: byte): nat {
    if 0x60 <= op <= 0x7F then op as nat - 0x5F else 0
  }

  /** N(i, w): the next valid instruction position, skipping PUSH data. */
  function NextInstr(code: seq<byte>, i: nat): (j: nat)
    requires i < |code|
    ensures j > i
  {
    i + 1 + PushSize(code[i])
  }

  /** i is reached by walking instructions from position `from`. */
  predicate WalkReaches(code: seq<byte>, from: nat, i: nat)
    decreases i - from
  {
    from == i || (from < i && from < |code| && WalkReaches(code, NextInstr(code, from), i))
  }

  /** i holds an opcode, not immediate data of an earlier PUSH. */
  predicate IsInstrStart(code: seq<byte>, i: nat) {
    i < |code| && WalkReaches(code, 0, i)
  }

  /** D_J(c, i) of the Yellow Paper. */
  ghost function ValidDests(code: seq<byte>, i: nat): set<nat>
    decreases |code| - i
  {
    if i >= |code| then {}
    else if code[i] == JUMPDEST then {i} + ValidDests(code, NextInstr(code, i))
    else ValidDests(code, NextInstr(code, i))
  }

  lemma {:induction false} ValidDestsAreStarts(code: seq<byte>, from: nat, d: nat)
    ensures d in ValidDests(code, from) <==> d < |code| && code[d] == JUMPDEST && WalkReaches(code, from, d)
    decreases |code| - from
  {
    if from < |code| {
      ValidDestsAreStarts(code, NextInstr(code, from), d);
    }
  }

  lemma {:induction false} WalkExtends(code: seq<byte>, from: nat, i: nat)
    requires WalkReaches(code, from, i) && i < |code|
    ensures WalkReaches(code, from, NextInstr(code, i))
    decreases i - from
  {
    if from < i {
      WalkExtends(code, NextInstr(code, from), i);
    } else {
      assert WalkReaches(code, NextInstr(code, i), NextInstr(code, i));
    }
  }

  /** Two walks from one place meet: a reached position is never inside an
      instruction that another reached position starts. */
  lemma {:induction false} WalkSkips(code: seq<byte>, from: nat, i: nat, j: nat)
    requires WalkReaches(code, from, i) && i < |code|
    requires i < j < NextInstr(code, i)
    ensures !WalkReaches(code, from, j)
    decreases i - from
  {
    if from < i {
      WalkSkips(code, NextInstr(code, from), i, j);
    }
  }

  /** Bit d of the packed table, as evm_is_jumpdest reads it. */
  function Bit(table: seq<bv8>, d: nat): bool
    requires d / 8 < |table|
  {
    (table[d / 8] >> (d % 8)) & 1 == 1
  }

  function IsJumpdest(table: seq<bv8>, dest: nat, codeLen: nat): bool
    requires (codeLen + 7) / 8 == |table|
  {
    dest < codeLen && Bit(table, dest)
  }

  lemma SetBit(b: bv8, j: nat, k: nat)
    requires j < 8 && k < 8
    ensures (((b | (1 << j)) >> k) & 1 == 1) <==> (j == k || ((b >> k) & 1 == 1))
  {
  }

  lemma ZeroBits(k: nat)
    requires k < 8
    ensures (0 as bv8 >> k) & 1 != 1
  {
  }

  /** Setting one bit of the packed table marks one position. */
  lemma MarkBit(table: seq<bv8>, pc: nat, codeLen: nat)
    requires |table| == (codeLen + 7) / 8 && pc < codeLen
    ensures forall d: nat :: d < codeLen ==>
      (Bit(table[pc / 8 := table[pc / 8] | (1 << (pc % 8))], d) <==> d == pc || Bit(table, d))
  {
    var after := table[pc / 8 := table[pc / 8] | (1 << (pc % 8))];
    forall d: nat | d < codeLen ensures Bit(after, d) <==> d == pc || Bit(table, d) {
      if d / 8 == pc / 8 {
        SetBit(table[pc / 8], pc % 8, d % 8);
      }
    }
  }

  lemma WalkStart(code: seq<byte>)
    ensures WalkReaches(code, 0, 0)
  {
  }

  /** evm_build_jumpdest_table: the packed table marks exactly the valid
      destinations of the Yellow Paper. */
  method BuildJumpdestTable(code: seq<byte>) returns (table: seq<bv8>)
    ensures |table| == (|code| + 7) / 8
    ensures forall d: nat :: IsJumpdest(table, d, |code|) <==> d in ValidDests(code, 0)
  {
    hide ValidDests, WalkReaches;
    table := seq((|code| + 7) / 8, _ => 0);
    var pc := 0;
    WalkStart(code);
    forall d: nat | d < |code| ensures !Bit(table, d) {
      ZeroBits(d % 8);
    }
    while pc < |code|
      invariant |table| == (|code| + 7) / 8
      invariant WalkReaches(code, 0, pc)
      invariant forall d: nat :: d < |code| ==>
        (Bit(table, d) <==> d < pc && code[d] == JUMPDEST && WalkReaches(code, 0, d))
      decreases |code| - pc
    {
      var op := code[pc];
      if op == JUMPDEST {
        ghost var before := table;
        MarkBit(table, pc, |code|);
        table := table[pc / 8 := table[pc / 8] | (1 << (pc % 8))];
        assert forall d: nat :: d < |code| ==> (Bit(table, d) <==> d == pc || Bit(before, d));
      }
      WalkExtends(code, 0, pc);
      forall d: nat | pc < d < NextInstr(code, pc) ensures !WalkReaches(code, 0, d) {
        WalkSkips(code, 0, pc, d);
      }
      pc := if 0x60 <= op <= 0x7F then pc + 1 + (op as nat - 0x5F) else pc + 1;
    }
    forall d: nat ensures IsJumpdest(table, d, |code|) <==> d in ValidDests(code, 0) {
      ValidDestsAreStarts(code, 0, d);
    }
  }
}

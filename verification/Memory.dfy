/** The byte-addressed scratch memory of the interpreter: zero-extended on every
    touch (evm_interpreter.py, lines 113-138) and read or written through the
    byte-window helpers of crypto/native.py (lines 684-692, 809-827, 887-896,
    1881-1892). */
module Memory {
  import opened Words

  function Zeros(n: nat): (z: seq<byte>)
    ensures |z| == n
    ensures forall i :: 0 <= i < n ==> z[i] == 0
  {
    seq(n, _ => 0)
  }

  /** _mem_extend: even a window of size zero stretches the memory to its offset. */
  function Extend(m: seq<byte>, offset: nat, size: nat): (r: seq<byte>)
    ensures |r| == if offset + size > |m| then offset + size else |m|
    ensures m <= r
    ensures forall i :: |m| <= i < |r| ==> r[i] == 0
  {
    if offset + size > |m| then m + Zeros(offset + size - |m|) else m
  }

  /** The byte at an address, zero beyond the end. */
  function At(m: seq<byte>, i: nat): byte {
    if i < |m| then m[i] else 0
  }

  /** evm_memory_slice: size bytes from offset, zero-padded. */
  function Slice(m: seq<byte>, offset: nat, size: nat): (r: seq<byte>)
    ensures |r| == size
    ensures forall i :: 0 <= i < size ==> r[i] == At(m, offset + i)
  {
    seq(size, i requires 0 <= i < size => At(m, offset + i))
  }

  /** Overwrites the window starting at dest, which must already exist. */
  function Splice(m: seq<byte>, dest: nat, data: seq<byte>): (r: seq<byte>)
    requires dest + |data| <= |m|
    ensures |r| == |m|
    ensures r[dest..dest + |data|] == data
    ensures forall i :: 0 <= i < |m| && !(dest <= i < dest + |data|) ==> r[i] == m[i]
  {
    var r := m[..dest] + data + m[dest + |data|..];
    assert r[dest..dest + |data|] == data;
    r
  }

  function ReadWord(m: seq<byte>, offset: nat): nat {
    FromBytes(Slice(m, offset, 32))
  }

  function WriteWord(m: seq<byte>, offset: nat, value: nat): seq<byte> {
    Splice(Extend(m, offset, 32), offset, ToBytes(value, 32))
  }

  function WriteByte(m: seq<byte>, offset: nat, value: nat): seq<byte> {
    Splice(Extend(m, offset, 1), offset, [(value % 256) as byte])
  }

  /** Extends, then copies size bytes of src from srcOffset, zero-padding src. */
  function CopyIn(m: seq<byte>, dest: nat, src: seq<byte>, srcOffset: nat, size: nat): seq<byte> {
    Splice(Extend(m, dest, size), dest, Slice(src, srcOffset, size))
  }

  /** MCOPY: both windows are extended before the source bytes are taken. */
  function CopyWithin(m: seq<byte>, dest: nat, src: nat, size: nat): seq<byte> {
    var m' := Extend(Extend(m, dest, size), src, size);
    CopyIn(m', dest, m'[src..src + size], 0, size)
  }

  /** evm_memory_copy, byte by byte into an existing buffer (1881-1892): what falls behind
      its end is dropped. */
  method CopyLoop(mem: array<byte>, dest: nat, src: seq<byte>, srcOffset: nat, size: nat)
    modifies mem
    ensures mem.Length <= |CopyIn(old(mem[..]), dest, src, srcOffset, size)|
    ensures mem[..] == CopyIn(old(mem[..]), dest, src, srcOffset, size)[..mem.Length]
  {
    ghost var before := mem[..];
    for i := 0 to size
      invariant forall k :: 0 <= k < mem.Length ==>
        mem[k] == if dest <= k < dest + i then At(src, srcOffset + (k - dest)) else before[k]
    {
      if dest + i < mem.Length {
        mem[dest + i] := if srcOffset + i < |src| then src[srcOffset + i] else 0;
      }
    }
    ghost var want := CopyIn(before, dest, src, srcOffset, size);
    forall k | 0 <= k < mem.Length
      ensures mem[..][k] == want[k]
    {
      if dest <= k < dest + size {
        assert want[k] == want[dest..dest + size][k - dest];
      }
    }
  }

  /** Writing a word changes its 32-byte window and zero-fills the gap, nothing else. */
  lemma WriteWordWindow(m: seq<byte>, offset: nat, value: nat, i: nat)
    ensures At(WriteWord(m, offset, value), i)
      == if offset <= i < offset + 32 then ToBytes(value, 32)[i - offset] else At(m, i)
  {
    var r := WriteWord(m, offset, value);
    if offset <= i < offset + 32 {
      assert r[i] == r[offset..offset + 32][i - offset];
    }
  }

  /** MLOAD after MSTORE at the same offset returns the stored word. */
  lemma ReadAfterWrite(m: seq<byte>, offset: nat, value: nat)
    requires value < TWO_256
    ensures ReadWord(WriteWord(m, offset, value), offset) == value
  {
    var r := WriteWord(m, offset, value);
    assert Slice(r, offset, 32) == r[offset..offset + 32];
    WordRoundTrip(value);
  }

  /** A word read outside the written window is not disturbed. */
  lemma ReadAfterDisjointWrite(m: seq<byte>, offset: nat, other: nat, value: nat)
    requires other + 32 <= offset || offset + 32 <= other
    ensures ReadWord(WriteWord(m, offset, value), other) == ReadWord(m, other)
  {
    var r := WriteWord(m, offset, value);
    forall i | 0 <= i < 32
      ensures Slice(r, other, 32)[i] == Slice(m, other, 32)[i]
    {
      WriteWordWindow(m, offset, value, other + i);
    }
    assert Slice(r, other, 32) == Slice(m, other, 32);
  }

  /** MCOPY is memmove: every destination byte is the source byte from before the
      copy, however the two windows overlap, and every other byte is unchanged. */
  lemma CopyWithinIsMemmove(m: seq<byte>, dest: nat, src: nat, size: nat, i: nat)
    ensures At(CopyWithin(m, dest, src, size), i)
      == if dest <= i < dest + size then At(m, src + (i - dest)) else At(m, i)
  {
    var m' := Extend(Extend(m, dest, size), src, size);
    var r := CopyWithin(m, dest, src, size);
    if dest <= i < dest + size {
      assert r[i] == r[dest..dest + size][i - dest];
      assert m'[src..src + size][i - dest] == At(m, src + (i - dest));
    }
  }

  /** CALLDATACOPY, CODECOPY, RETURNDATACOPY and EXTCODECOPY, byte for byte. */
  lemma CopyInWindow(m: seq<byte>, dest: nat, src: seq<byte>, srcOffset: nat, size: nat, i: nat)
    ensures At(CopyIn(m, dest, src, srcOffset, size), i)
      == if dest <= i < dest + size then At(src, srcOffset + (i - dest)) else At(m, i)
  {
    var r := CopyIn(m, dest, src, srcOffset, size);
    if dest <= i < dest + size {
      assert r[i] == r[dest..dest + size][i - dest];
    }
  }
}

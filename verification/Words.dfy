/** 256-bit machine words and their big-endian byte representation
    (crypto/native.py, lines 509-840). Python integers are unbounded, so
    every wrap-around is written out. */
module Words {

  const TWO_256: int := 0x1_0000000000000000_0000000000000000_0000000000000000_0000000000000000
  const SIGN_BIT: int := 0x80000000_00000000_00000000_00000000_00000000_00000000_00000000_00000000

  newtype byte = x: int | 0 <= x < 256

  function Mask(v: int): (w: nat)
    ensures w < TWO_256
    ensures 0 <= v < TWO_256 ==> w == v
  {
    v % TWO_256
  }

  function Pow(b: int, e: nat): int {
    if e == 0 then 1 else b * Pow(b, e - 1)
  }

  lemma {:induction false} PowPositive(b: int, e: nat)
    requires b > 0
    ensures Pow(b, e) > 0
  {
    if e > 0 {
      PowPositive(b, e - 1);
    }
  }

  lemma {:induction false} PowAdd(b: int, m: nat, n: nat)
    ensures Pow(b, m + n) == Pow(b, m) * Pow(b, n)
  {
    if m > 0 {
      PowAdd(b, m - 1, n);
      calc {
        Pow(b, m + n);
        b * Pow(b, m - 1 + n);
        b * (Pow(b, m - 1) * Pow(b, n));
        Pow(b, m) * Pow(b, n);
      }
    }
  }

  lemma Pow256To32()
    ensures Pow(256, 32) == TWO_256
  {
    assert Pow(256, 1) == 256;
    PowAdd(256, 1, 1);
    PowAdd(256, 2, 2);
    PowAdd(256, 4, 4);
    PowAdd(256, 8, 8);
    PowAdd(256, 16, 16);
    hide Pow;
  }

  lemma Pow2To4()
    ensures Pow(2, 4) == 16
  {
    assert Pow(2, 2) == 4;
  }

  lemma Pow2To256()
    ensures Pow(2, 256) == TWO_256
  {
    hide Pow;
    Pow2To4();
    PowAdd(2, 4, 4);
    PowAdd(2, 8, 8);
    PowAdd(2, 16, 16);
    PowAdd(2, 32, 32);
    PowAdd(2, 64, 64);
    PowAdd(2, 128, 128);
  }

  lemma Pow256Is2To256()
    ensures Pow(256, 32) == TWO_256 && Pow(2, 256) == TWO_256
  {
    Pow256To32();
    Pow2To256();
    hide Pow;
  }

  /** int.from_bytes(bs, "big") */
  function FromBytes(bs: seq<byte>): (v: nat) {
    if bs == [] then 0 else 256 * FromBytes(bs[..|bs| - 1]) + bs[|bs| - 1] as int
  }

  /** v.to_bytes(n, "big"), keeping the low n bytes */
  function ToBytes(v: nat, n: nat): (bs: seq<byte>)
    ensures |bs| == n
  {
    if n == 0 then [] else ToBytes(v / 256, n - 1) + [(v % 256) as byte]
  }

  /** Writing a number as n bytes and reading it back keeps it modulo 256^n. */
  lemma {:induction false} BytesRoundTrip(v: nat, n: nat)
    ensures Pow(256, n) > 0 && FromBytes(ToBytes(v, n)) == v % Pow(256, n)
  {
    PowPositive(256, n);
    if n > 0 {
      BytesRoundTrip(v / 256, n - 1);
      var bs := ToBytes(v, n);
      assert bs[..n - 1] == ToBytes(v / 256, n - 1);
      var p := Pow(256, n - 1);
      assert FromBytes(bs) == 256 * ((v / 256) % p) + v % 256;
      ModSplit(v, p);
    } else {
      assert v % 1 == 0;
    }
  }

  lemma ModSplit(v: nat, p: int)
    requires p > 0
    ensures v % (256 * p) == 256 * ((v / 256) % p) + v % 256
  {
    var q := (v / 256) / p;
    var r := 256 * ((v / 256) % p) + v % 256;
    calc {
      v;
      256 * (v / 256) + v % 256;
      256 * (q * p + (v / 256) % p) + v % 256;
      q * (256 * p) + r;
    }
    assert r < 256 * p;
    ModUnique(v, 256 * p, q, r);
  }

  lemma MulAtLeast(k: int, m: int)
    requires k >= 1 && m > 0
    ensures k * m >= m
  {
    assert (k - 1) * m >= 0;
  }

  lemma ModUnique(a: int, m: int, q: int, r: int)
    requires m > 0 && 0 <= r < m && a == q * m + r
    ensures a % m == r && a / m == q
  {
    var d := q - a / m;
    assert d * m == a % m - r by {
      assert a == (a / m) * m + a % m;
      assert d * m == q * m - (a / m) * m;
    }
    if d >= 1 {
      MulAtLeast(d, m);
    } else if d <= -1 {
      MulAtLeast(-d, m);
    }
  }

  /** A 32-byte write followed by a 32-byte read returns the word. */
  lemma WordRoundTrip(v: nat)
    requires v < TWO_256
    ensures FromBytes(ToBytes(v, 32)) == v
  {
    hide FromBytes, ToBytes, Pow;
    Pow256Is2To256();
    BytesRoundTrip(v, 32);
  }
}

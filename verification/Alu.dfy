/** The arithmetic and logic kernel behind opcodes 0x01-0x1D
    (crypto/native.py, lines 520-806, and its Rust twin). Every function takes
    words and returns a word; the laws that follow tie the signed and the
    square-and-multiply forms to ordinary integer arithmetic. */
module Alu {
  import opened Words

  function ToSigned(a: int): int {
    if a >= SIGN_BIT then a - TWO_256 else a
  }

  function Abs(a: int): nat {
    if a < 0 then -a else a
  }

  /** Quotient rounded toward zero, as the 256-bit signed divide rounds. */
  function TruncDiv(a: int, b: int): int
    requires b != 0
  {
    if (a < 0) == (b < 0) then Abs(a) / Abs(b) else -(Abs(a) / Abs(b))
  }

  /** Remainder with the sign of the dividend. */
  function TruncMod(a: int, b: int): int
    requires b != 0
  {
    if a < 0 then -(Abs(a) % Abs(b)) else Abs(a) % Abs(b)
  }

  function Bool(b: bool): nat {
    if b then 1 else 0
  }

  function Div(a: nat, b: nat): nat {
    if b == 0 then 0 else a / b
  }

  function Mod(a: nat, b: nat): nat {
    if b == 0 then 0 else a % b
  }

  /** The one overflow, MIN / -1, wraps back to MIN through the mask. */
  function SDiv(a: nat, b: nat): nat {
    if Mask(b) == 0 then 0 else Mask(TruncDiv(ToSigned(Mask(a)), ToSigned(Mask(b))))
  }

  function SMod(a: nat, b: nat): nat {
    if Mask(b) == 0 then 0 else Mask(TruncMod(ToSigned(Mask(a)), ToSigned(Mask(b))))
  }

  function Slt(a: nat, b: nat): nat {
    var aNeg, bNeg := a >= SIGN_BIT, b >= SIGN_BIT;
    Bool(if aNeg == bNeg then a < b else aNeg)
  }

  function Shl(v: nat, shift: nat): nat {
    if shift >= 256 then 0 else Mask(v * Pow(2, shift))
  }

  function Shr(v: nat, shift: nat): (r: nat) {
    if shift >= 256 then 0 else PowPositive(2, shift); v / Pow(2, shift)
  }

  function Sar(v: nat, shift: nat): (r: nat) {
    if shift >= 256 then
      if v >= SIGN_BIT then TWO_256 - 1 else 0
    else
      PowPositive(2, shift);
      if v >= SIGN_BIT then
        Mask(v / Pow(2, shift) + (TWO_256 - 1) * Pow(2, 256 - shift) % TWO_256)
      else
        v / Pow(2, shift)
  }

  function Byte(index: nat, word: nat): nat {
    if index >= 32 then 0 else PowPositive(256, 31 - index); word / Pow(256, 31 - index) % 256
  }

  function SignExtend(index: nat, word: nat): nat {
    if index >= 32 then word
    else
      var span := Pow(256, index + 1);
      PowPositive(256, index + 1);
      var low := word % span;
      if low * 2 >= span then Mask(low - span) else low
  }

  function BitAnd(a: nat, b: nat): nat {
    if a == 0 then 0 else a % 2 * (b % 2) + 2 * BitAnd(a / 2, b / 2)
  }

  function BitOr(a: nat, b: nat): int {
    a + b - BitAnd(a, b)
  }

  function BitXor(a: nat, b: nat): int {
    a + b - 2 * BitAnd(a, b)
  }

  /** What evm_u256_exp promises: modular power, except that 0 to the 0 is 0. */
  function ExpSpec(base: nat, exponent: nat): nat {
    if base == 0 && exponent == 0 then 0 else Mask(Pow(base, exponent))
  }

  lemma MulMod(a: int, b: int, m: int)
    requires m > 0
    ensures ((a % m) * b) % m == (a * b) % m
  {
    var q := a / m;
    var x := (a % m) * b;
    assert a * b == x + (q * b) * m by {
      assert a == q * m + a % m;
    }
    ModShift(x, q * b, m);
  }

  lemma ModShift(x: int, k: int, m: int)
    requires m > 0
    ensures (x + k * m) % m == x % m
  {
    assert x + k * m == (x / m + k) * m + x % m;
    ModUnique(x + k * m, m, x / m + k, x % m);
  }

  lemma PowSquare(b: int, e: nat)
    ensures Pow(b * b, e / 2) * (if e % 2 == 1 then b else 1) == Pow(b, e)
  {
    PowOfSquare(b, e / 2);
    if e % 2 == 1 {
      assert Pow(b, e) == b * Pow(b, e - 1);
      assert e - 1 == 2 * (e / 2);
    }
  }

  lemma {:induction false} PowOfSquare(b: int, k: nat)
    ensures Pow(b * b, k) == Pow(b, 2 * k)
  {
    if k > 0 {
      PowOfSquare(b, k - 1);
      assert Pow(b, 2 * k) == b * (b * Pow(b, 2 * k - 2));
      assert Pow(b * b, k) == b * b * Pow(b * b, k - 1);
    }
  }

  lemma {:induction false} PowModBase(b: int, e: nat, m: int)
    requires m > 0
    ensures Pow(b % m, e) % m == Pow(b, e) % m
  {
    if e > 0 {
      PowModBase(b, e - 1, m);
      var p, p' := Pow(b, e - 1), Pow(b % m, e - 1);
      MulMod(b, p', m);
      MulMod(p', b, m);
      MulMod(p, b, m);
      assert Pow(b % m, e) == (b % m) * p';
      assert Pow(b, e) == b * p;
    }
  }

  lemma ScaledPowModBase(r: int, c: int, e: nat)
    ensures Mask(r * Pow(Mask(c), e)) == Mask(r * Pow(c, e))
  {
    PowModBase(c, e, TWO_256);
    var p, p' := Pow(c, e), Pow(Mask(c), e);
    MulMod(p, r, TWO_256);
    MulMod(p', r, TWO_256);
    assert p * r == r * p && p' * r == r * p';
  }

  /** One turn of the loop keeps result * b^e modulo 2^256. */
  lemma ExpTurn(r: int, b: int, e: nat)
    requires e > 0
    ensures e % 2 == 1 ==> Mask(Mask(r * b) * Pow(Mask(b * b), e / 2)) == Mask(r * Pow(b, e))
    ensures e % 2 == 0 ==> Mask(r * Pow(Mask(b * b), e / 2)) == Mask(r * Pow(b, e))
  {
    var rest := Pow(b * b, e / 2);
    PowSquare(b, e);
    if e % 2 == 1 {
      ScaledPowModBase(Mask(r * b), b * b, e / 2);
      MulMod(r * b, rest, TWO_256);
      Regroup(r, b, rest);
    } else {
      ScaledPowModBase(r, b * b, e / 2);
    }
  }

  lemma Regroup(r: int, b: int, p: int)
    ensures r * b * p == r * (p * b)
  {
  }

  /** The square-and-multiply loop of evm_u256_exp (crypto/native.py, 776-791). */
  method Exp(base: nat, exponent: nat) returns (result: nat)
    ensures result == ExpSpec(base, exponent)
  {
    if exponent == 0 {
      return if base == 0 then 0 else 1;
    }
    result := 1;
    var b, e := Mask(base), exponent;
    ScaledPowModBase(1, base, exponent);
    while e != 0
      invariant result < TWO_256
      invariant Mask(result * Pow(b, e)) == Mask(Pow(base, exponent))
    {
      ExpTurn(result, b, e);
      if e % 2 == 1 {
        result := Mask(result * b);
      }
      b, e := Mask(b * b), e / 2;
    }
  }

  /** A number that fits a signed word is read back from its word. */
  lemma SignedWord(v: int)
    requires -SIGN_BIT <= v < SIGN_BIT
    ensures ToSigned(Mask(v)) == v
  {
    if v < 0 {
      ModUnique(v, TWO_256, -1, v + TWO_256);
    }
  }

  /** The remainder is smaller than the divisor and has the sign of the dividend; the
      quotient is no larger than the dividend. */
  lemma TruncBounds(x: int, y: int)
    requires y != 0
    ensures Abs(TruncMod(x, y)) < Abs(y) && (TruncMod(x, y) != 0 ==> (TruncMod(x, y) < 0 <==> x < 0))
    ensures Abs(TruncDiv(x, y)) <= Abs(x)
    ensures TruncDiv(x, y) == -x && x < 0 ==> y == -1
  {
    var n, d := Abs(x), Abs(y);
    var q := n / d;
    assert n == q * d + n % d;
    QuotientAtMost(n, d);
  }

  lemma QuotientAtMost(n: nat, d: nat)
    requires d > 0
    ensures 0 <= n / d <= n && (n / d == n && n > 0 ==> d == 1)
  {
    var q := n / d;
    assert n == q * d + n % d;
    if q > 0 {
      MulAtLeast(d, q);
      if d >= 2 {
        assert q * d == q * (d - 1) + q;
        MulAtLeast(d - 1, q);
      }
    }
  }

  /** SDIV truncates toward zero and SMOD has the sign of the dividend: quotient times
      divisor plus a remainder smaller than the divisor is the dividend, as integers. The
      one overflow, the least word divided by -1, gives the least word and no remainder. */
  lemma SignedDivMod(a: nat, b: nat)
    requires a < TWO_256 && 0 < b < TWO_256
    ensures var x, y, q, r := ToSigned(a), ToSigned(b), ToSigned(SDiv(a, b)), ToSigned(SMod(a, b));
      && Abs(r) < Abs(y) && (r != 0 ==> (r < 0 <==> x < 0))
      && (if x == -SIGN_BIT && y == -1 then q == -SIGN_BIT && r == 0 else q * y + r == x)
  {
    var x, y := ToSigned(a), ToSigned(b);
    TruncRecompose(x, y);
    TruncBounds(x, y);
    SignedWord(TruncMod(x, y));
    if x == -SIGN_BIT && y == -1 {
      assert TruncDiv(x, y) == SIGN_BIT;
    } else {
      SignedWord(TruncDiv(x, y));
    }
    hide TruncDiv, TruncMod;
  }

  lemma TruncRecompose(x: int, y: int)
    requires y != 0
    ensures TruncDiv(x, y) * y + TruncMod(x, y) == x
  {
    var q, r := Abs(x) / Abs(y), Abs(x) % Abs(y);
    assert Abs(x) == q * Abs(y) + r;
    assert (-q) * y == -(q * y) && q * (-y) == -(q * y);
  }

  /** The arithmetic shift is floor division of the signed value, by any power of two. */
  lemma SarIsFloorDivision(v: nat, shift: nat)
    requires v < TWO_256
    ensures Pow(2, shift) > 0 && ToSigned(Sar(v, shift)) == ToSigned(v) / Pow(2, shift)
  {
    hide Pow;
    PowPositive(2, shift);
    if shift >= 256 {
      PowBeyondWord(shift);
      SmallQuotient(ToSigned(v), Pow(2, shift));
      SignedWord(-1);
    } else {
      SarWithinWord(v, shift);
    }
  }

  lemma PowBeyondWord(shift: nat)
    requires shift >= 256
    ensures Pow(2, shift) >= TWO_256
  {
    hide Pow;
    PowAdd(2, 256, shift - 256);
    PowPositive(2, shift - 256);
    Pow256Is2To256();
    MulAtLeast(Pow(2, shift - 256), TWO_256);
  }

  lemma SmallQuotient(x: int, p: int)
    requires -p <= x < p && p > 0
    ensures x / p == if x < 0 then -1 else 0
  {
    if x < 0 {
      ModUnique(x, p, -1, x + p);
    } else {
      ModUnique(x, p, 0, x);
    }
  }

  lemma SarWithinWord(v: nat, shift: nat)
    requires v < TWO_256 && shift < 256
    ensures Pow(2, shift) > 0 && ToSigned(Sar(v, shift)) == ToSigned(v) / Pow(2, shift)
  {
    hide Pow;
    PowPositive(2, shift);
    PowPositive(2, 256 - shift);
    PowAdd(2, shift, 256 - shift);
    Pow256Is2To256();
    var p, h := Pow(2, shift), Pow(2, 256 - shift);
    if v >= SIGN_BIT {
      AllOnesTimes(h);
      ShiftedNegative(v, p, h);
    } else {
      ShiftedPositive(v, p);
    }
  }

  /** The word of all ones is -1. */
  lemma AllOnesTimes(h: int)
    ensures (TWO_256 - 1) * h % TWO_256 == (-h) % TWO_256
  {
    assert (TWO_256 - 1) * h == -h + h * TWO_256;
    ModShift(-h, h, TWO_256);
  }

  lemma ShiftedPositive(v: nat, p: int)
    requires v < SIGN_BIT && p > 0
    ensures 0 <= v / p < SIGN_BIT
  {
    assert v / p <= v;
  }

  lemma ShiftedNegative(v: nat, p: int, h: int)
    requires SIGN_BIT <= v < TWO_256 && p > 0 && h > 0 && p * h == TWO_256
    ensures (-h) % TWO_256 == if h == TWO_256 then 0 else TWO_256 - h
    ensures ToSigned(Mask(v / p + (-h) % TWO_256)) == (v - TWO_256) / p
  {
    var q, r := v / p, v % p;
    assert v == q * p + r;
    assert v - TWO_256 == (q - h) * p + r by {
      assert (q - h) * p == q * p - h * p;
      assert h * p == p * h;
    }
    ModUnique(v - TWO_256, p, q - h, r);
    assert h <= TWO_256 by {
      if h > TWO_256 { MulAtLeast(p, h); }
    }
    if h == TWO_256 {
      ModUnique(-h, TWO_256, -1, 0);
    } else {
      ModUnique(-h, TWO_256, -1, TWO_256 - h);
    }
    NegativeQuotient(v - TWO_256, p, q - h);
  }

  lemma NegativeQuotient(x: int, p: int, q: int)
    requires -SIGN_BIT <= x < 0 && p > 0 && q == x / p
    ensures -SIGN_BIT <= q < 0
  {
    assert x == q * p + x % p;
  }
}

/** Python string helpers: strip, lower, str(int), hex(int) and int(text, 16). */
module Text {

  predicate IsSpace(c: char) {
    c == ' ' || c == '\t' || c == '\n' || c == '\r'
  }

  function LeftStrip(s: string): string {
    if s != [] && IsSpace(s[0]) then LeftStrip(s[1..]) else s
  }

  function RightStrip(s: string): string
    decreases |s|
  {
    if s != [] && IsSpace(s[|s| - 1]) then RightStrip(s[..|s| - 1]) else s
  }

  function Strip(s: string): string {
    RightStrip(LeftStrip(s))
  }

  function LowerChar(c: char): char {
    if 'A' <= c <= 'Z' then (c as int - 'A' as int + 'a' as int) as char else c
  }

  /** s.lower() */
  function Lower(s: string): (r: string)
    ensures |r| == |s| && forall i :: 0 <= i < |s| ==> r[i] == LowerChar(s[i])
  {
    seq(|s|, i requires 0 <= i < |s| => LowerChar(s[i]))
  }

  function DigitOf(d: nat): char
    requires d < 16
  {
    "0123456789abcdef"[d]
  }

  function Digits(n: nat, base: nat): (s: string)
    requires 2 <= base <= 16
    ensures s != []
  {
    if n < base then [DigitOf(n)] else Digits(n / base, base) + [DigitOf(n % base)]
  }

  /** str(n) */
  function Decimal(n: int): string {
    if n < 0 then "-" + Digits(-n, 10) else Digits(n, 10)
  }

  /** hex(n) */
  function Hex(n: int): string {
    if n < 0 then "-0x" + Digits(-n, 16) else "0x" + Digits(n, 16)
  }

  function DigitValue(c: char): nat {
    if '0' <= c <= '9' then c as nat - '0' as nat
    else if 'a' <= c <= 'f' then c as nat - 'a' as nat + 10
    else if 'A' <= c <= 'F' then c as nat - 'A' as nat + 10
    else 99
  }

  datatype Parsed = NoNumber | Number(value: int)

  /** Digits of the base, where one underscore may stand between two of them. */
  function ParseDigits(s: string, base: nat): Parsed
    requires 2 <= base <= 16
    decreases |s|
  {
    if s == "" || DigitValue(s[|s| - 1]) >= base then NoNumber
    else if |s| == 1 then Number(DigitValue(s[0]))
    else
      var high := ParseDigits(if s[|s| - 2] == '_' then s[..|s| - 2] else s[..|s| - 1], base);
      if high.NoNumber? then NoNumber else Number(high.value * base + DigitValue(s[|s| - 1]))
  }

  predicate StartsHex(s: string) {
    |s| >= 2 && s[..2] == "0x"
  }

  /** int(s, 16) for a text that starts with 0x, int(s) otherwise. */
  function ParseNumber(s: string): Parsed {
    if StartsHex(s) then
      var body := RightStrip(s[2..]);
      ParseDigits(if body != "" && body[0] == '_' then body[1..] else body, 16)
    else
      var body := Strip(s);
      if body != "" && body[0] == '-' then Negated(ParseDigits(body[1..], 10))
      else ParseDigits(if body != "" && body[0] == '+' then body[1..] else body, 10)
  }

  function Negated(p: Parsed): Parsed {
    if p.Number? then Number(-p.value) else p
  }

  lemma DigitRead(d: nat)
    requires d < 16
    ensures DigitValue(DigitOf(d)) == d
  {
  }

  lemma ParseOneMore(high: string, d: nat, base: nat)
    requires 2 <= base <= 16 && d < base && high != "" && DigitValue(high[|high| - 1]) < base
    requires ParseDigits(high, base).Number?
    ensures ParseDigits(high + [DigitOf(d)], base) == Number(ParseDigits(high, base).value * base + d)
  {
    DigitRead(d);
    assert high[|high| - 1] != '_';
    assert (high + [DigitOf(d)])[..|high|] == high;
  }

  lemma {:induction false} DigitsInBase(n: nat, base: nat)
    requires 2 <= base <= 16
    ensures forall i :: 0 <= i < |Digits(n, base)| ==> DigitValue(Digits(n, base)[i]) < base
    decreases n
  {
    hide DigitOf, DigitValue;
    if n < base {
      DigitRead(n);
    } else {
      DigitRead(n % base);
      DigitsInBase(n / base, base);
    }
  }

  lemma ParseOneDigit(d: nat, base: nat)
    requires 2 <= base <= 16 && d < base
    ensures ParseDigits([DigitOf(d)], base) == Number(d)
  {
    DigitRead(d);
  }

  lemma {:induction false} ParseDigitsOf(n: nat, base: nat)
    requires 2 <= base <= 16
    ensures ParseDigits(Digits(n, base), base) == Number(n)
    decreases n
  {
    hide ParseDigits, DigitOf, DigitValue;
    if n < base {
      ParseOneDigit(n, base);
    } else {
      ParseDigitsOf(n / base, base);
      DigitsInBase(n / base, base);
      ParseOneMore(Digits(n / base, base), n % base, base);
      Euclid(n, base);
    }
  }

  lemma Euclid(n: nat, base: nat)
    requires base > 0
    ensures n / base * base + n % base == n
  {
  }

  lemma {:induction false} RightStripNothing(s: string)
    requires s != "" && !IsSpace(s[|s| - 1])
    ensures RightStrip(s) == s
  {
  }

  lemma StripNothing(s: string)
    requires s != "" && !IsSpace(s[0]) && !IsSpace(s[|s| - 1])
    ensures Strip(s) == s
  {
    RightStripNothing(s);
  }

  lemma {:induction false} LeftStripEnds(s: string)
    ensures LeftStrip(s) != "" ==> !IsSpace(LeftStrip(s)[0])
  {
    if s != "" && IsSpace(s[0]) {
      LeftStripEnds(s[1..]);
    }
  }

  lemma {:induction false} RightStripEnds(s: string)
    ensures RightStrip(s) <= s && (RightStrip(s) != "" ==> !IsSpace(RightStrip(s)[|RightStrip(s)| - 1]))
    decreases |s|
  {
    if s != "" && IsSpace(s[|s| - 1]) {
      RightStripEnds(s[..|s| - 1]);
    }
  }

  /** What is stripped has nothing left to strip. */
  lemma StripTwice(s: string)
    ensures Strip(Strip(s)) == Strip(s)
  {
    LeftStripEnds(s);
    RightStripEnds(LeftStrip(s));
    if Strip(s) != "" {
      StripNothing(Strip(s));
    }
  }

  /** Reading back what hex wrote. */
  lemma ParseHex(n: nat)
    ensures ParseNumber(Hex(n)) == Number(n)
  {
    ParseDigitsOf(n, 16);
    DigitsInBase(n, 16);
    var s := Hex(n);
    var d := Digits(n, 16);
    assert s[..2] == "0x" && s[2..] == d;
    assert DigitValue(d[|d| - 1]) < 16 && DigitValue(d[0]) < 16;
    RightStripNothing(d);
  }

  // ---------------------------------------------------------------- order

  /** Python's order on strings. */
  predicate Below(a: string, b: string) {
    b != "" && (a == "" || a[0] < b[0] || (a[0] == b[0] && Below(a[1..], b[1..])))
  }

  lemma {:induction false} BelowTotal(a: string, b: string)
    ensures Below(a, b) || a == b || Below(b, a)
  {
    if a != "" && b != "" && a[0] == b[0] {
      BelowTotal(a[1..], b[1..]);
      if a[1..] == b[1..] {
        assert a == [a[0]] + a[1..] && b == [b[0]] + b[1..];
      }
    }
  }

  lemma {:induction false} BelowTransitive(a: string, b: string, c: string)
    requires Below(a, b) && Below(b, c)
    ensures Below(a, c)
  {
    if a != "" && a[0] == b[0] && b[0] == c[0] {
      BelowTransitive(a[1..], b[1..], c[1..]);
    }
  }

  predicate Increasing(s: seq<string>) {
    forall i, j :: 0 <= i < j < |s| ==> Below(s[i], s[j])
  }

  function InsertSorted(s: seq<string>, x: string): seq<string> {
    if s == [] || Below(x, s[0]) then [x] + s
    else if s[0] == x then s
    else [s[0]] + InsertSorted(s[1..], x)
  }

  /** sorted(set(s)) */
  function SortedSet(s: seq<string>): seq<string>
    decreases |s|
  {
    if s == [] then [] else InsertSorted(SortedSet(s[..|s| - 1]), s[|s| - 1])
  }

  lemma {:induction false} InsertSortedOk(s: seq<string>, x: string)
    requires Increasing(s)
    ensures Increasing(InsertSorted(s, x))
    ensures forall y :: y in InsertSorted(s, x) <==> y in s || y == x
  {
    if s == [] {
    } else if Below(x, s[0]) {
      forall j | 0 < j < |s| ensures Below(x, s[j]) {
        BelowTransitive(x, s[0], s[j]);
      }
    } else if s[0] != x {
      BelowTotal(x, s[0]);
      var rest := InsertSorted(s[1..], x);
      InsertSortedOk(s[1..], x);
      assert s == [s[0]] + s[1..];
      forall j | 0 <= j < |rest| ensures Below(s[0], rest[j]) {
        assert rest[j] in s[1..] || rest[j] == x;
      }
    }
  }

  /** Every element once, in order. */
  lemma {:induction false} SortedSetOk(s: seq<string>)
    ensures Increasing(SortedSet(s)) && forall y :: y in SortedSet(s) <==> y in s
    decreases |s|
  {
    if s != [] {
      SortedSetOk(s[..|s| - 1]);
      InsertSortedOk(SortedSet(s[..|s| - 1]), s[|s| - 1]);
      assert s == s[..|s| - 1] + [s[|s| - 1]];
    }
  }

  lemma {:induction false} BelowIrreflexive(a: string)
    ensures !Below(a, a)
  {
    if a != "" {
      BelowIrreflexive(a[1..]);
    }
  }
}

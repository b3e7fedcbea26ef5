/**
 The number printers of the console (src/kernel/c_io.c:293-343): decimal by a recursion that writes
 through a moving pointer, hexadecimal by shifting out nibbles, both against one notion of numeral.
 */
module ConsoleNumbers {
  import opened Common

  const INT_MIN: int := -0x8000_0000
  const INT_MAX: int := 0x7FFF_FFFF

  const HEX_DIGITS: string := "0123456789ABCDEF"

  // ---------- numerals ----------

  predicate Base(b: nat) {
    b == 10 || b == 16
  }

  function DigitValue(c: char): (d: nat)
    ensures d <= 16
  {
    if '0' <= c <= '9' then (c as int) - ('0' as int)
    else if 'A' <= c <= 'F' then (c as int) - ('A' as int) + 10
    else 16
  }

  function DigitChar(d: nat): (c: char)
    requires d < 16
    ensures DigitValue(c) == d && (c == '0' <==> d == 0)
  {
    if d < 10 then '0' + d as char else 'A' + (d - 10) as char
  }

  lemma DigitTable(d: nat)
    requires d < 16
    ensures HEX_DIGITS[d] == DigitChar(d)
  {}

  /** The numeral of `n`, most significant digit first. */
  function Numeral(n: nat, b: nat): (s: string)
    requires Base(b)
    ensures |s| > 0
  {
    if n < b then [DigitChar(n)] else Numeral(n / b, b) + [DigitChar(n % b)]
  }

  /** What a string of digits denotes. */
  function Denotes(s: string, b: nat): nat {
    if s == "" then 0 else b * Denotes(s[..|s| - 1], b) + DigitValue(s[|s| - 1])
  }

  /** Digits of the base, the first of which is zero only if it is the only one. */
  predicate Canonical(s: string, b: nat) {
    && s != "" && (forall i :: 0 <= i < |s| ==> DigitValue(s[i]) < b)
    && (|s| > 1 ==> s[0] != '0')
  }

  lemma DivMod(n: nat, b: nat)
    requires Base(b)
    ensures n == b * (n / b) + n % b && n % b < b && (n >= b ==> 0 < n / b < n)
  {}

  lemma DenotesAppend(s: string, c: char, b: nat)
    ensures Denotes(s + [c], b) == b * Denotes(s, b) + DigitValue(c)
  {
    assert (s + [c])[..|s|] == s;
  }

  lemma {:induction false} NumeralRoundTrip(n: nat, b: nat)
    requires Base(b)
    ensures Denotes(Numeral(n, b), b) == n && Canonical(Numeral(n, b), b)
    ensures n > 0 ==> Numeral(n, b)[0] != '0'
    decreases n
  {
    DivMod(n, b);
    if n < b {
      DenotesAppend("", DigitChar(n), b);
      assert "" + [DigitChar(n)] == Numeral(n, b);
    } else {
      NumeralRoundTrip(n / b, b);
      DenotesAppend(Numeral(n / b, b), DigitChar(n % b), b);
    }
  }

  lemma {:induction false} PositiveNumeral(s: string, b: nat)
    requires Base(b) && s != "" && s[0] != '0' && forall i :: 0 <= i < |s| ==> DigitValue(s[i]) < b
    ensures Denotes(s, b) > 0
  {
    if |s| == 1 {
      assert s[..0] == "";
    } else {
      PositiveNumeral(s[..|s| - 1], b);
    }
  }

  /** And back: a canonical numeral is printed for exactly the number it denotes. */
  lemma {:induction false} DenotationRoundTrip(s: string, b: nat)
    requires Base(b) && Canonical(s, b)
    ensures Numeral(Denotes(s, b), b) == s
  {
    var n := |s| - 1;
    var head, d := s[..n], DigitValue(s[n]);
    assert s == head + [s[n]];
    DenotesAppend(head, s[n], b);
    SameDigit(s[n], b);
    if n == 0 {
      assert head == "";
    } else {
      assert Canonical(head, b);
      PositiveNumeral(head, b);
      DenotationRoundTrip(head, b);
      LastDigit(Denotes(head, b), d, b);
    }
  }

  lemma SameDigit(c: char, b: nat)
    requires Base(b) && DigitValue(c) < b
    ensures DigitChar(DigitValue(c)) == c
  {}

  lemma LastDigit(q: nat, d: nat, b: nat)
    requires Base(b) && d < b && q > 0
    ensures (b * q + d) / b == q && (b * q + d) % b == d && b * q + d >= b
  {
    if b == 10 {
      assert (10 * q + d) / 10 == q;
    } else {
      assert (16 * q + d) / 16 == q;
    }
  }

  function Pow(b: nat, k: nat): nat {
    if k == 0 then 1 else b * Pow(b, k - 1)
  }

  lemma Smaller(n: nat, b: nat, p: nat)
    requires Base(b) && n < b * p
    ensures n / b < p
  {
    if b == 10 {
      assert n < 10 * p;
    } else {
      assert n < 16 * p;
    }
  }

  lemma {:induction false} NumeralLength(n: nat, b: nat, k: nat)
    requires Base(b) && k > 0 && n < Pow(b, k)
    ensures |Numeral(n, b)| <= k
    decreases k
  {
    assert Pow(b, 1) == b * Pow(b, 0);
    if n >= b {
      DivMod(n, b);
      Smaller(n, b, Pow(b, k - 1));
      NumeralLength(n / b, b, k - 1);
    }
  }

  // ---------- decimal ----------

  function Magnitude(value: int): nat {
    if value < 0 then -value else value
  }

  /** What is printed for an int. */
  function Printed(value: int): string {
    (if value < 0 then "-" else "") + Numeral(Magnitude(value), 10)
  }

  function Parsed(s: string): int {
    if s != "" && s[0] == '-' then 0 - Denotes(s[1..], 10) else Denotes(s, 10)
  }

  lemma PrintedLength(value: int)
    requires INT_MIN <= value <= INT_MAX
    ensures 0 < |Printed(value)| <= 11
  {
    assert Pow(10, 5) == 100_000 && Pow(10, 10) == 100_000 * 100_000 by {
      assert Pow(10, 1) == 10 && Pow(10, 2) == 100 && Pow(10, 3) == 1000 && Pow(10, 4) == 10_000;
      assert Pow(10, 6) == 1_000_000 && Pow(10, 7) == 10_000_000;
      assert Pow(10, 8) == 100_000_000 && Pow(10, 9) == 1_000_000_000;
    }
    NumeralLength(Magnitude(value), 10, 10);
  }

  /** Printing loses nothing, puts no leading zeros, and needs at most 11 characters. */
  lemma PrintedRoundTrip(value: int)
    requires INT_MIN <= value <= INT_MAX
    ensures Parsed(Printed(value)) == value && 0 < |Printed(value)| <= 11
    ensures Canonical(if value < 0 then Printed(value)[1..] else Printed(value), 10)
  {
    PrintedLength(value);
    NumeralRoundTrip(Magnitude(value), 10);
    assert value < 0 ==> Printed(value)[1..] == Numeral(Magnitude(value), 10);
    assert DigitValue('-') == 16;
  }

  /** Different numbers are printed differently. */
  lemma PrintedInjective(a: int, b: int)
    requires INT_MIN <= a <= INT_MAX && INT_MIN <= b <= INT_MAX && Printed(a) == Printed(b)
    ensures a == b
  {
    PrintedRoundTrip(a);
    PrintedRoundTrip(b);
  }

  /** Division and remainder as in C, towards zero. */
  function Quotient(a: int, b: nat): int
    requires b > 0
  {
    if a >= 0 then a / b else -((-a) / b)
  }

  function Remainder(a: int, b: nat): int
    requires b > 0
  {
    a - b * Quotient(a, b)
  }

  /** Negation in 32 bits leaves the most negative int as it is. */
  function Negated(value: int): int {
    if value == INT_MIN then INT_MIN else -value
  }

  /** Stores a character and moves on. */
  method PutChar(buf: array<char>, bp: nat, c: char) returns (next: nat)
    requires bp < buf.Length
    modifies buf
    ensures next == bp + 1 && buf[..next] == old(buf[..bp]) + [c]
    ensures forall p :: 0 <= p < buf.Length && p != bp ==> buf[p] == old(buf[p])
  {
    buf[bp] := c;
    next := bp + 1;
    assert buf[..next] == buf[..bp] + [c] && buf[..bp] == old(buf[..bp]);
  }

  method Cvtdec0(buf: array<char>, at: nat, value: int) returns (next: nat)
    requires 0 <= value <= INT_MAX || value == INT_MIN
    requires at + |Numeral(Magnitude(value), 10)| <= buf.Length
    modifies buf
    ensures next == at + |Numeral(Magnitude(value), 10)| && buf[at..next] == Numeral(Magnitude(value), 10)
    ensures forall p :: 0 <= p < buf.Length && !(at <= p < next) ==> buf[p] == old(buf[p])
    decreases Magnitude(value)
  {
    var quotient, last := Quotient(value, 10), value;
    if quotient < 0 {
      quotient, last := 214748364, 8;
    }
    next := at;
    if quotient != 0 {
      next := Cvtdec0(buf, at, quotient);
    }
    ghost var head := buf[at..next];
    buf[next] := Remainder(last, 10) as char + '0';
    next := next + 1;
    assert buf[at..next] == head + [buf[next - 1]];
  }

  method Cvtdec(buf: array<char>, value: int) returns (length: nat)
    requires INT_MIN <= value <= INT_MAX && buf.Length >= 12
    modifies buf
    ensures length == |Printed(value)| <= 11 && buf[..length] == Printed(value) && buf[length] == '\0'
    ensures forall p :: length < p < buf.Length ==> buf[p] == old(buf[p])
  {
    PrintedLength(value);
    var bp, rest := 0, value;
    if rest < 0 {
      buf[bp] := '-';
      bp := bp + 1;
      rest := Negated(rest);
    }
    ghost var sign := bp;
    bp := Cvtdec0(buf, bp, rest);
    assert buf[..bp] == buf[..sign] + buf[sign..bp];
    assert buf[..sign] == if value < 0 then "-" else "";
    buf[bp] := '\0';
    length := bp;
  }

  // ---------- hexadecimal ----------

  function HexPow(i: nat): (r: nat)
    ensures r > 0
  {
    match i
    case 0 => 1
    case 1 => 0x10
    case 2 => 0x100
    case 3 => 0x1000
    case 4 => 0x1_0000
    case 5 => 0x10_0000
    case 6 => 0x100_0000
    case 7 => 0x1000_0000
    case _ => 0x1_0000_0000
  }

  /** The nibble at the top of a word of which `i` nibbles have been shifted out, and what is left without it. */
  lemma NibbleOut(i: nat, left: nat, value: nat)
    requires i < 8 && left < HexPow(8 - i) && value == left * HexPow(i)
    ensures var nibble := value / 0x1000_0000;
            var left' := left - nibble * HexPow(7 - i);
            && nibble < 16 && 0 <= left' < HexPow(7 - i) && value * 16 % U32 == left' * HexPow(i + 1)
            && HexPow(8 - i) == 16 * HexPow(7 - i)
  {
    match i
    case 0 =>
    case 1 =>
    case 2 =>
    case 3 =>
    case 4 =>
    case 5 =>
    case 6 =>
    case 7 =>
  }

  lemma Carry(upper: nat, nibble: nat, p: nat)
    ensures upper * (16 * p) + nibble * p == (16 * upper + nibble) * p
  {}

  /** What is in the word after `i` nibbles have been shifted out of it. */
  function Rest(pattern: nat, i: nat): (word: nat)
    requires pattern < U32
    ensures word < U32
  {
    if i == 0 then pattern else Rest(pattern, i - 1) * 16 % U32
  }

  /** The number those nibbles make. */
  function Upper(pattern: nat, i: nat): nat
    requires pattern < U32
  {
    if i == 0 then 0 else 16 * Upper(pattern, i - 1) + Rest(pattern, i - 1) / 0x1000_0000
  }

  /** The nibbles shifted out and the rest of the word make up the pattern. */
  lemma {:induction false} ShiftedOut(pattern: nat, i: nat) returns (left: nat)
    requires pattern < U32 && i <= 8
    ensures left < HexPow(8 - i) && Rest(pattern, i) == left * HexPow(i)
    ensures pattern == Upper(pattern, i) * HexPow(8 - i) + left
  {
    left := pattern;
    if i > 0 {
      var before := ShiftedOut(pattern, i - 1);
      var nibble := Rest(pattern, i - 1) / 0x1000_0000;
      NibbleOut(i - 1, before, Rest(pattern, i - 1));
      Carry(Upper(pattern, i - 1), nibble, HexPow(8 - i));
      left := before - nibble * HexPow(8 - i);
    }
  }

  /** The 32 bits of an int, unsigned. */
  function Pattern(value: int): (word: nat)
    requires INT_MIN <= value <= INT_MAX
    ensures word < U32
  {
    if value < 0 then value + U32 else value
  }

  /** Every pattern is printed in at most eight digits and can be read back; different ints have different ones. */
  lemma HexRoundTrip(value: int)
    requires INT_MIN <= value <= INT_MAX
    ensures var s := Numeral(Pattern(value), 16);
            && |s| <= 8 && Canonical(s, 16) && Denotes(s, 16) == Pattern(value)
            && value == if Denotes(s, 16) > INT_MAX then Denotes(s, 16) - U32 else Denotes(s, 16)
  {
    HexLength(Pattern(value));
    NumeralRoundTrip(Pattern(value), 16);
  }

  lemma HexLength(word: nat)
    requires word < U32
    ensures |Numeral(word, 16)| <= 8
  {
    assert Pow(16, 4) == 0x1_0000 && Pow(16, 8) == U32 by {
      assert Pow(16, 1) == 16 && Pow(16, 2) == 256 && Pow(16, 3) == 4096;
      assert Pow(16, 5) == 0x10_0000 && Pow(16, 6) == 0x100_0000 && Pow(16, 7) == 0x1000_0000;
    }
    NumeralLength(word, 16, 8);
  }

  /** The digits of the nibbles seen so far: none while they were all zero. */
  function Seen(upper: nat): string {
    if upper == 0 then "" else Numeral(upper, 16)
  }

  lemma NextDigit(upper: nat, nibble: nat)
    requires nibble < 16
    ensures Numeral(16 * upper + nibble, 16) == Seen(upper) + [DigitChar(nibble)]
  {}

  method Cvthex(buf: array<char>, value: int) returns (length: nat)
    requires INT_MIN <= value <= INT_MAX && buf.Length >= 9
    modifies buf
    ensures length == |Numeral(Pattern(value), 16)| <= 8
    ensures buf[..length] == Numeral(Pattern(value), 16) && buf[length] == '\0'
    ensures forall p :: length < p < buf.Length ==> buf[p] == old(buf[p])
  {
    ghost var pattern := Pattern(value);
    var word, bp, stored := Pattern(value), 0, false;
    for i := 0 to 8
      invariant bp <= i && word == Rest(pattern, i)
      invariant stored == (Upper(pattern, i) > 0 || i == 8)
      invariant buf[..bp] == if i == 8 then Numeral(Upper(pattern, i), 16) else Seen(Upper(pattern, i))
      invariant forall p :: bp <= p < buf.Length ==> buf[p] == old(buf[p])
    {
      var nibble := word / 0x1000_0000;
      NextDigit(Upper(pattern, i), nibble);
      if i == 7 || nibble != 0 || stored {
        stored := true;
        DigitTable(nibble);
        bp := PutChar(buf, bp, HEX_DIGITS[nibble]);
      }
      word := word * 16 % U32;
    }
    ghost var left := ShiftedOut(pattern, 8);
    buf[bp] := '\0';
    length := bp;
  }
}

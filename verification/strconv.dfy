/**
 * The two number readers the exporter applies to strings it gets from ModemManager:
 * `strconv.ParseInt(s, 16, 64)` for cell id, LAC and TAC, and `strconv.ParseFloat`
 * for the operator code (of which only plain decimal integers are modelled).
 * `FormatInt` is the writer these readers invert.
 */
module Strconv {
  import opened Outcomes
  import opened Text

  const Int64Min: int := -0x8000_0000_0000_0000
  const Int64Max: int := 0x7fff_ffff_ffff_ffff

  /**
   * The value strconv gives a character when reading digits: '0'..'9' are 0..9,
   * letters of either case are 10..35, anything else is 36, a digit in no base.
   */
  function DigitOf(c: char): (d: nat)
    ensures d <= 36
  {
    if '0' <= c <= '9' then c as int - '0' as int
    else if 'a' <= c <= 'z' then c as int - 'a' as int + 10
    else if 'A' <= c <= 'Z' then c as int - 'A' as int + 10
    else 36
  }

  predicate AllDigits(s: string, base: nat) {
    forall i :: 0 <= i < |s| ==> DigitOf(s[i]) < base
  }

  /** The number a string of digits denotes in `base`, most significant digit first. */
  function Magnitude(s: string, base: nat): nat {
    if s == [] then 0 else base * Magnitude(s[..|s| - 1], base) + DigitOf(s[|s| - 1])
  }

  /** What is left once a leading '+' or '-' is taken off. */
  function Unsigned(s: string): string {
    if |s| > 0 && (s[0] == '+' || s[0] == '-') then s[1..] else s
  }

  predicate Negative(s: string) {
    |s| > 0 && s[0] == '-'
  }

  /** The signed value of `s` read in `base`, as strconv reads it before any range check. */
  function Signed(s: string, base: nat): int {
    if Negative(s) then -(Magnitude(Unsigned(s), base) as int) else Magnitude(Unsigned(s), base)
  }

  /**
   * `strconv.ParseInt(s, 16, 64)`: an optional sign, then one or more hexadecimal
   * digits of either case; no "0x" prefix and no underscores, since the base is
   * given; the value must fit in 64 signed bits. `None` is every error return.
   */
  function ParseHexInt64(s: string): (r: Option<int>)
    ensures r.Some? ==> Int64Min <= r.value <= Int64Max
  {
    var digits := Unsigned(s);
    if digits == [] || !AllDigits(digits, 16) then None
    else if Int64Min <= Signed(s, 16) <= Int64Max then Some(Signed(s, 16))
    else None
  }

  /** 2^53: every integer of at most this magnitude is exactly a float64. */
  const Float64Exact: nat := 0x20_0000_0000_0000

  /** 2^1024: no finite float64 is this large. */
  const Float64Limit: nat := 0x1_0000_0000_0000_0000_0000_0000_0000_0000_0000_0000_0000_0000_0000_0000_0000_0000_0000_0000_0000_0000_0000_0000_0000_0000_0000_0000_0000_0000_0000_0000_0000_0000_0000_0000_0000_0000_0000_0000_0000_0000_0000_0000_0000_0000_0000_0000_0000_0000_0000_0000_0000_0000_0000_0000_0000_0000_0000_0000_0000_0000_0000_0000_0000_0000

  function Pow2(k: nat): (p: nat)
    ensures p >= 1
  {
    if k == 0 then 1 else 2 * Pow2(k - 1)
  }

  /** How many low bits of `n` do not fit in float64's 53-bit significand. */
  function DroppedBits(n: nat): nat {
    if n < Float64Exact then 0 else 1 + DroppedBits(n / 2)
  }

  /** `n` rounded to the nearest float64, a tie going to the even significand. */
  function RoundFloat64(n: nat): nat {
    var q := Pow2(DroppedBits(n));
    var lo := n / q * q;
    if 2 * (n % q) < q || (2 * (n % q) == q && (n / q) % 2 == 0) then lo else lo + q
  }

  /**
   * `strconv.ParseFloat(s, 64)` restricted to an optional sign followed by decimal
   * digits, which is the form an operator code (MCC and MNC) takes: the number is
   * rounded to the nearest float64, and a magnitude that rounds to 2^1024 or more
   * is a range error (Go answers with an infinity and `ErrRange`).
   */
  function ParseDecimal(s: string): (r: Option<int>)
    ensures r.Some? ==> -(Float64Limit as int) < r.value < Float64Limit
  {
    var digits := Unsigned(s);
    if digits == [] || !AllDigits(digits, 10) then None
    else
      var m: int := RoundFloat64(Magnitude(digits, 10));
      if m >= Float64Limit then None
      else if Negative(s) then Some(-m) else Some(m)
  }

  function DigitChar(d: nat): (c: char)
    requires d < 36
    ensures DigitOf(c) == d
  {
    if d < 10 then ('0' as int + d) as char else ('a' as int + d - 10) as char
  }

  /** The digits of `n` in `base`, lower-case, without leading zeros. */
  function FormatMagnitude(n: nat, base: nat): string
    requires 2 <= base <= 36
    decreases n
  {
    if n < base then [DigitChar(n)]
    else
      DivMod(n, base);
      FormatMagnitude(n / base, base) + [DigitChar(n % base)]
  }

  /** `strconv.FormatInt(n, base)`. */
  function FormatInt(n: int, base: nat): string
    requires 2 <= base <= 36
  {
    if n < 0 then "-" + FormatMagnitude(-n, base) else FormatMagnitude(n, base)
  }

  lemma DivModBasic(n: nat, base: nat)
    requires 2 <= base
    ensures n == base * (n / base) + n % base && 0 <= n % base < base
  {
  }

  lemma DivMod(n: nat, base: nat)
    requires 2 <= base <= n
    ensures n == base * (n / base) + n % base && 0 <= n % base < base
    ensures 1 <= n / base < n
  {
    DivModBasic(n, base);
    var q := n / base;
    if q == 0 {
      assert false;
    }
    MulAtLeast(q, base);
  }

  /** The digits `FormatMagnitude` writes are digits of the base and read back as `n`. */
  lemma {:induction false} FormatMagnitudeReadsBack(n: nat, base: nat)
    requires 2 <= base <= 36
    ensures FormatMagnitude(n, base) != []
    ensures AllDigits(FormatMagnitude(n, base), base)
    ensures Magnitude(FormatMagnitude(n, base), base) == n
    decreases n
  {
    var s := FormatMagnitude(n, base);
    if n >= base {
      var q, r := n / base, n % base;
      DivMod(n, base);
      var p := FormatMagnitude(q, base);
      FormatMagnitudeReadsBack(q, base);
      assert s == p + [DigitChar(r)];
      assert s[..|s| - 1] == p;
      assert DigitOf(s[|s| - 1]) == r;
      calc {
        Magnitude(s, base);
        base * Magnitude(p, base) + r;
        base * q + r;
        n;
      }
      forall i | 0 <= i < |s| ensures DigitOf(s[i]) < base {
        if i < |p| { assert s[i] == p[i]; }
      }
    } else {
      assert s[..|s| - 1] == [];
    }
  }

  lemma SignedOfSigned(sign: string, digits: string, base: nat)
    requires sign == "" || sign == "+" || sign == "-"
    requires digits != [] && AllDigits(digits, base) && base <= 36
    ensures Unsigned(sign + digits) == digits
    ensures Signed(sign + digits, base) == if sign == "-" then -(Magnitude(digits, base) as int) else Magnitude(digits, base)
  {
    assert DigitOf(digits[0]) < base;
    if sign == "" {
      assert sign + digits == digits;
    } else {
      assert (sign + digits)[1..] == digits;
    }
  }

  /**
   * Every optionally signed, non-empty run of hexadecimal digits is accepted exactly
   * when its value fits in 64 signed bits, and then it reads as that value.
   */
  lemma HexAccepts(sign: string, digits: string)
    requires sign == "" || sign == "+" || sign == "-"
    requires digits != [] && AllDigits(digits, 16)
    ensures var v := if sign == "-" then -(Magnitude(digits, 16) as int) else Magnitude(digits, 16);
      ParseHexInt64(sign + digits) == if Int64Min <= v <= Int64Max then Some(v) else None
  {
    SignedOfSigned(sign, digits, 16);
  }

  /**
   * A character that is not a hexadecimal digit, anywhere except as the leading
   * sign, makes the parse fail: "0x1A", "1_0", "+-1" and " 1" are all rejected.
   */
  lemma HexRejectsNonDigit(s: string, i: nat)
    requires i < |s| && DigitOf(s[i]) >= 16
    requires !(i == 0 && (s[0] == '+' || s[0] == '-'))
    ensures ParseHexInt64(s) == None
  {
    var digits := Unsigned(s);
    if |s| > 0 && (s[0] == '+' || s[0] == '-') {
      assert digits[i - 1] == s[i];
    } else {
      assert digits[i] == s[i];
    }
  }

  /** Whatever `ParseHexInt64` accepts is an optional sign and a non-empty run of hex digits. */
  lemma HexAcceptsOnlyDigits(s: string)
    requires ParseHexInt64(s).Some?
    ensures s != []
    ensures s[0] == '+' || s[0] == '-' || DigitOf(s[0]) < 16
    ensures (s[0] == '+' || s[0] == '-') ==> |s| >= 2
    ensures forall i :: 1 <= i < |s| ==> DigitOf(s[i]) < 16
  {
    var digits := Unsigned(s);
    if s[0] == '+' || s[0] == '-' {
      assert forall i :: 1 <= i < |s| ==> s[i] == digits[i - 1];
    }
  }

  /** Reading back what `FormatInt(n, 16)` writes gives `n`, for every 64-bit `n`. */
  lemma HexRoundTrip(n: int)
    requires Int64Min <= n <= Int64Max
    ensures ParseHexInt64(FormatInt(n, 16)) == Some(n)
  {
    var m := if n < 0 then -n else n;
    FormatMagnitudeReadsBack(m, 16);
    if n < 0 {
      HexAccepts("-", FormatMagnitude(m, 16));
    } else {
      HexAccepts("", FormatMagnitude(m, 16));
    }
  }

  /**
   * Reading back what `FormatInt(n, 10)` writes gives `n` rounded to float64, with
   * its sign, or a range error once the rounded magnitude reaches 2^1024.
   */
  lemma DecimalReadsRounded(n: int)
    ensures n >= 0 ==>
      ParseDecimal(FormatInt(n, 10)) == if RoundFloat64(n) >= Float64Limit then None else Some(RoundFloat64(n))
    ensures n < 0 ==>
      ParseDecimal(FormatInt(n, 10)) == if RoundFloat64(-n) >= Float64Limit then None else Some(-(RoundFloat64(-n) as int))
  {
    var m := if n < 0 then -n else n;
    var digits := FormatMagnitude(m, 10);
    FormatMagnitudeReadsBack(m, 10);
    if n < 0 {
      SignedOfSigned("-", digits, 10);
      assert FormatInt(n, 10) == "-" + digits;
      assert Negative("-" + digits);
    } else {
      SignedOfSigned("", digits, 10);
      assert FormatInt(n, 10) == digits;
      assert !Negative(digits);
    }
  }

  /** Every integer up to 2^53 in magnitude is a float64, so rounding keeps it. */
  lemma RoundExact(n: nat)
    requires n <= Float64Exact
    ensures RoundFloat64(n) == n
  {
    if n == Float64Exact {
      assert DroppedBits(n / 2) == 0;
    }
  }

  /** Reading back what `FormatInt(n, 10)` writes gives `n`, for every `n` float64 holds exactly. */
  lemma DecimalRoundTrip(n: int)
    requires -(Float64Exact as int) <= n <= Float64Exact
    ensures ParseDecimal(FormatInt(n, 10)) == Some(n)
  {
    DecimalReadsRounded(n);
    RoundExact(if n < 0 then -n else n);
  }

  /** Just past 2^53 the odd integers round to an even neighbour: 2^53 + 1 down, 2^53 + 3 up. */
  lemma RoundFirstInexact()
    ensures RoundFloat64(Float64Exact + 1) == Float64Exact
    ensures RoundFloat64(Float64Exact + 3) == Float64Exact + 4
  {
    assert DroppedBits((Float64Exact + 1) / 2) == 0;
    assert DroppedBits((Float64Exact + 3) / 2) == 0;
  }

  lemma {:induction false} Pow2Add(a: nat, b: nat)
    ensures Pow2(a + b) == Pow2(a) * Pow2(b)
  {
    if a > 0 {
      Pow2Add(a - 1, b);
    }
  }

  /** The constant 2^53 is the power of two it stands for. */
  lemma Float64Exact53()
    ensures Pow2(53) == Float64Exact
  {
    assert Pow2(1) == 2;
    Pow2Add(1, 1);
    assert Pow2(2) == 4;
    Pow2Add(2, 2);
    assert Pow2(4) == 16;
    Pow2Add(4, 4);
    assert Pow2(8) == 256;
    Pow2Add(8, 8);
    assert Pow2(16) == 0x1_0000;
    Pow2Add(16, 16);
    assert Pow2(32) == 0x1_0000_0000;
    Pow2Add(32, 16);
    assert Pow2(48) == 0x1_0000_0000_0000;
    Pow2Add(48, 4);
    assert Pow2(52) == 0x10_0000_0000_0000;
    Pow2Add(52, 1);
  }

  /** The constant 2^1024 is the power of two it stands for, by repeated squaring. */
  lemma Float64Limit1024()
    ensures Pow2(1024) == Float64Limit
  {
    assert Pow2(1) == 2;
    Pow2Add(1, 1);
    assert Pow2(2) == 0x4;
    Pow2Add(2, 2);
    assert Pow2(4) == 0x10;
    Pow2Add(4, 4);
    assert Pow2(8) == 0x100;
    Pow2Add(8, 8);
    assert Pow2(16) == 0x1_0000;
    Pow2Add(16, 16);
    assert Pow2(32) == 0x1_0000_0000;
    Pow2Add(32, 32);
    assert Pow2(64) == 0x1_0000_0000_0000_0000;
    Pow2Add(64, 64);
    assert Pow2(128) == 0x1_0000_0000_0000_0000_0000_0000_0000_0000;
    Pow2Add(128, 128);
    assert Pow2(256) == 0x1_0000_0000_0000_0000_0000_0000_0000_0000_0000_0000_0000_0000_0000_0000_0000_0000;
    Pow2Add(256, 256);
    assert Pow2(512) == 0x1_0000_0000_0000_0000_0000_0000_0000_0000_0000_0000_0000_0000_0000_0000_0000_0000_0000_0000_0000_0000_0000_0000_0000_0000_0000_0000_0000_0000_0000_0000_0000_0000;
    Pow2Add(512, 512);
    assert Pow2(1024) == 0x1_0000_0000_0000_0000_0000_0000_0000_0000_0000_0000_0000_0000_0000_0000_0000_0000_0000_0000_0000_0000_0000_0000_0000_0000_0000_0000_0000_0000_0000_0000_0000_0000_0000_0000_0000_0000_0000_0000_0000_0000_0000_0000_0000_0000_0000_0000_0000_0000_0000_0000_0000_0000_0000_0000_0000_0000_0000_0000_0000_0000_0000_0000_0000_0000;
  }

  /** A positive multiple of `q` is at least `q`. */
  lemma {:induction false} MulAtLeast(q: nat, k: int)
    ensures k >= 2 ==> q * k >= 2 * q
    ensures k >= 1 ==> q * k >= q
  {
    if k > 1 {
      MulAtLeast(q, k - 1);
      assert q * k == q * (k - 1) + q;
    }
  }

  /** Dividing a multiple of `q` by `q` is exact. */
  lemma MulDiv(a: nat, q: nat)
    requires q >= 1
    ensures (a * q) / q == a && (a * q) % q == 0
  {
    var x := a * q;
    var d, r := x / q, x % q;
    assert x == q * d + r && 0 <= r < q;
    assert q * (d - a) == -r;
    assert q * (a - d) == r;
    MulAtLeast(q, d - a);
    MulAtLeast(q, a - d);
  }

  /** From 2^53 on, a power of two is 2^52 times a unit that doubles with it, and drops that many bits. */
  lemma {:induction false} DroppedPow2(k: nat)
    requires k >= 53
    ensures Pow2(k) == Float64Exact / 2 * Pow2(k - 52) && Pow2(k - 52) >= 2
    ensures DroppedBits(Pow2(k)) == k - 52
  {
    if k == 53 {
      Float64Exact53();
      assert DroppedBits(Float64Exact / 2) == 0;
    } else {
      DroppedPow2(k - 1);
      assert Pow2(k - 52) == 2 * Pow2(k - 53);
    }
  }

  /** An even multiple of the unit `n` is rounded to is a float64 already. */
  lemma RoundMultiple(n: nat, a: nat, q: nat)
    requires Pow2(DroppedBits(n)) == q && n == a * q && a % 2 == 0
    ensures RoundFloat64(n) == n
  {
    MulDiv(a, q);
  }

  /** A power of two from 2^53 on is a float64: rounding keeps it. */
  lemma RoundPow2(k: nat)
    requires k >= 53
    ensures RoundFloat64(Pow2(k)) == Pow2(k)
  {
    DroppedPow2(k);
    RoundMultiple(Pow2(k), Float64Exact / 2, Pow2(k - 52));
  }

  /** 2^1024 written in decimal, with either sign, is a range error. */
  lemma DecimalOverflow(n: int)
    requires n == Float64Limit || -n == Float64Limit
    ensures ParseDecimal(FormatInt(n, 10)) == None
  {
    RoundPow2(1024);
    Float64Limit1024();
    DecimalReadsRounded(n);
  }


  lemma DigitIgnoresCase(c: char)
    ensures DigitOf(LowerChar(c)) == DigitOf(c)
  {
  }

  lemma {:induction false} MagnitudeIgnoresCase(s: string, base: nat)
    ensures Magnitude(LowerAscii(s), base) == Magnitude(s, base)
  {
    if s != [] {
      var l := LowerAscii(s);
      assert l[..|l| - 1] == LowerAscii(s[..|s| - 1]);
      DigitIgnoresCase(s[|s| - 1]);
      MagnitudeIgnoresCase(s[..|s| - 1], base);
    }
  }

  /** Hexadecimal digits are read the same in either case. */
  lemma HexIgnoresCase(s: string)
    ensures ParseHexInt64(LowerAscii(s)) == ParseHexInt64(s)
  {
    var l := LowerAscii(s);
    var u := Unsigned(s);
    if |s| > 0 && (s[0] == '+' || s[0] == '-') {
      assert l[0] == s[0];
      assert |l[1..]| == |LowerAscii(u)|;
      assert forall i :: 0 <= i < |u| ==> l[1..][i] == LowerAscii(u)[i];
    } else if |s| > 0 {
      assert l[0] != '+' && l[0] != '-';
    }
    assert Unsigned(l) == LowerAscii(u);
    assert Negative(l) == Negative(s);
    forall i | 0 <= i < |u|
      ensures DigitOf(LowerAscii(u)[i]) == DigitOf(u[i])
    {
      DigitIgnoresCase(u[i]);
    }
    assert AllDigits(Unsigned(l), 16) == AllDigits(u, 16);
    MagnitudeIgnoresCase(u, 16);
    assert Signed(l, 16) == Signed(s, 16);
  }

  /** Cell id "1A2B" and LAC "0", values the exporter meets in practice. */
  lemma HexExamples()
    ensures ParseHexInt64("1A2B") == Some(6699)
    ensures ParseHexInt64("0") == Some(0)
    ensures ParseHexInt64("") == None
    ensures ParseHexInt64("-") == None
    ensures ParseHexInt64("+") == None
  {
    assert "1A2B"[..3] == "1A2" && "1A2"[..2] == "1A" && "1A"[..1] == "1" && "1"[..0] == "";
    assert Magnitude("1", 16) == 1;
    assert Magnitude("1A", 16) == 26;
    assert Magnitude("1A2", 16) == 418;
    assert Magnitude("1A2B", 16) == 6699;
    assert Magnitude("0", 16) == 0 by { assert "0"[..0] == ""; }
  }

  /** A 32-bit all-ones TAC is well inside the 64-bit range. */
  lemma HexAllOnes()
    ensures ParseHexInt64("FFFFFFFF") == Some(4294967295)
  {
    var f := "FFFFFFFF";
    assert f[..7][..6] == f[..6] && f[..6][..5] == f[..5] && f[..5][..4] == f[..4];
    assert f[..4][..3] == f[..3] && f[..3][..2] == f[..2] && f[..2][..1] == f[..1] && f[..1][..0] == [];
    assert f[..8] == f && f[..8][..7] == f[..7];
    assert Magnitude(f[..1], 16) == 15;
    assert Magnitude(f[..2], 16) == 255;
    assert Magnitude(f[..3], 16) == 4095;
    assert Magnitude(f[..4], 16) == 65535;
    assert Magnitude(f[..5], 16) == 1048575;
    assert Magnitude(f[..6], 16) == 16777215;
    assert Magnitude(f[..7], 16) == 268435455;
    assert Magnitude(f, 16) == 4294967295;
  }

  /** "310" is an operator code that reads as 310; "N/A" is not a number. */
  lemma DecimalExamples()
    ensures ParseDecimal("310") == Some(310)
    ensures ParseDecimal("N/A") == None
  {
    assert "310"[..2] == "31" && "31"[..1] == "3" && "3"[..0] == "";
    assert Magnitude("310", 10) == 310;
    assert DigitOf("N/A"[1]) == 36;
  }
}

/** Decimal numerals as the stream library prints and reads them: what `<<` writes for an
    unsigned number (num_put, C++14 section 22.4.2.2.2) and what `>>` makes of a character
    sequence (num_get, C++14 section 22.4.2.1.2). */
module Decimal {

  /** Characters of a `std::vector<char>`. Nothing below depends on `char` being 8 bits wide. */
  type Bytes = seq<char>

  // size_t is 64 bits wide
  const SIZE_MODULUS: nat := 0x1_0000_0000_0000_0000

  predicate IsDigit(c: char) {
    '0' <= c <= '9'
  }

  predicate AllDigits(s: Bytes) {
    forall i :: 0 <= i < |s| ==> IsDigit(s[i])
  }

  function Digit(d: nat): char
    requires d < 10
  {
    ('0' as int + d) as char
  }

  function DigitValue(c: char): nat
    requires IsDigit(c)
  {
    c as int - '0' as int
  }

  /** The shortest decimal numeral of `n`. */
  function Digits(n: nat): Bytes {
    if n < 10 then [Digit(n)] else Digits(n / 10) + [Digit(n % 10)]
  }

  function Value(s: Bytes): nat
    requires AllDigits(s)
  {
    if s == [] then 0 else 10 * Value(s[..|s| - 1]) + DigitValue(s[|s| - 1])
  }

  function Pow10(k: nat): nat {
    if k == 0 then 1 else 10 * Pow10(k - 1)
  }

  /** `count` fill characters. */
  function Fill(count: int): Bytes {
    seq(if count < 0 then 0 else count, _ => ' ')
  }

  // ---- Reading a number -------------------------------------------------------------------

  /** White space of the classic locale. */
  predicate IsSpace(c: char) {
    c == ' ' || c == '\t' || c == '\n' || c == '\U{0B}' || c == '\U{0C}' || c == '\r'
  }

  function SkipSpace(s: Bytes): Bytes {
    if s != [] && IsSpace(s[0]) then SkipSpace(s[1..]) else s
  }

  /** The longest run of digits `s` starts with. */
  function DigitRun(s: Bytes): (run: Bytes)
    ensures AllDigits(run) && run <= s
    ensures |run| < |s| ==> !IsDigit(s[|run|])
  {
    if s != [] && IsDigit(s[0]) then [s[0]] + DigitRun(s[1..]) else []
  }

  /** What `in >> n` does to the variable `n`: it is assigned, or it keeps what it held. */
  datatype Extraction = Stored(value: nat) | NotStored

  /** Extraction of a `size_t` from a stream holding `s`. When only white space is left the
      extraction stops before it touches its target; when there is something but no number,
      0 is stored; a minus sign negates in the unsigned type. */
  function Extract(s: Bytes): (x: Extraction)
    ensures x.Stored? ==> x.value < SIZE_MODULUS
  {
    var t := SkipSpace(s);
    if t == [] then
      NotStored
    else
      var run := DigitRun(if t[0] == '+' || t[0] == '-' then t[1..] else t);
      var v := Value(run);
      if v >= SIZE_MODULUS then Stored(SIZE_MODULUS - 1)
      else if t[0] == '-' then Stored((SIZE_MODULUS - v) % SIZE_MODULUS)
      else Stored(v)
  }

  // ---- Numerals ---------------------------------------------------------------------------

  lemma ValueAppend(s: Bytes, c: char)
    requires AllDigits(s) && IsDigit(c)
    ensures AllDigits(s + [c]) && Value(s + [c]) == 10 * Value(s) + DigitValue(c)
  {}

  /** Reading back the printed digits gives the number. */
  lemma {:induction false} DigitsRoundTrip(n: nat)
    ensures |Digits(n)| >= 1 && AllDigits(Digits(n)) && Value(Digits(n)) == n
  {
    if n < 10 {
      ValueAppend([], Digit(n));
      assert [] + [Digit(n)] == Digits(n);
    } else {
      DigitsRoundTrip(n / 10);
      ValueAppend(Digits(n / 10), Digit(n % 10));
    }
  }

  /** A numeral as it is printed: no leading zero. */
  predicate Canonical(s: Bytes) {
    s != [] && AllDigits(s) && (|s| > 1 ==> s[0] != '0')
  }

  lemma {:induction false} DigitsCanonical(n: nat)
    ensures Canonical(Digits(n)) && (n > 0 ==> Digits(n)[0] != '0')
  {
    if n >= 10 {
      DigitsCanonical(n / 10);
    }
  }

  /** Each number has one such numeral. */
  lemma {:induction false} NumeralUnique(s: Bytes)
    requires Canonical(s)
    ensures s == Digits(Value(s))
  {
    var front := s[..|s| - 1];
    if front == [] {
      assert s == [s[0]];
      assert Value(front) == 0;
    } else {
      assert front[0] == s[0];
      ZeroValue(front);
      NumeralUnique(front);
      assert s == front + [s[|s| - 1]];
    }
  }

  /** The digit count and the powers of ten bound each other, for every size. */
  lemma {:induction false} DigitCount(n: nat, k: nat)
    requires k >= 1
    ensures |Digits(n)| <= k <==> n < Pow10(k)
  {
    if k == 1 {
      assert Pow10(1) == 10;
      if n >= 10 {
        DigitsRoundTrip(n / 10);
      }
    } else if n < 10 {
      PowPositive(k - 1);
    } else {
      DigitCount(n / 10, k - 1);
    }
  }

  lemma {:induction false} PowPositive(k: nat)
    ensures Pow10(k) >= 1
  {
    if k > 0 {
      PowPositive(k - 1);
    }
  }

  lemma {:induction false} ValueBound(s: Bytes)
    requires AllDigits(s)
    ensures Value(s) < Pow10(|s|)
  {
    if s != [] {
      ValueBound(s[..|s| - 1]);
    }
  }

  lemma {:induction false} PowMonotone(j: nat, k: nat)
    requires j <= k
    ensures Pow10(j) <= Pow10(k)
  {
    if j < k {
      PowMonotone(j, k - 1);
      PowPositive(k - 1);
    }
  }

  /** Only zeros make the value zero. */
  lemma {:induction false} ZeroValue(s: Bytes)
    requires AllDigits(s)
    ensures Value(s) == 0 <==> forall i :: 0 <= i < |s| ==> s[i] == '0'
  {
    if s != [] {
      var front := s[..|s| - 1];
      ZeroValue(front);
      assert forall i :: 0 <= i < |front| ==> s[i] == front[i];
    }
  }

  // ---- Extraction -------------------------------------------------------------------------

  predicate Blank(s: Bytes) {
    forall i :: 0 <= i < |s| ==> IsSpace(s[i])
  }

  lemma {:induction false} SkipBlanks(blanks: Bytes, s: Bytes)
    requires Blank(blanks)
    ensures SkipSpace(blanks + s) == SkipSpace(s)
  {
    if blanks == [] {
      assert blanks + s == s;
    } else {
      assert (blanks + s)[1..] == blanks[1..] + s;
      SkipBlanks(blanks[1..], s);
    }
  }

  /** Blanks in front of what is read make no difference. */
  lemma BlanksAreSkipped(blanks: Bytes, s: Bytes)
    requires Blank(blanks)
    ensures Extract(blanks + s) == Extract(s)
  {
    SkipBlanks(blanks, s);
  }

  predicate StartsWithDigit(s: Bytes) {
    s != [] && IsDigit(s[0])
  }

  lemma {:induction false} RunOfDigits(digits: Bytes, rest: Bytes)
    requires AllDigits(digits) && !StartsWithDigit(rest)
    ensures DigitRun(digits + rest) == digits
  {
    if digits == [] {
      assert digits + rest == rest;
    } else {
      assert (digits + rest)[1..] == digits[1..] + rest;
      RunOfDigits(digits[1..], rest);
    }
  }

  /** Tabulator, line feed, vertical tab, form feed, carriage return and blank. */
  lemma WhiteSpaceCodes(c: char)
    ensures IsSpace(c) <==> 9 <= c as int <= 13 || c as int == 32
  {}

  /** What is extracted, by the shape of the text: blanks, an optional sign, a run of digits as
      long as possible, anything. The value is that of the digits, 0 if there are none; a minus
      sign counts down from 2^64; a number too large for the type becomes its largest value. */
  lemma ExtractedValue(blanks: Bytes, sign: Bytes, digits: Bytes, rest: Bytes)
    requires Blank(blanks) && (sign == [] || sign == "+" || sign == "-")
    requires AllDigits(digits) && !StartsWithDigit(rest)
    requires sign + digits == [] ==> rest != [] && !IsSpace(rest[0]) && rest[0] != '+' && rest[0] != '-'
    ensures var v := Value(digits);
      Extract(blanks + (sign + (digits + rest))) ==
        Stored(if v >= SIZE_MODULUS then 0xFFFF_FFFF_FFFF_FFFF
               else if sign == "-" && v > 0 then SIZE_MODULUS - v else v)
  {
    BlanksAreSkipped(blanks, sign + (digits + rest));
    if sign == [] {
      assert sign + (digits + rest) == digits + rest;
      ExtractUnsigned(digits, rest);
    } else {
      RunOfDigits(digits, rest);
      ExtractSigned(sign[0], digits + rest, digits);
    }
  }

  lemma ExtractUnsigned(digits: Bytes, rest: Bytes)
    requires AllDigits(digits) && !StartsWithDigit(rest)
    requires digits == [] ==> rest != [] && !IsSpace(rest[0]) && rest[0] != '+' && rest[0] != '-'
    ensures Extract(digits + rest) ==
              Stored(if Value(digits) >= SIZE_MODULUS then SIZE_MODULUS - 1 else Value(digits))
  {
    var t := digits + rest;
    assert t[0] == if digits == [] then rest[0] else digits[0];
    RunOfDigits(digits, rest);
  }

  lemma Negation(v: nat)
    requires v < SIZE_MODULUS
    ensures (SIZE_MODULUS - v) % SIZE_MODULUS == if v > 0 then SIZE_MODULUS - v else 0
  {}

  lemma ExtractSigned(sign: char, body: Bytes, run: Bytes)
    requires (sign == '+' || sign == '-') && DigitRun(body) == run
    ensures Extract([sign] + body) ==
              Stored(if Value(run) >= SIZE_MODULUS then SIZE_MODULUS - 1
                     else if sign == '-' && Value(run) > 0 then SIZE_MODULUS - Value(run) else Value(run))
  {
    var t := [sign] + body;
    assert t[0] == sign && t[1..] == body;
    assert SkipSpace(t) == t;
    if Value(run) < SIZE_MODULUS {
      Negation(Value(run));
    }
  }

  /** Extracting a numeral followed by nothing gives its value. */
  lemma ExtractDigits(s: Bytes)
    requires s != [] && AllDigits(s) && Value(s) < SIZE_MODULUS
    ensures Extract(s) == Stored(Value(s))
  {
    ExtractUnsigned(s, []);
    assert s + [] == s;
  }
}

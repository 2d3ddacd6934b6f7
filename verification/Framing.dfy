/** The frame header: 18 magic characters and the content size in a field ten wide. */
module Framing {
  import opened Decimal

  const MAGIC_LENGTH: nat := 18
  const CONTENT_LENGTH_DIGITS: nat := 10
  const HEADER_LENGTH: nat := MAGIC_LENGTH + CONTENT_LENGTH_DIGITS

  /** The array type of the magic characters. */
  type Magic = s: Bytes | |s| == MAGIC_LENGTH witness seq(MAGIC_LENGTH, _ => ' ')

  const MAGIC: Magic := "/broekman/tcp/1.0/"
  // The first content size the ten-digit field has no room for
  const LIMIT: nat := 10_000_000_000

  /** The header written for a content of `size` characters. The field width is a minimum:
      a longer numeral is written in full. */
  function Header(size: nat): Bytes {
    MAGIC + Fill(CONTENT_LENGTH_DIGITS - |Digits(size)|) + Digits(size)
  }

  /** What the receiver extracts from the length field of a 28-character header. The magic
      characters are not looked at. */
  function Decoded(header: Bytes): Extraction
    requires |header| == HEADER_LENGTH
  {
    Extract(header[MAGIC_LENGTH..])
  }

  /** The length getter. `uninitialised` is what its local variable holds when the extraction
      does not assign it. */
  function ContentLength(header: Bytes, uninitialised: nat): nat {
    if |header| != HEADER_LENGTH then 0
    else match Decoded(header)
      case Stored(value) => value
      case NotStored => uninitialised
  }

  // ---- The layout of a header -------------------------------------------------------------

  /** The characters of a header: the magic ones, blanks up to position `k`, and from there to
      the end the numeral of `size`. The numeral ends at the 28th character, or begins at the
      19th if that leaves it no room. */
  predicate LaidOut(header: Bytes, size: nat, k: int) {
    && 18 <= k < |header| && header[..18] == "/broekman/tcp/1.0/"
    && (forall j :: 18 <= j < k ==> header[j] == ' ')
    && Canonical(header[k..]) && Value(header[k..]) == size
    && (|header| == 28 || (|header| > 28 && k == 18))
  }

  lemma HeaderIsLaidOut(size: nat)
    ensures LaidOut(Header(size), size, |Header(size)| - |Digits(size)|)
  {
    var h, digits := Header(size), Digits(size);
    DigitsRoundTrip(size);
    DigitsCanonical(size);
    assert h[|h| - |digits|..] == digits;
    assert h[..18] == MAGIC;
  }

  /** The header written for a size is laid out like this, and nothing else is. */
  lemma HeaderLayout(header: Bytes, size: nat)
    ensures header == Header(size) <==> exists k :: LaidOut(header, size, k)
  {
    HeaderIsLaidOut(size);
    if k :| LaidOut(header, size, k) {
      NumeralUnique(header[k..]);
      assert header[18..k] == Fill(CONTENT_LENGTH_DIGITS - |Digits(size)|);
      assert header == header[..18] + header[18..k] + header[k..];
    }
  }

  // ---- Header and length getter -----------------------------------------------------------

  lemma LimitIsPower()
    ensures LIMIT == Pow10(CONTENT_LENGTH_DIGITS)
  {}

  /** The header has its default size exactly for contents below ten to the tenth; a larger
      one makes it grow with the digit count, and the getter then reports 0. */
  lemma HeaderSize(size: nat, uninitialised: nat)
    ensures |Header(size)| == HEADER_LENGTH <==> size < LIMIT
    ensures size >= LIMIT ==> |Header(size)| == MAGIC_LENGTH + |Digits(size)| > HEADER_LENGTH
    ensures size >= LIMIT ==> ContentLength(Header(size), uninitialised) == 0
  {
    LimitIsPower();
    DigitCount(size, CONTENT_LENGTH_DIGITS);
  }

  lemma ShortNumeral(s: Bytes)
    requires AllDigits(s) && 1 <= |s| <= CONTENT_LENGTH_DIGITS
    ensures Value(s) < LIMIT && Extract(s) == Stored(Value(s))
  {
    ValueBound(s);
    PowMonotone(|s|, CONTENT_LENGTH_DIGITS);
    LimitIsPower();
    ExtractDigits(s);
  }

  /** Every size that fits is read back from its own header. */
  lemma LengthRoundTrip(size: nat, uninitialised: nat)
    requires size < LIMIT
    ensures |Header(size)| == HEADER_LENGTH && Decoded(Header(size)) == Stored(size)
    ensures ContentLength(Header(size), uninitialised) == size
  {
    HeaderSize(size, uninitialised);
    DigitsRoundTrip(size);
    var fill := CONTENT_LENGTH_DIGITS - |Digits(size)|;
    assert Header(size)[MAGIC_LENGTH..] == Fill(fill) + Digits(size);
    BlanksAreSkipped(Fill(fill), Digits(size));
    ShortNumeral(Digits(size));
  }

  /** What a receiver makes of the first 28 characters a sender emits: the content size if it
      is below the limit, and some other size if it is not. */
  lemma FirstHeaderReadBack(size: nat)
    ensures |Header(size)| >= HEADER_LENGTH
    ensures Decoded(Header(size)[..HEADER_LENGTH]) == Stored(size) <==> size < LIMIT
    ensures Decoded(Header(size)[..HEADER_LENGTH]).Stored?
    ensures Decoded(Header(size)[..HEADER_LENGTH]).value < LIMIT
  {
    HeaderSize(size, 0);
    var first := Header(size)[..HEADER_LENGTH];
    if size < LIMIT {
      LengthRoundTrip(size, 0);
      assert first == Header(size);
    } else {
      DigitsRoundTrip(size);
      var ds := Digits(size);
      assert Fill(CONTENT_LENGTH_DIGITS - |ds|) == [];
      assert Header(size) == MAGIC + ds;
      assert first[MAGIC_LENGTH..] == ds[..CONTENT_LENGTH_DIGITS];
      ShortNumeral(ds[..CONTENT_LENGTH_DIGITS]);
    }
  }

  // ---- Arbitrary headers ------------------------------------------------------------------

  /** A minus sign in front of a number other than zero. */
  predicate NegativeField(field: Bytes) {
    var t := SkipSpace(field);
    t != [] && t[0] == '-' &&
    var run := DigitRun(t[1..]);
    exists i :: 0 <= i < |run| && run[i] != '0'
  }

  lemma {:induction false} SkipSpaceResult(s: Bytes)
    ensures |SkipSpace(s)| <= |s|
    ensures SkipSpace(s) == [] <==> Blank(s)
  {
    if s != [] && IsSpace(s[0]) {
      SkipSpaceResult(s[1..]);
      assert forall i :: 0 < i < |s| ==> s[i] == s[1..][i - 1];
    }
  }

  /** Whatever 28 characters arrive: the getter's variable is assigned unless the field is
      blank, and the assigned length is below the limit exactly when the field is not a
      negative number; a negative one wraps around to nearly 2^64. */
  lemma DecodedRange(header: Bytes)
    requires |header| == HEADER_LENGTH
    ensures Decoded(header).NotStored? <==> Blank(header[MAGIC_LENGTH..])
    ensures Decoded(header).Stored? ==>
              (Decoded(header).value < LIMIT <==> !NegativeField(header[MAGIC_LENGTH..]))
    ensures Decoded(header).Stored? && NegativeField(header[MAGIC_LENGTH..]) ==>
              Decoded(header).value > SIZE_MODULUS - LIMIT
  {
    var field := header[MAGIC_LENGTH..];
    SkipSpaceResult(field);
    var t := SkipSpace(field);
    if t != [] {
      var run := DigitRun(if t[0] == '+' || t[0] == '-' then t[1..] else t);
      ValueBound(run);
      PowMonotone(|run|, CONTENT_LENGTH_DIGITS);
      LimitIsPower();
      ZeroValue(run);
    }
  }

  /** The length getter by the shape of the ten characters after the first eighteen: blanks, an
      optional sign, a run of digits as long as possible, anything. */
  lemma GetterValue(magic: Bytes, blanks: Bytes, sign: Bytes, digits: Bytes, rest: Bytes, uninitialised: nat)
    requires |magic| == 18 && |blanks| + |sign| + |digits| + |rest| == 10
    requires Blank(blanks) && (sign == [] || sign == "+" || sign == "-")
    requires AllDigits(digits) && !StartsWithDigit(rest)
    requires sign + digits == [] ==> rest != [] && !IsSpace(rest[0]) && rest[0] != '+' && rest[0] != '-'
    ensures ContentLength(magic + (blanks + (sign + (digits + rest))), uninitialised) ==
              if sign == "-" && Value(digits) > 0 then SIZE_MODULUS - Value(digits) else Value(digits)
  {
    var field := blanks + (sign + (digits + rest));
    assert (magic + field)[MAGIC_LENGTH..] == field;
    ValueBound(digits);
    PowMonotone(|digits|, CONTENT_LENGTH_DIGITS);
    LimitIsPower();
    ExtractedValue(blanks, sign, digits, rest);
  }

  /** Re-encoding a decoded length is canonical: the new header decodes to the same length,
      and encoding once more changes nothing. */
  lemma DecodeNormalises(header: Bytes)
    requires |header| == HEADER_LENGTH
    requires !Blank(header[MAGIC_LENGTH..]) && !NegativeField(header[MAGIC_LENGTH..])
    ensures Decoded(header).Stored?
    ensures var again := Header(Decoded(header).value);
            |again| == HEADER_LENGTH && Decoded(again) == Decoded(header) &&
            Header(Decoded(again).value) == again
  {
    DecodedRange(header);
    LengthRoundTrip(Decoded(header).value, 0);
  }
}

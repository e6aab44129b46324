/**
 * Vocabulary shared by every part of the configuration front end:
 * the two-level parse error, Option and Result, the character classes
 * the scanner and the literal lexers use, and decimal/hexadecimal digit
 * strings with their values.
 */
module Common {

  datatype Option<T> = None | Some(value: T)

  /**
   * The error of every parse operation.  A Recoverable error lets an
   * enclosing parse go on (the field is marked as failed); a Final error
   * aborts the whole parse.
   */
  datatype ParseError = Recoverable | Final

  datatype Result<T> = Ok(value: T) | Err(error: ParseError)

  /** Rust's char::is_whitespace: the Unicode White_Space property. */
  predicate IsWhitespace(c: char)
  {
    ('\t' <= c <= '\r') || c == ' ' || c == '\U{85}' || c == '\U{A0}' ||
    c == '\U{1680}' || ('\U{2000}' <= c <= '\U{200A}') || c == '\U{2028}' ||
    c == '\U{2029}' || c == '\U{202F}' || c == '\U{205F}' || c == '\U{3000}'
  }

  predicate IsDigit(c: char)
  {
    '0' <= c <= '9'
  }

  predicate IsHexDigit(c: char)
  {
    IsDigit(c) || ('a' <= c <= 'f') || ('A' <= c <= 'F')
  }

  /** Alphabetic characters of the single-byte (ASCII) range. */
  predicate IsAlpha(c: char)
  {
    ('a' <= c <= 'z') || ('A' <= c <= 'Z')
  }

  predicate StartsWith(s: string, prefix: string)
  {
    |prefix| <= |s| && s[..|prefix|] == prefix
  }

  /** A prefix stays a prefix when the same text is put in front of both. */
  lemma StartsWithAfter(p: string, s: string, prefix: string)
    requires StartsWith(s, prefix)
    ensures StartsWith(p + s, p + prefix)
  {
    assert (p + s)[..|p + prefix|] == p + s[..|prefix|];
  }

  /** A prefix stays a prefix when text is added behind. */
  lemma PrefixOfSum(s: string, t: string, prefix: string)
    requires StartsWith(s, prefix)
    ensures StartsWith(s + t, prefix)
  {
    assert (s + t)[..|prefix|] == s[..|prefix|];
  }

  function DigitValue(c: char): (v: nat)
    requires IsDigit(c)
    ensures v < 10
  {
    (c as int - '0' as int) as nat
  }

  function HexDigitValue(c: char): (v: nat)
    requires IsHexDigit(c)
    ensures v < 16
    ensures IsDigit(c) ==> v == DigitValue(c)
  {
    if IsDigit(c) then DigitValue(c)
    else if 'a' <= c <= 'f' then (c as int - 'a' as int + 10) as nat
    else (c as int - 'A' as int + 10) as nat
  }

  predicate AllDigits(s: string)
  {
    forall i :: 0 <= i < |s| ==> IsDigit(s[i])
  }

  predicate AllHexDigits(s: string)
  {
    forall i :: 0 <= i < |s| ==> IsHexDigit(s[i])
  }

  /** The value of a decimal digit string, most significant digit first. */
  function DecimalValue(s: string): nat
    requires AllDigits(s)
  {
    if |s| == 0 then 0
    else DecimalValue(s[..|s| - 1]) * 10 + DigitValue(s[|s| - 1])
  }

  /** The value of a hexadecimal digit string, most significant digit first. */
  function HexValue(s: string): nat
    requires AllHexDigits(s)
  {
    if |s| == 0 then 0
    else HexValue(s[..|s| - 1]) * 16 + HexDigitValue(s[|s| - 1])
  }

  function DigitChar(d: nat): (c: char)
    requires d < 10
    ensures IsDigit(c) && DigitValue(c) == d
  {
    ('0' as int + d) as char
  }

  function HexDigitChar(d: nat): (c: char)
    requires d < 16
    ensures IsHexDigit(c) && HexDigitValue(c) == d
  {
    if d < 10 then DigitChar(d) else ('a' as int + d - 10) as char
  }

  /**
   * The decimal rendering of a natural number (Rust's `{}` for usize).
   * Reading it back gives the number, and it has no superfluous leading zero.
   */
  function NatToString(n: nat): (r: string)
    ensures |r| >= 1 && AllDigits(r)
    ensures DecimalValue(r) == n
    ensures |r| > 1 ==> r[0] != '0'
    decreases n
  {
    if n < 10 then [DigitChar(n)]
    else
      var prefix := NatToString(n / 10);
      var r := prefix + [DigitChar(n % 10)];
      assert r[..|r| - 1] == prefix;
      r
  }

  /** A digit character is the digit of its own value. */
  lemma DigitCharOfValue(c: char)
    requires IsDigit(c)
    ensures DigitChar(DigitValue(c)) == c
  {
    assert ('0' as int + (c as int - '0' as int)) as char == c;
  }

  /** A digit string without a superfluous leading zero has a value of at least one unless it is "0". */
  lemma {:induction false} LeadingDigitPositive(s: string)
    requires |s| >= 1 && AllDigits(s) && s[0] != '0'
    ensures DecimalValue(s) >= 1
    decreases |s|
  {
    if |s| > 1 {
      LeadingDigitPositive(s[..|s| - 1]);
    }
  }

  /**
   * The decimal rendering is the only digit string without a superfluous
   * leading zero that reads back as its number.
   */
  lemma {:induction false} CanonicalIsNatToString(s: string)
    requires |s| >= 1 && AllDigits(s) && (|s| > 1 ==> s[0] != '0')
    ensures s == NatToString(DecimalValue(s))
    decreases |s|
  {
    var v := DecimalValue(s);
    var last := s[|s| - 1];
    DigitCharOfValue(last);
    if |s| == 1 {
      assert v == DigitValue(last);
    } else {
      var p := s[..|s| - 1];
      LeadingDigitPositive(p);
      CanonicalIsNatToString(p);
      assert v / 10 == DecimalValue(p) && v % 10 == DigitValue(last);
      assert s == p + [last];
    }
  }

  /** Lower-case hexadecimal rendering of a natural number, without leading zeros. */
  function HexString(n: nat): (r: string)
    ensures |r| >= 1 && AllHexDigits(r)
    ensures HexValue(r) == n
    decreases n
  {
    if n < 16 then [HexDigitChar(n)]
    else
      var prefix := HexString(n / 16);
      var r := prefix + [HexDigitChar(n % 16)];
      assert r[..|r| - 1] == prefix;
      r
  }

  /** Upper bound of Rust's u32. */
  const U32_LIMIT: nat := 0x1_0000_0000

  /**
   * u32::from_str_radix(s, 16): an optional '+' followed by at least one
   * hexadecimal digit, with a value that fits into 32 bits.
   */
  function HexU32(s: string): (r: Option<nat>)
    ensures r.Some? ==> r.value < U32_LIMIT
    ensures r.Some? ==> |s| >= 1
  {
    var digits := if |s| > 0 && s[0] == '+' then s[1..] else s;
    if |digits| > 0 && AllHexDigits(digits) && HexValue(digits) < U32_LIMIT
    then Some(HexValue(digits))
    else None
  }

  /** char::from_u32: the Unicode scalar values. */
  predicate IsScalar(v: nat)
  {
    v < 0xD800 || 0xE000 <= v < 0x11_0000
  }

  function ToChar(v: nat): char
    requires IsScalar(v)
  {
    v as char
  }

  lemma HexStringFits(c: char)
    ensures HexU32(HexString(c as nat)) == Some(c as nat)
  {
    var s := HexString(c as nat);
    assert s[0] != '+' by {
      assert IsHexDigit(s[0]);
    }
  }
}

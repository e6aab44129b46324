/**
 * Rust-style character and string literals, lexed and unescaped.
 *
 * The lexers do not validate escapes defensively: on a malformed escape, a
 * lone backslash or a bare carriage return they abort the program.  Those
 * inputs are excluded by the preconditions CharLitDefined,
 * ParseCharDefined and StrLitDefined; every other input yields a result.
 */
module Literals {
  import opened Common

  /** Why a literal was refused (the source reports these as messages). */
  datatype LexError = EmptyLiteral | MissingOpeningQuote | MissingClosingQuote

  /** A lexed literal: the number of characters it spans and its value. */
  datatype Lexed<T> = Lexed(count: nat, value: T) | LexFailed(reason: LexError)

  /** The single-character escapes \" \n \r \t \\ \' \0 and what they stand for. */
  function SimpleEscape(c: char): Option<char>
  {
    match c
    case '"' => Some('"')
    case 'n' => Some('\n')
    case 'r' => Some('\r')
    case 't' => Some('\t')
    case '\\' => Some('\\')
    case '\'' => Some('\'')
    case '0' => Some('\0')
    case _ => None
  }

  /** The first position of c in s. */
  function Find(s: string, c: char): (r: Option<nat>)
    ensures r.None? <==> c !in s
    ensures r.Some? ==> r.value < |s| && s[r.value] == c && c !in s[..r.value]
  {
    if |s| == 0 then None
    else if s[0] == c then Some(0)
    else match Find(s[1..], c)
      case None => None
      case Some(i) =>
        assert s[1..][..i] == s[1..i + 1];
        Some(i + 1)
  }

  /** The code point of a \xHH escape: two characters read as a hexadecimal u32. */
  function HexEscapeValue(lit: string): Option<nat>
    requires |lit| >= 4
  {
    HexU32(lit[2..4])
  }

  /** The code point of a \u{...} escape: the characters up to the first '}'. */
  function UnicodeEscapeValue(lit: string): Option<nat>
  {
    match Find(lit, '}')
    case None => None
    case Some(idx) => if 3 <= idx then HexU32(lit[3..idx]) else None
  }

  /**
   * The inputs on which char_lit returns: a non-empty slice that is either
   * an ordinary character or a well-formed escape denoting a Unicode
   * scalar value.
   */
  predicate CharLitDefined(lit: string)
  {
    |lit| >= 1 &&
    (lit[0] == '\\' ==>
      |lit| >= 2 &&
      (SimpleEscape(lit[1]).Some? ||
       (lit[1] == 'x' && |lit| >= 4 && HexEscapeValue(lit).Some? && IsScalar(HexEscapeValue(lit).value)) ||
       (lit[1] == 'u' && |lit| >= 3 && lit[2] == '{' &&
        UnicodeEscapeValue(lit).Some? && IsScalar(UnicodeEscapeValue(lit).value))))
  }

  /**
   * char_lit: the character at the front of lit, unescaped, and the number
   * of characters it occupies.
   */
  function CharLit(lit: string): (r: (char, nat))
    requires CharLitDefined(lit)
    ensures 1 <= r.1 <= |lit|
    ensures r.1 == 1 <==> lit[0] != '\\'
  {
    if lit[0] != '\\' then (lit[0], 1)
    else if SimpleEscape(lit[1]).Some? then (SimpleEscape(lit[1]).value, 2)
    else if lit[1] == 'x' then (ToChar(HexEscapeValue(lit).value), 4)
    else
      var idx := Find(lit, '}').value;
      (ToChar(UnicodeEscapeValue(lit).value), idx + 1)
  }

  /** The inputs on which parse_char returns. */
  predicate ParseCharDefined(lit: string)
  {
    |lit| >= 1 &&
    (lit[0] == '\'' ==> CharLitDefined(lit[1..]) && 1 + CharLit(lit[1..]).1 < |lit|)
  }

  /**
   * parse_char: a character literal at the front of lit.  On success the
   * count covers both quotes.
   */
  function ParseChar(lit: string): (r: Lexed<char>)
    requires ParseCharDefined(lit)
    ensures r.Lexed? ==> 3 <= r.count <= |lit| && lit[0] == '\'' && lit[r.count - 1] == '\''
    ensures r.LexFailed? ==> r.reason != EmptyLiteral
  {
    if lit[0] != '\'' then LexFailed(MissingOpeningQuote)
    else
      var (c, size) := CharLit(lit[1..]);
      if lit[1 + size] != '\'' then LexFailed(MissingClosingQuote)
      else Lexed(size + 2, c)
  }

  /** The characters the continuation of a string literal skips. */
  predicate IsBlank(c: char)
  {
    c == ' ' || c == '\n' || c == '\r' || c == '\t'
  }

  /** The first index at or after i whose character is not blank. */
  function SkipBlank(lit: string, i: nat): (j: nat)
    requires i <= |lit|
    ensures i <= j <= |lit|
    ensures forall k :: i <= k < j ==> IsBlank(lit[k])
    ensures j < |lit| ==> !IsBlank(lit[j])
    decreases |lit| - i
  {
    if i == |lit| || !IsBlank(lit[i]) then i else SkipBlank(lit, i + 1)
  }

  /**
   * Outcome of scanning the body of a string literal: the offset of the
   * closing quote and the unescaped text, no closing quote, or an input
   * the lexer aborts on.
   */
  datatype Scan = Closed(end: nat, text: string) | Unclosed | Aborts

  /** A turn that read size characters and produced text, before the scan of the rest. */
  function Extend(text: string, size: nat, sc: Scan): Scan
  {
    match sc
    case Closed(e, t) => Closed(size + e, text + t)
    case _ => sc
  }

  /**
   * What one turn of str_lit's loop makes of the text from the current
   * character on: the closing quote, an input the lexer aborts on, or a
   * piece of text for the result and the number of characters it read.
   */
  datatype Turn = Quote | Stop | Piece(text: string, size: nat)

  /** One turn.  CR LF stands for a single line feed. */
  function NextTurn(rest: string): (t: Turn)
    requires |rest| > 0
    ensures t.Piece? ==> 0 < t.size <= |rest|
  {
    if rest[0] == '"' then Quote
    else if rest[0] == '\r' then
      if |rest| > 1 && rest[1] == '\n' then Piece("\n", 2) else Stop
    else if rest[0] == '\\' then EscapeTurn(rest)
    else Piece([rest[0]], 1)
  }

  /**
   * The turn on a backslash.  A backslash before a line break drops the
   * break and the blanks after it; any other backslash starts a character
   * escape.
   */
  function EscapeTurn(rest: string): (t: Turn)
    requires |rest| > 0 && rest[0] == '\\'
    ensures t.Piece? ==> 0 < t.size <= |rest|
  {
    if |rest| < 2 then Stop
    else if rest[1] == '\n' then Piece("", SkipBlank(rest, 1))
    else if rest[1] == '\r' then
      if |rest| > 2 && rest[2] == '\n' then Piece("", SkipBlank(rest, 2)) else Stop
    else if CharLitDefined(rest) then
      var (c, n) := CharLit(rest);
      Piece([c], n)
    else Stop
  }

  /** The body of a string literal, turn by turn. */
  function ScanBody(rest: string): (r: Scan)
    ensures r.Closed? ==> r.end < |rest| && rest[r.end] == '"'
    decreases |rest|
  {
    if |rest| == 0 then Unclosed
    else match NextTurn(rest)
      case Quote => Closed(0, "")
      case Stop => Aborts
      case Piece(t, n) => Extend(t, n, ScanBody(rest[n..]))
  }

  /** The inputs on which str_lit returns. */
  predicate StrLitDefined(lit: string)
  {
    |lit| == 0 || lit[0] != '"' || ScanBody(lit[1..]) != Aborts
  }

  /**
   * str_lit: a string literal at the front of lit, unescaped.  On success
   * the count covers both quotes.
   */
  function StrLiteral(lit: string): (r: Lexed<string>)
    requires StrLitDefined(lit)
    ensures r.Lexed? ==> 2 <= r.count <= |lit| && lit[0] == '"' && lit[r.count - 1] == '"'
    ensures r == LexFailed(EmptyLiteral) <==> |lit| == 0
  {
    if |lit| == 0 then LexFailed(EmptyLiteral)
    else if lit[0] != '"' then LexFailed(MissingOpeningQuote)
    else match ScanBody(lit[1..])
      case Closed(e, t) => Lexed(e + 2, t)
      case _ => LexFailed(MissingClosingQuote)
  }

  /** eat: advance past blanks. */
  method Eat(lit: string, i: nat) returns (j: nat)
    requires i <= |lit|
    ensures j == SkipBlank(lit, i)
  {
    j := i;
    while j < |lit| && IsBlank(lit[j])
      invariant i <= j <= |lit|
      invariant SkipBlank(lit, j) == SkipBlank(lit, i)
    {
      j := j + 1;
    }
  }

  /** Skipping blanks in a suffix of lit lands where skipping them in lit does. */
  lemma {:induction false} SkipBlankFrom(lit: string, i: nat, k: nat)
    requires i + k <= |lit|
    ensures SkipBlank(lit[i..], k) == SkipBlank(lit, i + k) - i
    decreases |lit| - i - k
  {
    if i + k < |lit| {
      assert lit[i..][k] == lit[i + k];
      if IsBlank(lit[i + k]) {
        SkipBlankFrom(lit, i, k + 1);
      }
    }
  }

  /** A scan that starts with a piece is that piece in front of the scan of what follows it. */
  lemma ScanPiece(x: string, y: string, t: string, n: nat)
    requires |x| > 0 && NextTurn(x) == Piece(t, n) && x[n..] == y
    ensures ScanBody(x) == Extend(t, n, ScanBody(y))
  {
  }

  lemma ExtendTwice(a: string, m: nat, b: string, n: nat, sc: Scan)
    ensures Extend(a, m, Extend(b, n, sc)) == Extend(a + b, m + n, sc)
  {
    if sc.Closed? {
      assert a + (b + sc.text) == (a + b) + sc.text;
    }
  }

  /** Any character other than a quote, a CR or a backslash is copied as it is. */
  lemma PlainCharCopied(c: char, rest: string)
    requires c != '"' && c != '\r' && c != '\\'
    ensures ScanBody([c] + rest) == Extend([c], 1, ScanBody(rest))
  {
    assert ([c] + rest)[1..] == rest;
    ScanPiece([c] + rest, rest, [c], 1);
  }

  /** An unescaped CR LF inside the literal reads as one line feed; a CR alone aborts. */
  lemma CrLfReadsAsNewline(rest: string)
    ensures ScanBody("\r\n" + rest) == Extend("\n", 2, ScanBody(rest))
    ensures |rest| == 0 || rest[0] != '\n' ==> ScanBody("\r" + rest) == Aborts
  {
    assert ("\r\n" + rest)[2..] == rest;
    ScanPiece("\r\n" + rest, rest, "\n", 2);
  }

  /** The skip past the blanks after a line break stops at the first non-blank. */
  lemma SkipBlanksRun(x: string, i: nat, blanks: string, rest: string)
    requires i <= |x| && x == x[..i] + blanks + rest
    requires forall k :: 0 <= k < |blanks| ==> IsBlank(blanks[k])
    requires |rest| > 0 ==> !IsBlank(rest[0])
    ensures SkipBlank(x, i) == i + |blanks|
  {
    forall k | i <= k < i + |blanks|
      ensures IsBlank(x[k])
    {
      assert x[k] == blanks[k - i];
    }
    if i + |blanks| < |x| {
      assert x[i + |blanks|] == rest[0];
    }
  }

  /**
   * A backslash before a line feed, or before CR LF, drops the line break
   * and every blank after it: nothing reaches the result.
   */
  lemma LineContinuation(blanks: string, rest: string)
    requires forall k :: 0 <= k < |blanks| ==> IsBlank(blanks[k])
    requires |rest| > 0 ==> !IsBlank(rest[0])
    ensures ScanBody("\\\n" + blanks + rest) == Extend("", 2 + |blanks|, ScanBody(rest))
    ensures ScanBody("\\\r\n" + blanks + rest) == Extend("", 3 + |blanks|, ScanBody(rest))
  {
    var x := "\\\n" + blanks + rest;
    assert x == x[..1] + ("\n" + blanks) + rest;
    SkipBlanksRun(x, 1, "\n" + blanks, rest);
    assert x[2 + |blanks|..] == rest;
    ScanPiece(x, rest, "", 2 + |blanks|);
    var y := "\\\r\n" + blanks + rest;
    assert y == y[..2] + ("\n" + blanks) + rest;
    SkipBlanksRun(y, 2, "\n" + blanks, rest);
    assert y[3 + |blanks|..] == rest;
    ScanPiece(y, rest, "", 3 + |blanks|);
  }

  /**
   * One turn of str_lit's loop on a character other than the closing
   * quote, on an input the lexer does not abort on: the text it adds to
   * the result and the index where the next turn starts.
   */
  method BodyStep(lit: string, i: nat) returns (piece: string, next: nat)
    requires i < |lit| && NextTurn(lit[i..]).Piece?
    ensures i < next <= |lit|
    ensures NextTurn(lit[i..]) == Piece(piece, next - i)
  {
    var c := lit[i];
    if c == '\\' {
      piece, next := EscapeStep(lit, i);
    } else if c == '\r' {
      piece, next := "\n", i + 2;
    } else {
      piece, next := [c], i + 1;
    }
  }

  /** The turn on a backslash: a line continuation, eaten with the blanks after it, or an escape. */
  method EscapeStep(lit: string, i: nat) returns (piece: string, next: nat)
    requires i < |lit| && lit[i] == '\\' && EscapeTurn(lit[i..]).Piece?
    ensures i < next <= |lit|
    ensures EscapeTurn(lit[i..]) == Piece(piece, next - i)
  {
    assert lit[i..][1] == lit[i + 1];
    if lit[i + 1] == '\n' {
      SkipBlankFrom(lit, i, 1);
      next := Eat(lit, i + 1);
      piece := "";
    } else if lit[i + 1] == '\r' {
      SkipBlankFrom(lit, i, 2);
      next := Eat(lit, i + 2);
      piece := "";
    } else {
      var (e, n) := CharLit(lit[i..]);
      piece, next := [e], i + n;
    }
  }

  /** str_lit, walking the literal character by character. */
  method StrLit(lit: string) returns (r: Lexed<string>)
    requires StrLitDefined(lit)
    ensures r == StrLiteral(lit)
  {
    if |lit| == 0 {
      return LexFailed(EmptyLiteral);
    }
    if lit[0] != '"' {
      return LexFailed(MissingOpeningQuote);
    }
    var res := "";
    var count: Option<nat> := None;
    var i := 1;  // index of the next character to read
    while i < |lit|
      invariant 1 <= i <= |lit|
      invariant ScanBody(lit[1..]) == Extend(res, i - 1, ScanBody(lit[i..]))
      invariant ScanBody(lit[i..]) != Aborts
      invariant count.None?
      decreases |lit| - i
    {
      if lit[i] == '"' {
        assert ScanBody(lit[1..]) == Closed(i - 1, res);
        count := Some(i);
        break;
      }
      var piece, next := BodyStep(lit, i);
      assert lit[i..][next - i..] == lit[next..];
      ScanPiece(lit[i..], lit[next..], piece, next - i);
      ExtendTwice(res, i - 1, piece, next - i, ScanBody(lit[next..]));
      res := res + piece;
      i := next;
    }
    match count {
      case Some(k) => return Lexed(k + 1, res);
      case None => return LexFailed(MissingClosingQuote);
    }
  }

  // ---------------------------------------------------------------------
  // Escaping, the inverse direction, and the round trips.

  /** An escape sequence for c inside a string literal. */
  function EscapeInString(c: char): string
  {
    match c
    case '"' => "\\\""
    case '\\' => "\\\\"
    case '\n' => "\\n"
    case '\r' => "\\r"
    case '\t' => "\\t"
    case '\0' => "\\0"
    case _ => [c]
  }

  function EscapeString(s: string): string
  {
    if |s| == 0 then "" else EscapeInString(s[0]) + EscapeString(s[1..])
  }

  /** The string literal denoting s. */
  function QuoteString(s: string): string
  {
    "\"" + EscapeString(s) + "\""
  }

  /** One escaped character, whatever follows it, is one turn giving back that character. */
  lemma TurnOnEscaped(c: char, rest: string)
    ensures NextTurn(EscapeInString(c) + rest) == Piece([c], |EscapeInString(c)|)
  {
    var e := EscapeInString(c);
    var x := e + rest;
    assert x[0] == e[0];
    if c in "\"\\\n\r\t\0" {
      assert |e| == 2 && e[0] == '\\' && SimpleEscape(e[1]) == Some(c);
      assert x[1] == e[1];
      assert CharLit(x) == (c, 2);
    } else {
      assert e == [c];
    }
  }

  /** A turn giving one character, followed by a scan that closes, gives a scan that closes. */
  lemma ScanAfterTurn(x: string, y: string, c: char, n: nat, end: nat, t: string)
    requires |x| > 0 && NextTurn(x) == Piece([c], n) && x[n..] == y
    requires ScanBody(y) == Closed(end, t)
    ensures ScanBody(x) == Closed(n + end, [c] + t)
  {
  }

  /** The escaped text of s, followed by a quote, scans back to s. */
  lemma {:induction false} ScanEscaped(s: string, rest: string)
    ensures ScanBody(EscapeString(s) + "\"" + rest) == Closed(|EscapeString(s)|, s)
    decreases |s|
  {
    var x := EscapeString(s) + "\"" + rest;
    if |s| == 0 {
      assert x == "\"" + rest;
    } else {
      var e, y := EscapeInString(s[0]), EscapeString(s[1..]) + "\"" + rest;
      assert EscapeString(s) == e + EscapeString(s[1..]);
      assert x == e + y;
      assert x[|e|..] == y;
      TurnOnEscaped(s[0], y);
      ScanEscaped(s[1..], rest);
      ScanAfterTurn(x, y, s[0], |e|, |EscapeString(s[1..])|, s[1..]);
      assert [s[0]] + s[1..] == s;
    }
  }

  /**
   * Lexing the literal of s gives back s, and the literal's length, no
   * matter what text follows it.
   */
  lemma StrLitRoundTrip(s: string, rest: string)
    ensures StrLitDefined(QuoteString(s) + rest)
    ensures StrLiteral(QuoteString(s) + rest) == Lexed(|QuoteString(s)|, s)
  {
    var lit := QuoteString(s) + rest;
    assert lit[1..] == EscapeString(s) + "\"" + rest;
    ScanEscaped(s, rest);
  }

  /** An escape sequence for c inside a character literal. */
  function EscapeInChar(c: char): string
  {
    match c
    case '\'' => "\\'"
    case '\\' => "\\\\"
    case '\n' => "\\n"
    case '\r' => "\\r"
    case '\t' => "\\t"
    case '\0' => "\\0"
    case _ => [c]
  }

  /** The character literal denoting c. */
  function QuoteChar(c: char): string
  {
    "'" + EscapeInChar(c) + "'"
  }

  /** Lexing the literal of c gives back c, whatever text follows. */
  lemma CharRoundTrip(c: char, rest: string)
    ensures ParseCharDefined(QuoteChar(c) + rest)
    ensures ParseChar(QuoteChar(c) + rest) == Lexed(|QuoteChar(c)|, c)
  {
    var lit := QuoteChar(c) + rest;
    var e := EscapeInChar(c);
    assert lit[1..] == e + "'" + rest;
  }

  /** Two lower-case hexadecimal digits for a value below 256. */
  function Hex2(n: nat): string
    requires n < 256
  {
    [HexDigitChar(n / 16), HexDigitChar(n % 16)]
  }

  /** A \xHH escape denotes the character with that code. */
  lemma HexEscapeRoundTrip(c: char, rest: string)
    requires c as nat < 256
    ensures CharLitDefined("\\x" + Hex2(c as nat) + rest)
    ensures CharLit("\\x" + Hex2(c as nat) + rest) == (c, 4)
  {
    var lit := "\\x" + Hex2(c as nat) + rest;
    var h := Hex2(c as nat);
    assert lit[2..4] == h;
    assert h[..1] == [h[0]];
    assert HexValue(h) == HexValue([h[0]]) * 16 + HexDigitValue(h[1]);
  }

  /** In a \u{...} escape of hexadecimal digits, the first '}' is the closing brace. */
  lemma FindClosingBrace(h: string, rest: string)
    requires AllHexDigits(h)
    ensures Find("\\u{" + h + "}" + rest, '}') == Some(|h| + 3)
  {
    var lit := "\\u{" + h + "}" + rest;
    assert lit[|h| + 3] == '}';
    assert '}' !in lit[..|h| + 3] by {
      forall k | 0 <= k < |h| + 3
        ensures lit[k] != '}'
      {
        if k >= 3 {
          assert lit[k] == h[k - 3];
        }
      }
    }
  }

  /** char_lit on a \u{...} escape whose digits denote c. */
  lemma UnicodeCharLit(lit: string, c: char, idx: nat)
    requires |lit| >= 3 && lit[0] == '\\' && lit[1] == 'u' && lit[2] == '{'
    requires Find(lit, '}') == Some(idx) && UnicodeEscapeValue(lit) == Some(c as nat)
    ensures CharLitDefined(lit) && CharLit(lit) == (c, idx + 1)
  {
    assert SimpleEscape(lit[1]).None?;
    assert ToChar(c as nat) == c;
  }

  /** A \u{...} escape denotes the character with that code. */
  lemma UnicodeEscapeRoundTrip(c: char, rest: string)
    ensures CharLitDefined("\\u{" + HexString(c as nat) + "}" + rest)
    ensures CharLit("\\u{" + HexString(c as nat) + "}" + rest) == (c, |HexString(c as nat)| + 4)
  {
    var h := HexString(c as nat);
    var lit := "\\u{" + h + "}" + rest;
    FindClosingBrace(h, rest);
    assert lit[3..|h| + 3] == h;
    HexStringFits(c);
    UnicodeCharLit(lit, c, |h| + 3);
  }
}

/**
 * Parsing the built-in scalar types from a ConfigProvider: String, char,
 * the integer types, Ipv4Addr and LogLevel.
 *
 * Each parse is first given as a function on Cursor snapshots returning a
 * Step: the result and the cursor afterwards, or Panics where the Rust
 * code panics (a malformed escape in a literal).  The ConfigProvider
 * methods below are proved to do exactly what these functions say.
 */
module Scalars {
  import opened Common
  import opened Scanner
  import opened Literals
  import opened Schema

  /** The outcome of a parse on a cursor. */
  datatype Step<T> = Step(r: Result<T>, c: Cursor) | Panics

  /** A parse that returns leaves the scanner in its resting state and never moves back. */
  predicate Moves<T>(src: seq<Line>, c: Cursor, s: Step<T>)
    requires Inv(src, c)
  {
    s.Step? ==> Inv(src, s.c) && Unread(src, s.c) <= Unread(src, c)
  }

  /** ... and a value parse that succeeds has consumed input. */
  predicate Progress<T>(src: seq<Line>, c: Cursor, s: Step<T>)
    requires Inv(src, c)
  {
    Moves(src, c, s) && (s.Step? && s.r.Ok? ==> Unread(src, s.c) < Unread(src, c))
  }

  /** consume(count)? followed by Ok(v). */
  function Take<T>(src: seq<Line>, c: Cursor, count: nat, v: T): (s: Step<T>)
    requires Inv(src, c) && count >= 1
    ensures Progress(src, c, s)
    ensures s.Step? && (s.r.Ok? <==> c.column + count <= |c.text|)
    ensures s.Step? && s.r.Ok? ==> s.r.value == v
  {
    match Advance(src, c, count)
    case None => Step(Err(Final), c)
    case Some(c') => Step(Ok(v), c')
  }

  // ---------------------------------------------------------------------
  // String and char

  /**
   * String::parse_from: a string literal at the front of the rest of the
   * line.  End of input is Final; a text that is not a literal is
   * Recoverable and consumes nothing.
   */
  function StringSpec(src: seq<Line>, c: Cursor): (s: Step<Value>)
    requires Inv(src, c)
    ensures Progress(src, c, s)
    ensures s.Step? && s.r.Ok? ==> HasType(s.r.value, StringT)
    ensures s.Step? && s.r.Err? ==> s.c == c
  {
    match Rest(c)
    case None => Step(Err(Final), c)
    case Some(content) =>
      if !StrLitDefined(content) then Panics
      else match StrLiteral(content)
        case LexFailed(_) => Step(Err(Recoverable), c)
        case Lexed(count, text) => Take(src, c, count, StrV(text))
  }

  /** char::parse_from: a character literal at the front of the rest of the line. */
  function CharSpec(src: seq<Line>, c: Cursor): (s: Step<Value>)
    requires Inv(src, c)
    ensures Progress(src, c, s)
    ensures s.Step? && s.r.Ok? ==> HasType(s.r.value, CharT)
    ensures s.Step? && s.r.Err? ==> s.c == c
  {
    match Rest(c)
    case None => Step(Err(Final), c)
    case Some(content) =>
      if !ParseCharDefined(content) then Panics
      else match ParseChar(content)
        case LexFailed(_) => Step(Err(Recoverable), c)
        case Lexed(count, ch) => Take(src, c, count, CharV(ch))
  }

  /** A string literal written in the configuration is read back as the string it quotes. */
  lemma StringSpecReadsQuoted(src: seq<Line>, c: Cursor, s: string, after: string)
    requires Inv(src, c) && Rest(c) == Some(QuoteString(s) + after)
    ensures StringSpec(src, c).Step?
    ensures StringSpec(src, c) == Step(Ok(StrV(s)), Advance(src, c, |QuoteString(s)|).value)
  {
    StrLitRoundTrip(s, after);
  }

  /** A character literal written in the configuration is read back as that character. */
  lemma CharSpecReadsQuoted(src: seq<Line>, c: Cursor, ch: char, after: string)
    requires Inv(src, c) && Rest(c) == Some(QuoteChar(ch) + after)
    ensures CharSpec(src, c).Step?
    ensures CharSpec(src, c) == Step(Ok(CharV(ch)), Advance(src, c, |QuoteChar(ch)|).value)
  {
    CharRoundTrip(ch, after);
  }

  // ---------------------------------------------------------------------
  // Integers

  /** The first index at or after i holding whitespace (|s| if none). */
  function TokenEnd(s: string, i: nat): (j: nat)
    requires i <= |s|
    ensures i <= j <= |s|
    ensures forall k :: i <= k < j ==> !IsWhitespace(s[k])
    ensures j < |s| ==> IsWhitespace(s[j])
    decreases |s| - i
  {
    if i == |s| || IsWhitespace(s[i]) then i else TokenEnd(s, i + 1)
  }

  /**
   * str::parse for i32, u32 and u8: an optional '+' (or '-' for the signed
   * type) and at least one decimal digit, denoting a value of the type.
   */
  function ParseInt(k: IntKind, tok: string): (r: Option<int>)
    ensures r.Some? ==> InRange(k, r.value) && |tok| >= 1
  {
    var neg := k == I32 && |tok| > 0 && tok[0] == '-';
    var digits := if |tok| > 0 && (tok[0] == '+' || neg) then tok[1..] else tok;
    if |digits| == 0 || !AllDigits(digits) then None
    else
      var v := if neg then -(DecimalValue(digits) as int) else DecimalValue(digits) as int;
      if InRange(k, v) then Some(v) else None
  }

  /** How an integer is written: decimal digits, with '-' in front of a negative one. */
  function IntText(n: int): string
  {
    if n < 0 then "-" + NatToString(-n) else NatToString(n)
  }

  /** Every integer of the type is read back from the way it is written. */
  lemma IntRoundTrip(k: IntKind, n: int)
    requires InRange(k, n)
    ensures ParseInt(k, IntText(n)) == Some(n)
  {
    if n < 0 {
      assert IntText(n)[1..] == NatToString(-n);
    } else {
      var t := NatToString(n);
      assert IsDigit(t[0]);
    }
  }

  /**
   * i32/u32/u8::parse_from: the text up to the next whitespace is the
   * number; if it is not one, the parse is Recoverable and consumes nothing.
   */
  function IntSpec(src: seq<Line>, c: Cursor, k: IntKind): (s: Step<Value>)
    requires Inv(src, c)
    ensures Progress(src, c, s)
    ensures s.Step? && s.r.Ok? ==> HasType(s.r.value, IntT(k))
    ensures s.Step? && s.r.Err? ==> s.c == c
    ensures s.Step?
  {
    match Rest(c)
    case None => Step(Err(Final), c)
    case Some(content) =>
      var tok := content[..TokenEnd(content, 0)];
      match ParseInt(k, tok)
      case None => Step(Err(Recoverable), c)
      case Some(v) => Take(src, c, |tok|, IntV(v))
  }

  /** A token free of whitespace, followed by whitespace or the end of the line, ends where it ends. */
  lemma {:induction false} TokenEndAfter(tok: string, after: string, i: nat)
    requires i <= |tok| && forall k :: 0 <= k < |tok| ==> !IsWhitespace(tok[k])
    requires after == [] || IsWhitespace(after[0])
    ensures TokenEnd(tok + after, i) == |tok|
    decreases |tok| - i
  {
    var s := tok + after;
    if i < |tok| {
      assert s[i] == tok[i];
      TokenEndAfter(tok, after, i + 1);
    } else if after != [] {
      assert s[i] == after[0];
    }
  }

  /**
   * The integer parse reads exactly the token in front of the next
   * whitespace: a token that is a number of the type is consumed and
   * yields it; any other token is Recoverable and consumes nothing.
   */
  lemma IntSpecReadsToken(src: seq<Line>, c: Cursor, k: IntKind, tok: string, after: string)
    requires Inv(src, c) && Rest(c) == Some(tok + after)
    requires forall i :: 0 <= i < |tok| ==> !IsWhitespace(tok[i])
    requires after == [] || IsWhitespace(after[0])
    ensures ParseInt(k, tok).None? ==> IntSpec(src, c, k) == Step(Err(Recoverable), c)
    ensures c.column + |tok| <= |c.text|
    ensures ParseInt(k, tok).Some? ==>
      IntSpec(src, c, k) == Step(Ok(IntV(ParseInt(k, tok).value)), Advance(src, c, |tok|).value)
  {
    TokenEndAfter(tok, after, 0);
    assert (tok + after)[..|tok|] == tok;
  }

  /** An integer of the type written in decimal is read back as that integer. */
  lemma IntSpecReadsDecimal(src: seq<Line>, c: Cursor, k: IntKind, n: int, after: string)
    requires InRange(k, n) && Inv(src, c) && Rest(c) == Some(IntText(n) + after)
    requires after == [] || IsWhitespace(after[0])
    ensures c.column + |IntText(n)| <= |c.text|
    ensures IntSpec(src, c, k) == Step(Ok(IntV(n)), Advance(src, c, |IntText(n)|).value)
  {
    var t := IntText(n);
    forall i | 0 <= i < |t|
      ensures !IsWhitespace(t[i])
    {
      if n < 0 && i > 0 {
        assert t[i] == NatToString(-n)[i - 1];
      }
    }
    IntRoundTrip(k, n);
    IntSpecReadsToken(src, c, k, t, after);
  }

  // ---------------------------------------------------------------------
  // Ipv4Addr

  predicate IsIpChar(ch: char)
  {
    IsDigit(ch) || ch == '.'
  }

  /** The first index at or after i that is neither a digit nor a dot. */
  function IpEnd(s: string, i: nat): (j: nat)
    requires i <= |s|
    ensures i <= j <= |s|
    ensures forall k :: i <= k < j ==> IsIpChar(s[k])
    ensures j < |s| ==> !IsIpChar(s[j])
    decreases |s| - i
  {
    if i == |s| || !IsIpChar(s[i]) then i else IpEnd(s, i + 1)
  }

  /** The pieces of s between dots. */
  function SplitDots(s: string): (r: seq<string>)
    ensures |r| >= 1
    ensures forall i :: 0 <= i < |r| ==> '.' !in r[i]
    decreases |s|
  {
    match Find(s, '.')
    case None => [s]
    case Some(i) => [s[..i]] + SplitDots(s[i + 1..])
  }

  predicate ValidOctet(p: string)
  {
    1 <= |p| <= 3 && AllDigits(p) && DecimalValue(p) < 256
  }

  /**
   * Ipv4Addr::from_str: four groups of one to three digits separated by
   * dots, each at most 255.
   */
  function ParseIp(s: string): (r: Option<seq<nat>>)
    ensures r.Some? ==> |r.value| == 4 && (forall i :: 0 <= i < 4 ==> r.value[i] < 256)
    ensures r.Some? ==> |s| >= 1
  {
    var parts := SplitDots(s);
    if |parts| == 4 && forall i :: 0 <= i < 4 ==> ValidOctet(parts[i]) then
      SplitDotsLength(s);
      assert JoinDots(parts) == parts[0] + "." + JoinDots(parts[1..]);
      Some(seq(4, i requires 0 <= i < 4 => DecimalValue(parts[i])))
    else None
  }

  /** Rebuilding a string from its dot-separated pieces. */
  function JoinDots(parts: seq<string>): string
  {
    if |parts| == 0 then "" else if |parts| == 1 then parts[0] else parts[0] + "." + JoinDots(parts[1..])
  }

  lemma {:induction false} SplitDotsLength(s: string)
    ensures JoinDots(SplitDots(s)) == s
    decreases |s|
  {
    match Find(s, '.')
    case None =>
    case Some(i) =>
      var rest := SplitDots(s[i + 1..]);
      SplitDotsLength(s[i + 1..]);
      assert SplitDots(s) == [s[..i]] + rest;
      assert ([s[..i]] + rest)[1..] == rest;
      assert JoinDots([s[..i]] + rest) == s[..i] + "." + JoinDots(rest);
      assert s == s[..i] + "." + s[i + 1..];
  }

  /** The dotted-quad text of an address. */
  function IpText(o: seq<nat>): string
    requires |o| == 4
  {
    JoinDots(seq(4, i requires 0 <= i < 4 => NatToString(o[i])))
  }

  lemma {:induction false} ShortNumber(n: nat)
    requires n < 256
    ensures |NatToString(n)| <= 3
  {
    if n >= 10 {
      assert NatToString(n) == NatToString(n / 10) + [DigitChar(n % 10)];
      if n / 10 >= 10 {
        assert NatToString(n / 10) == NatToString(n / 100) + [DigitChar(n / 10 % 10)];
      }
    }
  }

  lemma SplitAtDot(a: string, rest: string)
    requires '.' !in a
    ensures SplitDots(a + "." + rest) == [a] + SplitDots(rest)
  {
    var s := a + "." + rest;
    assert s[|a|] == '.';
    assert s[..|a|] == a;
    assert s[|a| + 1..] == rest;
  }

  lemma NoDot(n: nat)
    ensures '.' !in NatToString(n)
  {
    var t := NatToString(n);
    assert forall i :: 0 <= i < |t| ==> t[i] != '.' by {
      forall i | 0 <= i < |t|
        ensures t[i] != '.'
      {
        assert IsDigit(t[i]);
      }
    }
  }

  /** Splitting a dot-joined list of dot-free pieces gives the pieces back. */
  lemma {:induction false} SplitJoin(parts: seq<string>)
    requires |parts| >= 1 && forall i :: 0 <= i < |parts| ==> '.' !in parts[i]
    ensures SplitDots(JoinDots(parts)) == parts
  {
    if |parts| == 1 {
      assert Find(parts[0], '.').None?;
    } else {
      SplitAtDot(parts[0], JoinDots(parts[1..]));
      SplitJoin(parts[1..]);
    }
  }

  /** An address is read back from its dotted-quad text. */
  lemma IpRoundTrip(o: seq<nat>)
    requires |o| == 4 && forall i :: 0 <= i < 4 ==> o[i] < 256
    ensures ParseIp(IpText(o)) == Some(o)
  {
    var texts := seq(4, i requires 0 <= i < 4 => NatToString(o[i]));
    forall i | 0 <= i < 4
      ensures '.' !in texts[i]
    {
      NoDot(o[i]);
    }
    SplitJoin(texts);
    var parts := SplitDots(IpText(o));
    forall i | 0 <= i < 4
      ensures ValidOctet(parts[i]) && DecimalValue(parts[i]) == o[i]
    {
      ShortNumber(o[i]);
    }
    assert seq(4, i requires 0 <= i < 4 => DecimalValue(parts[i])) == o;
  }

  /**
   * Ipv4Addr::parse_from: the longest run of digits and dots is consumed
   * first and then read as an address; a run that is not one is
   * Recoverable, with the run already consumed.
   */
  function IpSpec(src: seq<Line>, c: Cursor): (s: Step<Value>)
    requires Inv(src, c)
    ensures Progress(src, c, s)
    ensures s.Step? && s.r.Ok? ==> HasType(s.r.value, Ipv4T)
    ensures s.Step?
  {
    match Rest(c)
    case None => Step(Err(Final), c)
    case Some(content) =>
      var n := IpEnd(content, 0);
      match Advance(src, c, n)
      case None => Step(Err(Final), c)
      case Some(c') =>
        match ParseIp(content[..n])
        case None => Step(Err(Recoverable), c')
        case Some(o) => Step(Ok(IpV(o)), c')
  }

  /** A run of digits and dots, followed by anything else or the end of the line, ends where it ends. */
  lemma {:induction false} IpEndAfter(run: string, after: string, i: nat)
    requires i <= |run| && forall k :: 0 <= k < |run| ==> IsIpChar(run[k])
    requires after == [] || !IsIpChar(after[0])
    ensures IpEnd(run + after, i) == |run|
    decreases |run| - i
  {
    var s := run + after;
    if i < |run| {
      assert s[i] == run[i];
      IpEndAfter(run, after, i + 1);
    } else if after != [] {
      assert s[i] == after[0];
    }
  }

  /**
   * The address parse consumes the whole run of digits and dots before it
   * looks at it: a run that is an address yields it, and any other run is
   * Recoverable with the run already consumed.
   */
  lemma IpSpecReadsRun(src: seq<Line>, c: Cursor, run: string, after: string)
    requires Inv(src, c) && Rest(c) == Some(run + after)
    requires forall i :: 0 <= i < |run| ==> IsIpChar(run[i])
    requires after == [] || !IsIpChar(after[0])
    ensures c.column + |run| <= |c.text|
    ensures ParseIp(run).None? ==> IpSpec(src, c) == Step(Err(Recoverable), Advance(src, c, |run|).value)
    ensures ParseIp(run).Some? ==> IpSpec(src, c) == Step(Ok(IpV(ParseIp(run).value)), Advance(src, c, |run|).value)
  {
    IpEndAfter(run, after, 0);
    assert (run + after)[..|run|] == run;
  }

  /** Joining digit strings with dots gives a run of digits and dots. */
  lemma {:induction false} JoinDotsIpChars(parts: seq<string>)
    requires forall i :: 0 <= i < |parts| ==> AllDigits(parts[i])
    ensures forall k :: 0 <= k < |JoinDots(parts)| ==> IsIpChar(JoinDots(parts)[k])
  {
    if |parts| == 1 {
      assert forall k :: 0 <= k < |parts[0]| ==> IsDigit(parts[0][k]);
    } else if |parts| > 1 {
      JoinDotsIpChars(parts[1..]);
      var head := parts[0] + ".";
      assert forall k :: 0 <= k < |parts[0]| ==> IsDigit(parts[0][k]);
      assert forall k :: 0 <= k < |head| ==> IsIpChar(head[k]);
      assert JoinDots(parts) == head + JoinDots(parts[1..]);
    }
  }

  /** An address written as a dotted quad is read back as that address. */
  lemma IpSpecReadsDotted(src: seq<Line>, c: Cursor, o: seq<nat>, after: string)
    requires |o| == 4 && forall i :: 0 <= i < 4 ==> o[i] < 256
    requires Inv(src, c) && Rest(c) == Some(IpText(o) + after)
    requires after == [] || !IsIpChar(after[0])
    ensures c.column + |IpText(o)| <= |c.text|
    ensures IpSpec(src, c) == Step(Ok(IpV(o)), Advance(src, c, |IpText(o)|).value)
  {
    JoinDotsIpChars(seq(4, i requires 0 <= i < 4 => NatToString(o[i])));
    IpRoundTrip(o);
    IpSpecReadsRun(src, c, IpText(o), after);
  }

  // ---------------------------------------------------------------------
  // LogLevel

  /** The first index at or after i that is not a letter. */
  function AlphaEnd(s: string, i: nat): (j: nat)
    requires i <= |s|
    ensures i <= j <= |s|
    ensures forall k :: i <= k < j ==> IsAlpha(s[k])
    ensures j < |s| ==> !IsAlpha(s[j])
    decreases |s| - i
  {
    if i == |s| || !IsAlpha(s[i]) then i else AlphaEnd(s, i + 1)
  }

  function LevelName(l: Level): string
  {
    match l
    case Error => "Error"
    case Warn => "Warn"
    case Info => "Info"
    case Debug => "Debug"
    case Trace => "Trace"
  }

  /** The level words LogLevel::parse_from accepts, as written: all but Error. */
  function ParseLevelAsWritten(w: string): (r: Option<Level>)
    ensures r.Some? ==> w == LevelName(r.value) && r.value != Error
    ensures r.None? <==> w !in {"Warn", "Info", "Debug", "Trace"}
  {
    if w == "Warn" then Some(Warn)
    else if w == "Info" then Some(Info)
    else if w == "Debug" then Some(Debug)
    else if w == "Trace" then Some(Trace)
    else None
  }

  /** The format of LogLevel offers Error, but the parser as written refuses it. */
  lemma ErrorLevelRefused()
    ensures StartsWith(Header(LogLevelT), LevelName(Error))
    ensures ParseLevelAsWritten(LevelName(Error)) == None
  {
  }

  /** The level words: exactly the names of the five levels, each meaning its level. */
  function ParseLevel(w: string): (r: Option<Level>)
    ensures r.Some? ==> w == LevelName(r.value)
  {
    if w == "Error" then Some(Error) else ParseLevelAsWritten(w)
  }

  /** Every level listed by the format is read back from its name. */
  lemma LevelRoundTrip(l: Level)
    ensures ParseLevel(LevelName(l)) == Some(l)
  {
  }

  /**
   * LogLevel::parse_from: the letters at the front of the line name the
   * level; they are consumed only when they do.  The words are those of
   * the match as written, so "Error" is refused.
   */
  function LevelSpec(src: seq<Line>, c: Cursor): (s: Step<Value>)
    requires Inv(src, c)
    ensures Progress(src, c, s)
    ensures s.Step? && s.r.Ok? ==> HasType(s.r.value, LogLevelT)
    ensures s.Step? && s.r.Err? ==> s.c == c
    ensures s.Step?
  {
    match Rest(c)
    case None => Step(Err(Final), c)
    case Some(content) =>
      var word := content[..AlphaEnd(content, 0)];
      match ParseLevelAsWritten(word)
      case None => Step(Err(Recoverable), c)
      case Some(l) => Take(src, c, |word|, LevelV(l))
  }

  /** A word of letters, followed by a non-letter or the end of the line, ends where it ends. */
  lemma {:induction false} AlphaEndAfter(word: string, after: string, i: nat)
    requires i <= |word| && forall k :: 0 <= k < |word| ==> IsAlpha(word[k])
    requires after == [] || !IsAlpha(after[0])
    ensures AlphaEnd(word + after, i) == |word|
    decreases |word| - i
  {
    var s := word + after;
    if i < |word| {
      assert s[i] == word[i];
      AlphaEndAfter(word, after, i + 1);
    } else if after != [] {
      assert s[i] == after[0];
    }
  }

  /**
   * The level parse reads the whole word of letters: a level word is
   * consumed and yields its level; any other word is Recoverable and
   * consumes nothing.
   */
  lemma LevelSpecReadsWord(src: seq<Line>, c: Cursor, word: string, after: string)
    requires Inv(src, c) && Rest(c) == Some(word + after)
    requires forall i :: 0 <= i < |word| ==> IsAlpha(word[i])
    requires after == [] || !IsAlpha(after[0])
    ensures c.column + |word| <= |c.text|
    ensures ParseLevelAsWritten(word).None? ==> LevelSpec(src, c) == Step(Err(Recoverable), c)
    ensures ParseLevelAsWritten(word).Some? ==>
      LevelSpec(src, c) == Step(Ok(LevelV(ParseLevelAsWritten(word).value)), Advance(src, c, |word|).value)
  {
    AlphaEndAfter(word, after, 0);
    assert (word + after)[..|word|] == word;
  }

  /** Each level but Error, written by name, is read back as that level. */
  lemma LevelSpecReadsName(src: seq<Line>, c: Cursor, l: Level, after: string)
    requires l != Error && Inv(src, c) && Rest(c) == Some(LevelName(l) + after)
    requires after == [] || !IsAlpha(after[0])
    ensures c.column + |LevelName(l)| <= |c.text|
    ensures LevelSpec(src, c) == Step(Ok(LevelV(l)), Advance(src, c, |LevelName(l)|).value)
  {
    LevelNameLetters(l);
    LevelSpecReadsWord(src, c, LevelName(l), after);
  }

  /** A level name is a word of letters, and the parse as written reads every name but Error. */
  lemma LevelNameLetters(l: Level)
    ensures forall i :: 0 <= i < |LevelName(l)| ==> IsAlpha(LevelName(l)[i])
    ensures l != Error ==> ParseLevelAsWritten(LevelName(l)) == Some(l)
  {
    match l
    case Error => assert forall i :: 0 <= i < |"Error"| ==> IsAlpha("Error"[i]);
    case Warn => assert forall i :: 0 <= i < |"Warn"| ==> IsAlpha("Warn"[i]);
    case Info => assert forall i :: 0 <= i < |"Info"| ==> IsAlpha("Info"[i]);
    case Debug => assert forall i :: 0 <= i < |"Debug"| ==> IsAlpha("Debug"[i]);
    case Trace => assert forall i :: 0 <= i < |"Trace"| ==> IsAlpha("Trace"[i]);
  }

  /** "Error" in the configuration is refused: Recoverable, and nothing is consumed. */
  lemma ErrorWordRefused(src: seq<Line>, c: Cursor, after: string)
    requires Inv(src, c) && Rest(c) == Some("Error" + after)
    requires after == [] || !IsAlpha(after[0])
    ensures LevelSpec(src, c) == Step(Err(Recoverable), c)
  {
    var w := "Error";
    assert forall i :: 0 <= i < |w| ==> IsAlpha(w[i]);
    LevelSpecReadsWord(src, c, w, after);
  }

  // ---------------------------------------------------------------------
  // The provider side

  /** String::parse_from on the provider. */
  method ParseString(p: ConfigProvider) returns (r: Result<Value>)
    requires p.Valid() && StringSpec(p.source, p.Cur()).Step?
    modifies p
    ensures Step(r, p.Cur()) == StringSpec(p.source, old(p.Cur()))
  {
    var content := p.GetNext();
    if content.None? {
      return Err(Final);
    }
    var lexed := StrLit(content.value);
    match lexed {
      case LexFailed(_) =>
        return Err(Recoverable);
      case Lexed(count, text) =>
        var ok := p.Consume(count);
        if ok.Err? {
          return Err(Final);
        }
        return Ok(StrV(text));
    }
  }

  /** char::parse_from on the provider. */
  method ParseCharValue(p: ConfigProvider) returns (r: Result<Value>)
    requires p.Valid() && CharSpec(p.source, p.Cur()).Step?
    modifies p
    ensures Step(r, p.Cur()) == CharSpec(p.source, old(p.Cur()))
  {
    var content := p.GetNext();
    if content.None? {
      return Err(Final);
    }
    match ParseChar(content.value) {
      case LexFailed(_) =>
        return Err(Recoverable);
      case Lexed(count, ch) =>
        var ok := p.Consume(count);
        if ok.Err? {
          return Err(Final);
        }
        return Ok(CharV(ch));
    }
  }

  /** i32/u32/u8::parse_from on the provider. */
  method ParseIntValue(p: ConfigProvider, k: IntKind) returns (r: Result<Value>)
    requires p.Valid()
    modifies p
    ensures Step(r, p.Cur()) == IntSpec(p.source, old(p.Cur()), k)
  {
    var content := p.GetNext();
    if content.None? {
      return Err(Final);
    }
    var max := TokenEnd(content.value, 0);
    var tok := content.value[..max];
    match ParseInt(k, tok) {
      case None =>
        return Err(Recoverable);
      case Some(v) =>
        var ok := p.Consume(max);
        if ok.Err? {
          return Err(Final);
        }
        return Ok(IntV(v));
    }
  }

  /** Ipv4Addr::parse_from on the provider. */
  method ParseIpValue(p: ConfigProvider) returns (r: Result<Value>)
    requires p.Valid()
    modifies p
    ensures Step(r, p.Cur()) == IpSpec(p.source, old(p.Cur()))
  {
    var content := p.GetNext();
    if content.None? {
      return Err(Final);
    }
    var n := IpEnd(content.value, 0);
    var ok := p.Consume(n);
    if ok.Err? {
      return Err(Final);
    }
    match ParseIp(content.value[..n]) {
      case None => return Err(Recoverable);
      case Some(o) => return Ok(IpV(o));
    }
  }

  /** LogLevel::parse_from on the provider. */
  method ParseLevelValue(p: ConfigProvider) returns (r: Result<Value>)
    requires p.Valid()
    modifies p
    ensures Step(r, p.Cur()) == LevelSpec(p.source, old(p.Cur()))
  {
    var content := p.GetNext();
    if content.None? {
      return Err(Final);
    }
    var word := content.value[..AlphaEnd(content.value, 0)];
    match ParseLevelAsWritten(word) {
      case None => return Err(Recoverable);
      case Some(l) =>
        var ok := p.Consume(|word|);
        if ok.Err? {
          return Err(Final);
        }
        return Ok(LevelV(l));
    }
  }
}

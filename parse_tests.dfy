/**
 * The parse scenarios of the unit tests of Option<T>, Vec<T> and a derived
 * enum, worked out on the Parser functions and then replayed on the
 * ConfigProvider methods, with the outcomes proved.
 */
module ParseTests {
  import opened Common
  import opened Scanner
  import opened Literals
  import opened Schema
  import opened FieldStates
  import opened Scalars
  import opened Parser
  import opened ParseFrom
  import ParseFacts
  import opened LineScans

  // ---------------------------------------------------------------------
  // enum SimpleEnum { SimpleCon1, SimpleCon2 }

  const SimpleEnum: Desc := EnumT("SimpleEnum",
    [Variant("SimpleCon1", Shape(UnitShape, [])), Variant("SimpleCon2", Shape(UnitShape, []))],
    Attrs(None, None))

  lemma SimpleEnumWellFormed()
    ensures WellFormed(SimpleEnum)
  {
    assert ShapeWellFormed(Shape(UnitShape, []));
  }

  /** The scanner's view of "SimpleCon2asdf": the second variant's name starts it. */
  lemma SimpleCon2Scan()
    ensures Start([(0, "SimpleCon2asdf")]) == Cursor(0, "SimpleCon2asdf", 0, 1)
    ensures MatchVariant(SimpleEnum.variants, "SimpleCon2asdf") == Some(1)
    ensures Advance([(0, "SimpleCon2asdf")], Cursor(0, "SimpleCon2asdf", 0, 1), 10) ==
      Some(Cursor(0, "SimpleCon2asdf", 10, 1))
  {
    assert SkipWs("SimpleCon2asdf", 0) == 0;
    assert "SimpleCon2asdf"[..10][9] != "SimpleCon1"[9];
    assert SkipWs("SimpleCon2asdf", 10) == 10;
  }

  /** "SimpleCon2asdf" gives SimpleCon2 and leaves "asdf". */
  lemma SimpleCon2Steps()
    ensures WellFormed(SimpleEnum)
    ensures EnumSpec([(0, "SimpleCon2asdf")], Start([(0, "SimpleCon2asdf")]), SimpleEnum) ==
      Step(Ok(EnumV("SimpleCon2", [])), Cursor(0, "SimpleCon2asdf", 10, 1))
  {
    SimpleEnumWellFormed();
    SimpleCon2Scan();
  }

  /** "SimpleCon3" names no variant and fails. */
  lemma SimpleCon3Steps()
    ensures WellFormed(SimpleEnum)
    ensures EnumSpec([(0, "SimpleCon3")], Start([(0, "SimpleCon3")]), SimpleEnum) ==
      Step(Err(Final), Cursor(0, "SimpleCon3", 0, 1))
  {
    SimpleEnumWellFormed();
    var src := [(0, "SimpleCon3")];
    assert SkipWs("SimpleCon3", 0) == 0;
    assert Start(src) == Cursor(0, "SimpleCon3", 0, 1);
    assert "SimpleCon3"[..10][9] != "SimpleCon1"[9];
    assert "SimpleCon3"[..10][9] != "SimpleCon2"[9];
  }

  /** "SimpleCon1" gives SimpleCon1 and consumes the line. */
  lemma SimpleCon1Steps()
    ensures WellFormed(SimpleEnum)
    ensures EnumSpec([(0, "SimpleCon1")], Start([(0, "SimpleCon1")]), SimpleEnum) ==
      Step(Ok(EnumV("SimpleCon1", [])), Cursor(0, "SimpleCon1", 10, 1))
  {
    SimpleEnumWellFormed();
    StartAt("SimpleCon1");
    AdvanceToEnd([(0, "SimpleCon1")], Cursor(0, "SimpleCon1", 0, 1), 10);
    assert "SimpleCon1"[..10] == "SimpleCon1";
  }

  lemma SimpleCon2Rest()
    ensures Rest(Cursor(0, "SimpleCon2asdf", 10, 1)) == Some("asdf")
  {
    assert "SimpleCon2asdf"[10..] == "asdf";
  }

  /**
   * The derived parses of SimpleEnum: "SimpleCon1" reads SimpleCon1 and
   * leaves nothing, "SimpleCon2asdf" reads SimpleCon2 and leaves "asdf",
   * and "SimpleCon3" is refused.
   */
  method SimpleEnumParse() returns (first: Result<Value>, firstRest: Option<string>,
                                    second: Result<Value>, secondRest: Option<string>, third: Result<Value>)
    ensures first == Ok(EnumV("SimpleCon1", [])) && firstRest == None
    ensures second == Ok(EnumV("SimpleCon2", [])) && secondRest == Some("asdf")
    ensures third == Err(Final)
  {
    var p := new ConfigProvider.FromLine("SimpleCon1");
    SimpleCon1Steps();
    first := ParseEnum(p, SimpleEnum);
    firstRest := p.GetNext();

    p := new ConfigProvider.FromLine("SimpleCon2asdf");
    SimpleCon2Steps();
    second := ParseEnum(p, SimpleEnum);
    SimpleCon2Rest();
    secondRest := p.GetNext();

    p := new ConfigProvider.FromLine("SimpleCon3");
    SimpleCon3Steps();
    third := ParseEnum(p, SimpleEnum);
  }

  // ---------------------------------------------------------------------
  // Option<String>: Some("TestStr") and None

  const SomeLine: string := "Some(\"TestStr\")"

  /** "TestStr" needs no escapes, so its literal is the text between the quotes. */
  lemma TestStrLiteral()
    ensures QuoteString("TestStr") == "\"TestStr\""
  {
    PlainEscaped("TestStr");
  }

  /** A string without quotes, backslashes or control escapes is its own escape. */
  lemma {:induction false} PlainEscaped(s: string)
    requires forall i :: 0 <= i < |s| ==> s[i] !in "\"\\\n\r\t\0"
    ensures EscapeString(s) == s
    decreases |s|
  {
    if |s| > 0 {
      PlainEscaped(s[1..]);
      assert EscapeInString(s[0]) == [s[0]];
      assert s == [s[0]] + s[1..];
    }
  }

  /** The scanner's view of Some("TestStr"): the keyword and the '(' after it. */
  lemma SomeScan()
    ensures Start([(0, SomeLine)]) == Cursor(0, SomeLine, 0, 1)
    ensures Advance([(0, SomeLine)], Cursor(0, SomeLine, 0, 1), 4) == Some(Cursor(0, SomeLine, 4, 1))
    ensures AdvanceChar([(0, SomeLine)], Cursor(0, SomeLine, 4, 1), '(') == Some(Cursor(0, SomeLine, 5, 1))
  {
    assert SkipWs(SomeLine, 0) == 0 && SkipWs(SomeLine, 4) == 4 && SkipWs(SomeLine, 5) == 5;
  }

  /** ... then the literal, and the ')' that ends the line. */
  lemma SomeScanInner()
    ensures Rest(Cursor(0, SomeLine, 5, 1)) == Some(QuoteString("TestStr") + ")")
    ensures Advance([(0, SomeLine)], Cursor(0, SomeLine, 5, 1), 9) == Some(Cursor(0, SomeLine, 14, 1))
    ensures AdvanceChar([(0, SomeLine)], Cursor(0, SomeLine, 14, 1), ')') == Some(Cursor(0, SomeLine, 15, 1))
  {
    TestStrLiteral();
    assert SkipWs(SomeLine, 14) == 14;
    assert SomeLine[5..] == QuoteString("TestStr") + ")";
  }

  /** The String inside the parentheses. */
  lemma SomeInner()
    ensures ParseSpec([(0, SomeLine)], Cursor(0, SomeLine, 5, 1), StringT) ==
      Step(Ok(StrV("TestStr")), Cursor(0, SomeLine, 14, 1))
  {
    SomeScanInner();
    TestStrLiteral();
    StringSpecReadsQuoted([(0, SomeLine)], Cursor(0, SomeLine, 5, 1), "TestStr", ")");
  }

  /** A line starting with "Some" takes the Some branch of the Option parse. */
  lemma SomeBranch(src: seq<Line>, c: Cursor, e: Desc)
    requires Inv(src, c) && WellFormed(e)
    requires Rest(c).Some? && StartsWith(Rest(c).value, "Some") && !StartsWith(Rest(c).value, "None")
    requires Advance(src, c, 4).Some?
    ensures OptionSpec(src, c, e) == SomeSpec(src, Advance(src, c, 4).value, e)
  {
  }

  /** Some("TestStr") is read as Some of the string and leaves nothing. */
  lemma SomeSteps()
    ensures OptionSpec([(0, SomeLine)], Start([(0, SomeLine)]), StringT) ==
      Step(Ok(SomeV(StrV("TestStr"))), Cursor(0, SomeLine, 15, 1))
  {
    SomeScan();
    SomeClose();
    SomeKeyword();
    SomeBranch([(0, SomeLine)], Cursor(0, SomeLine, 0, 1), StringT);
  }

  lemma SomeKeyword()
    ensures Rest(Cursor(0, SomeLine, 0, 1)) == Some(SomeLine)
    ensures StartsWith(SomeLine, "Some") && !StartsWith(SomeLine, "None")
  {
    assert SomeLine[0..] == SomeLine;
    assert SomeLine[0] != "None"[0];
  }

  /** After the keyword: '(', the String and ')'. */
  lemma SomeClose()
    ensures SomeSpec([(0, SomeLine)], Cursor(0, SomeLine, 4, 1), StringT) ==
      Step(Ok(SomeV(StrV("TestStr"))), Cursor(0, SomeLine, 15, 1))
  {
    SomeScan();
    SomeScanInner();
    SomeInner();
  }

  /** "None" is read as None and leaves nothing. */
  lemma NoneSteps()
    ensures OptionSpec([(0, "None")], Start([(0, "None")]), StringT) == Step(Ok(NoneV), Cursor(0, "None", 4, 1))
  {
    assert SkipWs("None", 0) == 0;
    assert Start([(0, "None")]) == Cursor(0, "None", 0, 1);
  }

  /** The Option<String> parses of Some("TestStr") and None, each leaving nothing. */
  method OptionParse() returns (some: Result<Value>, someRest: Option<string>, none: Result<Value>, noneRest: Option<string>)
    ensures some == Ok(SomeV(StrV("TestStr"))) && someRest == None
    ensures none == Ok(NoneV) && noneRest == None
  {
    var p := new ConfigProvider.FromLine(SomeLine);
    SomeSteps();
    some := ParseOption(p, StringT);
    someRest := p.GetNext();

    p := new ConfigProvider.FromLine("None");
    NoneSteps();
    none := ParseOption(p, StringT);
    noneRest := p.GetNext();
  }

  // ---------------------------------------------------------------------
  // Vec<char>: [] and [ '1', '2', '3' ]

  const VecLine: string := "[ '1', '2', '3' ]"
  const VecSrc: seq<Line> := [(0, VecLine)]

  function VecAt(col: nat): Cursor
  {
    Cursor(0, VecLine, col, 1)
  }

  const OneTwoThree: seq<Value> := [CharV('1'), CharV('2'), CharV('3')]

  /** Where the scanner stands on [ '1', '2', '3' ]: '[' and the first element. */
  lemma VecScanFirst()
    ensures Start(VecSrc) == VecAt(0)
    ensures AdvanceChar(VecSrc, VecAt(0), '[') == Some(VecAt(2))
    ensures Advance(VecSrc, VecAt(2), 3) == Some(VecAt(5))
  {
    StartAt(VecLine);
    AdvanceCharTo(VecSrc, VecAt(0), '[', 2);
    AdvanceTo(VecSrc, VecAt(2), 3, 5);
  }

  /** ... the second element ... */
  lemma VecScanSecond()
    ensures AdvanceChar(VecSrc, VecAt(5), ',') == Some(VecAt(7))
    ensures Advance(VecSrc, VecAt(7), 3) == Some(VecAt(10))
  {
    AdvanceCharTo(VecSrc, VecAt(5), ',', 7);
    AdvanceTo(VecSrc, VecAt(7), 3, 10);
  }

  /** ... the third element and ']'. */
  lemma VecScanThird()
    ensures AdvanceChar(VecSrc, VecAt(10), ',') == Some(VecAt(12))
    ensures Advance(VecSrc, VecAt(12), 3) == Some(VecAt(16))
    ensures Advance(VecSrc, VecAt(16), 1) == Some(VecAt(17))
  {
    AdvanceCharTo(VecSrc, VecAt(10), ',', 12);
    AdvanceTo(VecSrc, VecAt(12), 3, 16);
    AdvanceToEnd(VecSrc, VecAt(16), 1);
  }

  /** A digit between quotes at col is read as that character. */
  lemma DigitAt(col: nat, ch: char, next: nat)
    requires col + 3 <= |VecLine| && IsDigit(ch)
    requires VecLine[col] == '\'' && VecLine[col + 1] == ch && VecLine[col + 2] == '\''
    requires Advance(VecSrc, VecAt(col), 3) == Some(VecAt(next))
    ensures ParseSpec(VecSrc, VecAt(col), CharT) == Step(Ok(CharV(ch)), VecAt(next))
  {
    DigitQuoted(col, ch);
    CharSpecReadsQuoted(VecSrc, VecAt(col), ch, VecLine[col + 3..]);
  }

  /** A digit between quotes is the character literal of that digit. */
  lemma DigitQuoted(col: nat, ch: char)
    requires col + 3 <= |VecLine| && IsDigit(ch)
    requires VecLine[col] == '\'' && VecLine[col + 1] == ch && VecLine[col + 2] == '\''
    ensures Inv(VecSrc, VecAt(col))
    ensures Rest(VecAt(col)) == Some(QuoteChar(ch) + VecLine[col + 3..])
  {
    assert QuoteChar(ch) == [VecLine[col], ch, VecLine[col + 2]];
    assert VecLine[col..] == QuoteChar(ch) + VecLine[col + 3..];
  }

  /** ']' ends the vector with the three characters and nothing is left. */
  lemma VecLast()
    ensures VecLoop(VecSrc, VecAt(16), CharT, OneTwoThree, false) == Step(Ok(VecV(OneTwoThree)), VecAt(17))
  {
    VecScanThird();
  }

  /** ',' and '3', then the end. */
  lemma VecThird()
    ensures VecLoop(VecSrc, VecAt(10), CharT, OneTwoThree[..2], false) == Step(Ok(VecV(OneTwoThree)), VecAt(17))
  {
    VecScanThird();
    DigitAt(12, '3', 16);
    assert OneTwoThree[..2] + [CharV('3')] == OneTwoThree;
    VecLast();
  }

  /** ',' and '2', then the rest. */
  lemma VecSecond()
    ensures VecLoop(VecSrc, VecAt(5), CharT, OneTwoThree[..1], false) == Step(Ok(VecV(OneTwoThree)), VecAt(17))
  {
    VecScanSecond();
    DigitAt(7, '2', 10);
    assert OneTwoThree[..1] + [CharV('2')] == OneTwoThree[..2];
    VecThird();
  }

  /** '1', then the rest. */
  lemma VecFirst()
    ensures VecLoop(VecSrc, VecAt(2), CharT, [], true) == Step(Ok(VecV(OneTwoThree)), VecAt(17))
  {
    VecScanFirst();
    DigitAt(2, '1', 5);
    assert [] + [CharV('1')] == OneTwoThree[..1];
    VecSecond();
  }

  /** [ '1', '2', '3' ] is read as the three characters and leaves nothing. */
  lemma VecSteps()
    ensures Start(VecSrc) == VecAt(0)
    ensures VecSpec(VecSrc, VecAt(0), CharT) == Step(Ok(VecV(OneTwoThree)), VecAt(17))
  {
    VecScanFirst();
    VecFirst();
  }

  /** [] is the empty vector and leaves nothing. */
  lemma EmptyVecSteps()
    ensures Start([(0, "[]")]) == Cursor(0, "[]", 0, 1)
    ensures VecSpec([(0, "[]")], Cursor(0, "[]", 0, 1), CharT) == Step(Ok(VecV([])), Cursor(0, "[]", 2, 1))
  {
    assert SkipWs("[]", 0) == 0 && SkipWs("[]", 1) == 1;
  }

  /** The Vec<char> parses of [] and [ '1', '2', '3' ], each leaving nothing. */
  method VecParse() returns (empty: Result<Value>, emptyRest: Option<string>, three: Result<Value>, threeRest: Option<string>)
    ensures empty == Ok(VecV([])) && emptyRest == None
    ensures three == Ok(VecV([CharV('1'), CharV('2'), CharV('3')])) && threeRest == None
  {
    var p := new ConfigProvider.FromLine("[]");
    EmptyVecSteps();
    empty := ParseVec(p, CharT);
    emptyRest := p.GetNext();

    p := new ConfigProvider.FromLine(VecLine);
    VecSteps();
    three := ParseVec(p, CharT);
    threeRest := p.GetNext();
  }
  // ---------------------------------------------------------------------
  // struct StructStruct { s: String, c: char } read from an unknown key

  const StructFields: seq<Field> := [Field("s", StringT, None), Field("c", CharT, None)]
  const StructStruct: Desc := StructT("StructStruct", Shape(NamedShape, StructFields), Attrs(None, None))
  const UnknownLine: string := "{ k: 'C', s: \"TestStr\" }"

  lemma StructStructWellFormed()
    ensures WellFormed(StructStruct) && NamedWellFormed(StructFields)
  {
    assert FieldWellFormed(StructFields[0], NamedShape);
    assert FieldWellFormed(StructFields[1], NamedShape);
    assert ShapeWellFormed(StructStruct.shape);
  }

  /** After '{' the scanner stands on k. */
  lemma UnknownScan()
    ensures Start([(0, UnknownLine)]) == Cursor(0, UnknownLine, 0, 1)
    ensures AdvanceChar([(0, UnknownLine)], Cursor(0, UnknownLine, 0, 1), '{') == Some(Cursor(0, UnknownLine, 2, 1))
    ensures Rest(Cursor(0, UnknownLine, 2, 1)) == Some(UnknownLine[2..])
    ensures Peek(Cursor(0, UnknownLine, 2, 1)) == Some('k')
  {
    StartAt(UnknownLine);
    AdvanceCharTo([(0, UnknownLine)], Cursor(0, UnknownLine, 0, 1), '{', 2);
  }

  /** No field name starts a text that starts with k. */
  lemma UnknownNoField(t: string)
    requires |t| > 0 && t[0] == 'k'
    ensures MatchField(StructFields, t).None?
  {
    assert !StartsWith(t, StructFields[0].name) by { assert t[..1][0] != "s"[0]; }
    assert !StartsWith(t, StructFields[1].name) by { assert t[..1][0] != "c"[0]; }
    assert MatchField(StructFields[1..][1..], t).None?;
  }

  /** The unknown key k fails the struct parse with Final, just after '{'. */
  lemma UnknownKeySteps()
    ensures StructSpec([(0, UnknownLine)], Cursor(0, UnknownLine, 0, 1), StructStruct) ==
      Step(Err(Final), Cursor(0, UnknownLine, 2, 1))
  {
    StructStructWellFormed();
    UnknownScan();
    UnknownNoField(UnknownLine[2..]);
    var src := [(0, UnknownLine)];
    var c := Cursor(0, UnknownLine, 2, 1);
    assert StatesTyped(InitStates(StructFields), StructFields);
    ParseFacts.UnknownKeyIsFinal(src, c, StructFields, InitStates(StructFields));
  }

  /** A struct text with an unknown key is refused. */
  method UnknownKeyParse() returns (r: Result<Value>)
    ensures r == Err(Final)
  {
    var p := new ConfigProvider.FromLine(UnknownLine);
    StructStructWellFormed();
    UnknownScan();
    UnknownKeySteps();
    r := ParseStruct(p, StructStruct);
  }
  // ---------------------------------------------------------------------
  // the same struct read from its keys in the other order

  const StructLine: string := "{ c: 'C', s: \"TestStr\" }"
  const StructSrc: seq<Line> := [(0, StructLine)]

  function StructAt(col: nat): Cursor
  {
    Cursor(0, StructLine, col, 1)
  }

  /** The two fields once both values were pushed. */
  const BothFound: seq<FieldState> := [Found(StrV("TestStr")), Found(CharV('C'))]

  /** A text starting with c names the second field. */
  lemma CField(t: string)
    requires |t| > 0 && t[0] == 'c'
    ensures MatchField(StructFields, t) == Some(1)
  {
    assert !StartsWith(t, StructFields[0].name) by { assert t[..1][0] != "s"[0]; }
    assert StartsWith(t, StructFields[1].name) by { assert t[..1] == "c"; }
  }

  /** A text starting with s names the first field. */
  lemma SField(t: string)
    requires |t| > 0 && t[0] == 's'
    ensures MatchField(StructFields, t) == Some(0)
  {
    assert StartsWith(t, StructFields[0].name) by { assert t[..1] == "s"; }
  }

  /** '{' is read. */
  lemma StructScanOpen()
    ensures Start(StructSrc) == StructAt(0)
    ensures AdvanceChar(StructSrc, StructAt(0), '{') == Some(StructAt(2))
  {
    StartAt(StructLine);
    AdvanceCharTo(StructSrc, StructAt(0), '{', 2);
  }

  /** The key c and its ':'. */
  lemma StructScanC()
    ensures Inv(StructSrc, StructAt(2))
    ensures Peek(StructAt(2)) == Some('c') && Rest(StructAt(2)) == Some(StructLine[2..])
    ensures Advance(StructSrc, StructAt(2), 1) == Some(StructAt(3))
    ensures AdvanceChar(StructSrc, StructAt(3), ':') == Some(StructAt(5))
  {
    StructScanColon();
  }

  /** The ':' after c. */
  lemma StructScanColon()
    ensures Advance(StructSrc, StructAt(2), 1) == Some(StructAt(3))
    ensures AdvanceChar(StructSrc, StructAt(3), ':') == Some(StructAt(5))
  {
    AdvanceTo(StructSrc, StructAt(2), 1, 3);
    AdvanceCharTo(StructSrc, StructAt(3), ':', 5);
  }

  /** 'C', then ','. */
  lemma StructScanComma()
    ensures Inv(StructSrc, StructAt(5))
    ensures Advance(StructSrc, StructAt(5), 3) == Some(StructAt(8))
    ensures Peek(StructAt(8)) == Some(',') && Advance(StructSrc, StructAt(8), 1) == Some(StructAt(10))
  {
    AdvanceTo(StructSrc, StructAt(5), 3, 8);
    StructScanAfterComma();
  }

  /** The ',' itself. */
  lemma StructScanAfterComma()
    ensures Advance(StructSrc, StructAt(8), 1) == Some(StructAt(10))
  {
    AdvanceTo(StructSrc, StructAt(8), 1, 10);
  }

  /** The key s and its ':'. */
  lemma StructScanS()
    ensures Inv(StructSrc, StructAt(10))
    ensures Peek(StructAt(10)) == Some('s') && Rest(StructAt(10)) == Some(StructLine[10..])
    ensures Advance(StructSrc, StructAt(10), 1) == Some(StructAt(11))
    ensures AdvanceChar(StructSrc, StructAt(11), ':') == Some(StructAt(13))
  {
    AdvanceTo(StructSrc, StructAt(10), 1, 11);
    AdvanceCharTo(StructSrc, StructAt(11), ':', 13);
  }

  /** "TestStr" starts at column 13. */
  lemma StructScanString()
    ensures Inv(StructSrc, StructAt(13))
    ensures Rest(StructAt(13)) == Some(QuoteString("TestStr") + " }")
  {
    TestStrLiteral();
    assert StructLine[13..] == QuoteString("TestStr") + " }";
  }

  /** After "TestStr", the closing '}'. */
  lemma StructScanEnd()
    ensures Advance(StructSrc, StructAt(13), 9) == Some(StructAt(23))
    ensures Inv(StructSrc, StructAt(23))
    ensures Peek(StructAt(23)) == Some('}') && Advance(StructSrc, StructAt(23), 1) == Some(StructAt(24))
  {
    AdvanceTo(StructSrc, StructAt(13), 9, 23);
    AdvanceToEnd(StructSrc, StructAt(23), 1);
  }

  /** The key c. */
  lemma StructKeyC()
    ensures Inv(StructSrc, StructAt(2))
    ensures KeySpec(StructSrc, StructAt(2), StructFields) == Step(Ok(1), StructAt(5))
  {
    StructScanC();
    CField(StructLine[2..]);
  }

  /** The key s. */
  lemma StructKeyS()
    ensures Inv(StructSrc, StructAt(10))
    ensures KeySpec(StructSrc, StructAt(10), StructFields) == Step(Ok(0), StructAt(13))
  {
    StructScanS();
    SField(StructLine[10..]);
  }

  /** The value of c. */
  lemma StructValueC()
    ensures Inv(StructSrc, StructAt(5))
    ensures ParseSpec(StructSrc, StructAt(5), CharT) == Step(Ok(CharV('C')), StructAt(8))
  {
    StructScanComma();
    assert QuoteChar('C') == StructLine[5..8];
    assert StructLine[5..] == QuoteChar('C') + StructLine[8..];
    CharSpecReadsQuoted(StructSrc, StructAt(5), 'C', StructLine[8..]);
  }

  /** The value of s. */
  lemma StructValueS()
    ensures Inv(StructSrc, StructAt(13))
    ensures ParseSpec(StructSrc, StructAt(13), StringT) == Step(Ok(StrV("TestStr")), StructAt(23))
  {
    StructScanString();
    StructScanEnd();
    TestStrLiteral();
    StringSpecReadsQuoted(StructSrc, StructAt(13), "TestStr", " }");
  }

  /** The field states met along the way hold values of their field types. */
  lemma StructStatesTyped()
    ensures StatesTyped(InitStates(StructFields), StructFields)
    ensures StatesTyped([Empty, Found(CharV('C'))], StructFields)
    ensures StatesTyped(BothFound, StructFields)
  {
    assert InitStates(StructFields) == [Empty, Empty];
  }

  /** '}' ends the loop with both fields found. */
  lemma StructClose()
    ensures Inv(StructSrc, StructAt(23))
    ensures NamedLoop(StructSrc, StructAt(23), StructFields, BothFound) == Step(Ok(BothFound), StructAt(24))
  {
    StructStructWellFormed();
    StructScanEnd();
    StructStatesTyped();
  }

  /** The value of s is pushed into the first field, then '}'. */
  lemma StructSecondValue()
    ensures Inv(StructSrc, StructAt(13))
    ensures NamedValue(StructSrc, StructAt(13), StructFields, [Empty, Found(CharV('C'))], 0) ==
      Step(Ok(BothFound), StructAt(24))
  {
    StructStructWellFormed();
    StructStatesTyped();
    StructValueS();
    StructClose();
    assert [Empty, Found(CharV('C'))][0 := Found(StrV("TestStr"))] == BothFound;
  }

  /** The key s, then its value. */
  lemma StructSecond()
    ensures NamedLoop(StructSrc, StructAt(10), StructFields, [Empty, Found(CharV('C'))]) ==
      Step(Ok(BothFound), StructAt(24))
  {
    StructStructWellFormed();
    StructStatesTyped();
    StructScanS();
    StructKeyS();
    StructSecondValue();
  }

  /** The value of c is pushed into the second field, then ',' and the rest. */
  lemma StructFirstValue()
    ensures Inv(StructSrc, StructAt(5))
    ensures NamedValue(StructSrc, StructAt(5), StructFields, [Empty, Empty], 1) ==
      Step(Ok(BothFound), StructAt(24))
  {
    StructStructWellFormed();
    StructStatesTyped();
    StructValueC();
    StructScanComma();
    assert [Empty, Empty][1 := Found(CharV('C'))] == [Empty, Found(CharV('C'))];
    StructSecond();
  }

  /** The key c, then its value. */
  lemma StructFirst()
    ensures NamedLoop(StructSrc, StructAt(2), StructFields, InitStates(StructFields)) ==
      Step(Ok(BothFound), StructAt(24))
  {
    StructStructWellFormed();
    StructStatesTyped();
    StructScanC();
    StructKeyC();
    assert InitStates(StructFields) == [Empty, Empty];
    StructFirstValue();
  }

  /**
   * { c: 'C', s: "TestStr" } is read as the struct with s = "TestStr" and
   * c = 'C': the keys may come in any order, the values land in
   * declaration order, and nothing is left.
   */
  lemma StructSteps()
    ensures StructSpec(StructSrc, StructAt(0), StructStruct) ==
      Step(Ok(StructV([StrV("TestStr"), CharV('C')])), StructAt(24))
  {
    StructStructWellFormed();
    StructScanOpen();
    StructFirst();
    StructResolved();
  }

  /** Both found values resolve, in declaration order. */
  lemma StructResolved()
    ensures ResolveFrom(StructFields, BothFound, 0, []) == Ok([StrV("TestStr"), CharV('C')])
  {
    var s, c := StrV("TestStr"), CharV('C');
    assert ResolveFrom(StructFields, BothFound, 2, [s, c]) == Ok([s, c]);
    assert [s] + [c] == [s, c];
    assert ResolveFrom(StructFields, BothFound, 1, [s]) == ResolveFrom(StructFields, BothFound, 2, [s, c]);
    assert [] + [s] == [s];
  }

  /** The struct parses from its keys given in the other order than its fields. */
  method StructParse() returns (r: Result<Value>, rest: Option<string>)
    ensures r == Ok(StructV([StrV("TestStr"), CharV('C')])) && rest == None
  {
    var p := new ConfigProvider.FromLine(StructLine);
    StructStructWellFormed();
    StructScanOpen();
    StructSteps();
    r := ParseStruct(p, StructStruct);
    rest := p.GetNext();
  }
}

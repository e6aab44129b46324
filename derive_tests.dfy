/**
 * The parse scenarios of the unit tests of a derived tuple struct, a
 * derived enum with tuple variants and a derived enum with struct
 * variants, worked out on the Parser functions (through the general
 * reading lemmas of ParseFacts) and then replayed on the ConfigProvider
 * methods, with the outcomes proved.
 */
module DeriveTests {
  import opened Common
  import opened Scanner
  import opened Literals
  import opened Schema
  import opened FieldStates
  import opened Scalars
  import opened Parser
  import opened ParseFrom
  import ParseFacts
  import opened LineScans
  import ParseTests


  /** A first positional field that is read makes a read of one field. */
  lemma FirstFieldRead(src: seq<Line>, fs: seq<Field>, start: Cursor, v: Value, stop: Cursor)
    requires TypesWellFormed(fs) && |fs| > 0
    requires ParseFacts.ReadsAt(src, fs[0].ty, start, v, stop)
    ensures ParseFacts.FieldsRead(src, fs, [start], [v], [stop])
  {
    assert ParseFacts.FieldsRead(src, fs, [], [], []);
    ParseFacts.FieldsReadExtend(src, fs, [], [], [], start, v, stop);
  }

  /**
   * A string with nothing to escape, written between quotes, is read as
   * itself, up to where the scanner settles after the closing quote.
   */
  lemma PlainStringAt(src: seq<Line>, c: Cursor, s: string, after: string, stop: Cursor)
    requires Inv(src, c) && Rest(c) == Some("\"" + s + "\"" + after)
    requires forall i :: 0 <= i < |s| ==> s[i] !in "\"\\\n\r\t\0"
    requires Advance(src, c, |s| + 2) == Some(stop)
    ensures ParseFacts.ReadsAt(src, StringT, c, StrV(s), stop)
  {
    ParseTests.PlainEscaped(s);
    StringSpecReadsQuoted(src, c, s, after);
  }

  // ---------------------------------------------------------------------
  // struct TupleStruct(String, char)

  const PairFields: seq<Field> := [Field("", StringT, None), Field("", CharT, None)]
  const TupleStruct: Desc := StructT("TupleStruct", Shape(TupleShape, PairFields), Attrs(None, None))

  lemma TupleStructWellFormed()
    ensures WellFormed(TupleStruct) && TypesWellFormed(PairFields)
  {
    assert FieldWellFormed(PairFields[0], TupleShape);
    assert FieldWellFormed(PairFields[1], TupleShape);
    assert ShapeWellFormed(TupleStruct.shape);
  }

  const PairLine: string := "( \"TestStr1\", 'C' )"
  const PairSrc: seq<Line> := [(0, PairLine)]

  function PairAt(col: nat): Cursor
  {
    Cursor(0, PairLine, col, 1)
  }

  /** '(' is read and the scanner stands on the string. */
  lemma PairScanOpen()
    ensures Start(PairSrc) == PairAt(0)
    ensures Peek(PairAt(0)) == Some('(')
    ensures AdvanceChar(PairSrc, PairAt(0), '(') == Some(PairAt(2))
  {
    StartAt(PairLine);
    AdvanceCharTo(PairSrc, PairAt(0), '(', 2);
  }

  /** "TestStr1" starts at column 2 and the scanner stops at the ',' after it. */
  lemma PairScanFirst()
    ensures Rest(PairAt(2)) == Some("\"" + "TestStr1" + "\"" + ", 'C' )")
    ensures Advance(PairSrc, PairAt(2), 10) == Some(PairAt(12))
  {
    assert PairLine[2..] == "\"" + "TestStr1" + "\"" + ", 'C' )";
    AdvanceTo(PairSrc, PairAt(2), 10, 12);
  }

  /** The first field: "TestStr1", up to the ','. */
  lemma PairFirst()
    ensures ParseFacts.ReadsAt(PairSrc, StringT, PairAt(2), StrV("TestStr1"), PairAt(12))
  {
    PairScanOpen();
    PairScanFirst();
    PlainStringAt(PairSrc, PairAt(2), "TestStr1", ", 'C' )", PairAt(12));
  }

  /** ',' and the second field: 'C', up to the ')'. */
  lemma PairSecond()
    ensures AdvanceChar(PairSrc, PairAt(12), ',') == Some(PairAt(14))
    ensures ParseFacts.ReadsAt(PairSrc, CharT, PairAt(14), CharV('C'), PairAt(18))
  {
    PairScanSecond();
    CharSpecReadsQuoted(PairSrc, PairAt(14), 'C', PairLine[17..]);
  }

  /** ',', then 'C' from column 14, and the scanner stops at the ')' after it. */
  lemma PairScanSecond()
    ensures AdvanceChar(PairSrc, PairAt(12), ',') == Some(PairAt(14))
    ensures Rest(PairAt(14)) == Some(QuoteChar('C') + PairLine[17..])
    ensures Advance(PairSrc, PairAt(14), |QuoteChar('C')|) == Some(PairAt(18))
  {
    AdvanceCharTo(PairSrc, PairAt(12), ',', 14);
    assert QuoteChar('C') == PairLine[14..17];
    assert PairLine[14..] == QuoteChar('C') + PairLine[17..];
    AdvanceTo(PairSrc, PairAt(14), 3, 18);
  }

  /** ')' ends the line. */
  lemma PairScanClose()
    ensures Peek(PairAt(18)) == Some(')')
    ensures AdvanceChar(PairSrc, PairAt(18), ')') == Some(PairAt(19))
  {
    AdvanceToEnd(PairSrc, PairAt(18), 1);
  }

  /** The first field is read. */
  lemma PairFirstRead()
    ensures ParseFacts.FieldsRead(PairSrc, PairFields, [PairAt(2)], [StrV("TestStr1")], [PairAt(12)])
  {
    TupleStructWellFormed();
    PairFirst();
    FirstFieldRead(PairSrc, PairFields, PairAt(2), StrV("TestStr1"), PairAt(12));
  }

  /** Both fields are read one after the other. */
  lemma PairFieldsRead()
    ensures ParseFacts.FieldsRead(PairSrc, PairFields, [PairAt(2), PairAt(14)],
      [StrV("TestStr1"), CharV('C')], [PairAt(12), PairAt(18)])
  {
    PairFirstRead();
    PairSecond();
    ParseFacts.FieldsReadExtend(PairSrc, PairFields, [PairAt(2)], [StrV("TestStr1")], [PairAt(12)],
      PairAt(14), CharV('C'), PairAt(18));
  }

  /** ( "TestStr1", 'C' ) is read as the pair and leaves nothing. */
  lemma TupleStructSteps()
    ensures StructSpec(PairSrc, PairAt(0), TupleStruct) ==
      Step(Ok(StructV([StrV("TestStr1"), CharV('C')])), PairAt(19))
  {
    TupleStructWellFormed();
    PairScanOpen();
    PairFieldsRead();
    PairScanClose();
    ParseFacts.OrderedReadsFields(PairSrc, PairAt(0), PairFields, [PairAt(2), PairAt(14)],
      [StrV("TestStr1"), CharV('C')], [PairAt(12), PairAt(18)]);
  }

  /** The derived parse of TupleStruct on ( "TestStr1", 'C' ). */
  method TupleStructParse() returns (r: Result<Value>, rest: Option<string>)
    ensures r == Ok(StructV([StrV("TestStr1"), CharV('C')])) && rest == None
  {
    var p := new ConfigProvider.FromLine(PairLine);
    TupleStructWellFormed();
    PairScanOpen();
    TupleStructSteps();
    r := ParseStruct(p, TupleStruct);
    rest := p.GetNext();
  }

  // ---------------------------------------------------------------------
  // enum TupleEnum { TupleCon1(String), TupleCon2(String) }

  const OneString: seq<Field> := [Field("", StringT, None)]
  const TupleEnum: Desc := EnumT("TupleEnum",
    [Variant("TupleCon1", Shape(TupleShape, OneString)), Variant("TupleCon2", Shape(TupleShape, OneString))],
    Attrs(None, None))

  lemma TupleEnumWellFormed()
    ensures WellFormed(TupleEnum) && TypesWellFormed(OneString)
  {
    assert FieldWellFormed(OneString[0], TupleShape);
    assert ShapeWellFormed(Shape(TupleShape, OneString));
  }

  /** A string with no quote, backslash or carriage return in it never closes a literal. */
  lemma {:induction false} PlainUnclosed(s: string)
    requires forall i :: 0 <= i < |s| ==> s[i] !in "\"\\\r"
    ensures ScanBody(s) == Unclosed
    decreases |s|
  {
    if |s| > 0 {
      assert NextTurn(s) == Piece([s[0]], 1);
      PlainUnclosed(s[1..]);
    }
  }

  const Con1Line: string := "TupleCon1 ( \"TestStr\")"
  const Con1Src: seq<Line> := [(0, Con1Line)]

  function Con1At(col: nat): Cursor
  {
    Cursor(0, Con1Line, col, 1)
  }

  /** The name TupleCon1, then '(' after the blank. */
  lemma Con1Scan()
    ensures Start(Con1Src) == Con1At(0)
    ensures MatchVariant(TupleEnum.variants, Con1Line) == Some(0)
    ensures Advance(Con1Src, Con1At(0), 9) == Some(Con1At(10))
    ensures Peek(Con1At(10)) == Some('(') && AdvanceChar(Con1Src, Con1At(10), '(') == Some(Con1At(12))
  {
    StartAt(Con1Line);
    assert Con1Line[..9] == "TupleCon1";
    AdvanceTo(Con1Src, Con1At(0), 9, 10);
    AdvanceCharTo(Con1Src, Con1At(10), '(', 12);
  }

  /** "TestStr" starts at column 12 and the scanner stops at the ')' after it. */
  lemma Con1ScanField()
    ensures Rest(Con1At(12)) == Some("\"" + "TestStr" + "\"" + ")")
    ensures Advance(Con1Src, Con1At(12), 9) == Some(Con1At(21))
  {
    assert Con1Line[12..] == "\"" + "TestStr" + "\"" + ")";
    AdvanceTo(Con1Src, Con1At(12), 9, 21);
  }

  /** The field "TestStr", up to the ')'. */
  lemma Con1Field()
    ensures ParseFacts.FieldsRead(Con1Src, OneString, [Con1At(12)], [StrV("TestStr")], [Con1At(21)])
  {
    TupleEnumWellFormed();
    Con1Scan();
    Con1ScanField();
    PlainStringAt(Con1Src, Con1At(12), "TestStr", ")", Con1At(21));
    FirstFieldRead(Con1Src, OneString, Con1At(12), StrV("TestStr"), Con1At(21));
  }

  /** ( "TestStr") is read as the one field and ends the line. */
  lemma Con1Fields()
    ensures Inv(Con1Src, Con1At(10))
    ensures OrderedSpec(Con1Src, Con1At(10), OneString) == Step(Ok([StrV("TestStr")]), Con1At(22))
  {
    TupleEnumWellFormed();
    Con1Scan();
    Con1Field();
    AdvanceToEnd(Con1Src, Con1At(21), 1);
    ParseFacts.OrderedReadsFields(Con1Src, Con1At(10), OneString, [Con1At(12)], [StrV("TestStr")], [Con1At(21)]);
  }

  /** TupleCon1 ( "TestStr") is read as TupleCon1("TestStr") and leaves nothing. */
  lemma Con1Steps()
    ensures WellFormed(TupleEnum)
    ensures EnumSpec(Con1Src, Start(Con1Src), TupleEnum) ==
      Step(Ok(EnumV("TupleCon1", [StrV("TestStr")])), Con1At(22))
  {
    TupleEnumWellFormed();
    Con1Scan();
    Con1Fields();
  }

  const Con2Line: string := "TupleCon2(\"TestStr\") asdf"
  const Con2Src: seq<Line> := [(0, Con2Line)]

  function Con2At(col: nat): Cursor
  {
    Cursor(0, Con2Line, col, 1)
  }

  /** The name TupleCon2, which TupleCon1 does not start, then '('. */
  lemma Con2Scan()
    ensures Start(Con2Src) == Con2At(0)
    ensures MatchVariant(TupleEnum.variants, Con2Line) == Some(1)
    ensures Advance(Con2Src, Con2At(0), 9) == Some(Con2At(9))
    ensures Peek(Con2At(9)) == Some('(') && AdvanceChar(Con2Src, Con2At(9), '(') == Some(Con2At(10))
  {
    StartAt(Con2Line);
    assert Con2Line[..9][8] != "TupleCon1"[8];
    assert Con2Line[..9] == "TupleCon2";
    AdvanceTo(Con2Src, Con2At(0), 9, 9);
    AdvanceCharTo(Con2Src, Con2At(9), '(', 10);
  }

  /** "TestStr" starts at column 10 and the scanner stops at the ')' after it. */
  lemma Con2ScanField()
    ensures Rest(Con2At(10)) == Some("\"" + "TestStr" + "\"" + ") asdf")
    ensures Advance(Con2Src, Con2At(10), 9) == Some(Con2At(19))
  {
    assert Con2Line[10..] == "\"" + "TestStr" + "\"" + ") asdf";
    AdvanceTo(Con2Src, Con2At(10), 9, 19);
  }

  /** The field "TestStr", up to the ')'. */
  lemma Con2Field()
    ensures ParseFacts.FieldsRead(Con2Src, OneString, [Con2At(10)], [StrV("TestStr")], [Con2At(19)])
  {
    TupleEnumWellFormed();
    Con2Scan();
    Con2ScanField();
    PlainStringAt(Con2Src, Con2At(10), "TestStr", ") asdf", Con2At(19));
    FirstFieldRead(Con2Src, OneString, Con2At(10), StrV("TestStr"), Con2At(19));
  }

  /** ("TestStr") is read as the one field and the scanner stops at asdf. */
  lemma Con2Fields()
    ensures Inv(Con2Src, Con2At(9))
    ensures OrderedSpec(Con2Src, Con2At(9), OneString) == Step(Ok([StrV("TestStr")]), Con2At(21))
  {
    TupleEnumWellFormed();
    Con2Scan();
    Con2Field();
    AdvanceCharTo(Con2Src, Con2At(19), ')', 21);
    ParseFacts.OrderedReadsFields(Con2Src, Con2At(9), OneString, [Con2At(10)], [StrV("TestStr")], [Con2At(19)]);
  }

  /** TupleCon2("TestStr") asdf is read as TupleCon2("TestStr") and leaves asdf. */
  lemma Con2Steps()
    ensures WellFormed(TupleEnum)
    ensures EnumSpec(Con2Src, Start(Con2Src), TupleEnum) ==
      Step(Ok(EnumV("TupleCon2", [StrV("TestStr")])), Con2At(21))
    ensures Rest(Con2At(21)) == Some("asdf")
  {
    TupleEnumWellFormed();
    Con2Scan();
    Con2Fields();
    assert Con2Line[21..] == "asdf";
  }

  /** A line that starts with neither variant name is refused where it starts. */
  lemma NoVariantRefused(d: Desc, t: string)
    requires d.EnumT? && WellFormed(d) && |t| > 0 && !IsWhitespace(t[0]) && t[0] != '#'
    requires forall k :: 0 <= k < |d.variants| ==> !StartsWith(t, d.variants[k].name)
    ensures EnumSpec([(0, t)], Start([(0, t)]), d) == Step(Err(Final), Cursor(0, t, 0, 1))
  {
    StartAt(t);
    assert t[0..] == t;
  }

  /** TupleCon3("TestStr") names no variant of TupleEnum. */
  lemma Con3Refused()
    ensures WellFormed(TupleEnum)
    ensures EnumSpec([(0, "TupleCon3(\"TestStr\")")], Start([(0, "TupleCon3(\"TestStr\")")]), TupleEnum) ==
      Step(Err(Final), Cursor(0, "TupleCon3(\"TestStr\")", 0, 1))
  {
    TupleEnumWellFormed();
    var t := "TupleCon3(\"TestStr\")";
    assert !StartsWith(t, "TupleCon1") by { assert t[..9][8] != "TupleCon1"[8]; }
    assert !StartsWith(t, "TupleCon2") by { assert t[..9][8] != "TupleCon2"[8]; }
    NoVariantRefused(TupleEnum, t);
  }

  const OpenlessLine: string := "TupleCon2\"TestStr\")"

  /** TupleCon2"TestStr") lacks the '(' and is refused just after the name. */
  lemma OpenlessRefused()
    ensures WellFormed(TupleEnum)
    ensures EnumSpec([(0, OpenlessLine)], Start([(0, OpenlessLine)]), TupleEnum) ==
      Step(Err(Final), Cursor(0, OpenlessLine, 9, 1))
  {
    TupleEnumWellFormed();
    var src, c := [(0, OpenlessLine)], Cursor(0, OpenlessLine, 9, 1);
    OpenlessScan();
    assert OrderedSpec(src, c, OneString) == Step(Err(Final), c);
    assert VariantSpec(src, c, TupleEnum, 1) == Step(Err(Final), c);
  }

  /** The name TupleCon2, then a '"' where '(' should be. */
  lemma OpenlessScan()
    ensures Start([(0, OpenlessLine)]) == Cursor(0, OpenlessLine, 0, 1)
    ensures MatchVariant(TupleEnum.variants, OpenlessLine) == Some(1)
    ensures Advance([(0, OpenlessLine)], Cursor(0, OpenlessLine, 0, 1), 9) == Some(Cursor(0, OpenlessLine, 9, 1))
    ensures Peek(Cursor(0, OpenlessLine, 9, 1)) == Some('"')
  {
    StartAt(OpenlessLine);
    assert OpenlessLine[..9][8] != "TupleCon1"[8];
    assert OpenlessLine[..9] == "TupleCon2";
    AdvanceTo([(0, OpenlessLine)], Cursor(0, OpenlessLine, 0, 1), 9, 9);
  }

  const UnclosedLine: string := "TupleCon2(\"TestStr)"
  const UnclosedSrc: seq<Line> := [(0, UnclosedLine)]

  function UnclosedAt(col: nat): Cursor
  {
    Cursor(0, UnclosedLine, col, 1)
  }

  /** The name TupleCon2, then '('. */
  lemma UnclosedScan()
    ensures Start(UnclosedSrc) == UnclosedAt(0)
    ensures MatchVariant(TupleEnum.variants, UnclosedLine) == Some(1)
    ensures Advance(UnclosedSrc, UnclosedAt(0), 9) == Some(UnclosedAt(9))
    ensures Inv(UnclosedSrc, UnclosedAt(9))
    ensures Peek(UnclosedAt(9)) == Some('(') && AdvanceChar(UnclosedSrc, UnclosedAt(9), '(') == Some(UnclosedAt(10))
  {
    StartAt(UnclosedLine);
    assert UnclosedLine[..9][8] != "TupleCon1"[8];
    assert UnclosedLine[..9] == "TupleCon2";
    AdvanceTo(UnclosedSrc, UnclosedAt(0), 9, 9);
    AdvanceCharTo(UnclosedSrc, UnclosedAt(9), '(', 10);
  }

  /** The literal "TestStr) has no closing quote: the String parse fails, Recoverable, where it starts. */
  lemma UnclosedField()
    ensures Inv(UnclosedSrc, UnclosedAt(10))
    ensures ParseSpec(UnclosedSrc, UnclosedAt(10), StringT) == Step(Err(Recoverable), UnclosedAt(10))
  {
    assert UnclosedLine[10..] == "\"TestStr)";
    assert "\"TestStr)"[1..] == "TestStr)";
    PlainUnclosed("TestStr)");
  }

  /** After '(' the field fails, so the positional fields fail with its error. */
  lemma UnclosedFields()
    ensures Inv(UnclosedSrc, UnclosedAt(9))
    ensures OrderedSpec(UnclosedSrc, UnclosedAt(9), OneString) == Step(Err(Recoverable), UnclosedAt(10))
  {
    TupleEnumWellFormed();
    UnclosedScan();
    UnclosedField();
    assert ParseFacts.FieldsRead(UnclosedSrc, OneString, [], [], []);
    ParseFacts.OrderedFieldFails(UnclosedSrc, UnclosedAt(9), OneString, [], [], [], UnclosedAt(10), Recoverable, UnclosedAt(10));
  }

  /** TupleCon2("TestStr) is refused with the String parse's error, at the open quote. */
  lemma UnclosedRefused()
    ensures WellFormed(TupleEnum)
    ensures EnumSpec(UnclosedSrc, Start(UnclosedSrc), TupleEnum) == Step(Err(Recoverable), UnclosedAt(10))
  {
    TupleEnumWellFormed();
    UnclosedScan();
    UnclosedFields();
  }

  /**
   * The derived parses of TupleEnum: TupleCon1 ( "TestStr") and
   * TupleCon2("TestStr") asdf are read, leaving nothing and asdf; a name
   * that is no variant, a missing '(' and an unclosed literal are refused.
   */
  method TupleEnumParse() returns (first: Result<Value>, firstRest: Option<string>,
                                   second: Result<Value>, secondRest: Option<string>,
                                   third: Result<Value>, fourth: Result<Value>, fifth: Result<Value>)
    ensures first == Ok(EnumV("TupleCon1", [StrV("TestStr")])) && firstRest == None
    ensures second == Ok(EnumV("TupleCon2", [StrV("TestStr")])) && secondRest == Some("asdf")
    ensures third.Err? && fourth.Err? && fifth.Err?
  {
    var p := new ConfigProvider.FromLine(Con1Line);
    Con1Steps();
    first := ParseEnum(p, TupleEnum);
    firstRest := p.GetNext();

    p := new ConfigProvider.FromLine(Con2Line);
    Con2Steps();
    second := ParseEnum(p, TupleEnum);
    secondRest := p.GetNext();

    p := new ConfigProvider.FromLine("TupleCon3(\"TestStr\")");
    Con3Refused();
    third := ParseEnum(p, TupleEnum);

    p := new ConfigProvider.FromLine(OpenlessLine);
    OpenlessRefused();
    fourth := ParseEnum(p, TupleEnum);

    p := new ConfigProvider.FromLine(UnclosedLine);
    UnclosedRefused();
    fifth := ParseEnum(p, TupleEnum);
  }

  /**
   * The three refused lines as the unit test writes them, handed to
   * SimpleEnum rather than TupleEnum: none starts with a SimpleEnum
   * variant name, so each is refused on the name.
   */
  method RefusedBySimpleEnum() returns (third: Result<Value>, fourth: Result<Value>, fifth: Result<Value>)
    ensures third == Err(Final) && fourth == Err(Final) && fifth == Err(Final)
  {
    ParseTests.SimpleEnumWellFormed();
    var p := new ConfigProvider.FromLine("TupleCon3(\"TestStr\")");
    SimpleEnumRefuses("TupleCon3(\"TestStr\")");
    third := ParseEnum(p, ParseTests.SimpleEnum);

    p := new ConfigProvider.FromLine(OpenlessLine);
    SimpleEnumRefuses(OpenlessLine);
    fourth := ParseEnum(p, ParseTests.SimpleEnum);

    p := new ConfigProvider.FromLine(UnclosedLine);
    SimpleEnumRefuses(UnclosedLine);
    fifth := ParseEnum(p, ParseTests.SimpleEnum);
  }

  /** A line starting with T starts no SimpleEnum variant name. */
  lemma SimpleEnumRefuses(t: string)
    requires |t| > 0 && t[0] == 'T'
    ensures WellFormed(ParseTests.SimpleEnum)
    ensures EnumSpec([(0, t)], Start([(0, t)]), ParseTests.SimpleEnum) == Step(Err(Final), Cursor(0, t, 0, 1))
  {
    ParseTests.SimpleEnumWellFormed();
    var vs := ParseTests.SimpleEnum.variants;
    assert !StartsWith(t, vs[0].name) by { assert |t| < 10 || t[..10][0] != vs[0].name[0]; }
    assert !StartsWith(t, vs[1].name) by { assert |t| < 10 || t[..10][0] != vs[1].name[0]; }
    NoVariantRefused(ParseTests.SimpleEnum, t);
  }


  // ---------------------------------------------------------------------
  // enum StructEnum { Var1 { s: String, c: char }, Var2 { c: String, s: char } }

  const Var1Fields: seq<Field> := [Field("s", StringT, None), Field("c", CharT, None)]
  const Var2Fields: seq<Field> := [Field("c", StringT, None), Field("s", CharT, None)]
  const StructEnum: Desc := EnumT("StructEnum",
    [Variant("Var1", Shape(NamedShape, Var1Fields)), Variant("Var2", Shape(NamedShape, Var2Fields))],
    Attrs(None, None))

  lemma StructEnumWellFormed()
    ensures WellFormed(StructEnum) && NamedWellFormed(Var2Fields)
  {
    assert FieldWellFormed(Var1Fields[0], NamedShape) && FieldWellFormed(Var1Fields[1], NamedShape);
    assert FieldWellFormed(Var2Fields[0], NamedShape) && FieldWellFormed(Var2Fields[1], NamedShape);
    assert ShapeWellFormed(Shape(NamedShape, Var1Fields));
    assert ShapeWellFormed(Shape(NamedShape, Var2Fields));
  }

  const VarLine: string := "Var2 { s: 'C', c: \"TestStr\" }"
  const VarSrc: seq<Line> := [(0, VarLine)]

  function VarAt(col: nat): Cursor
  {
    Cursor(0, VarLine, col, 1)
  }

  /** The values of Var2 once both were pushed, in declaration order: c, then s. */
  const VarFound: seq<FieldState> := [Found(StrV("TestStr")), Found(CharV('C'))]

  /** The name Var2, which Var1 does not start, then '{'. */
  lemma VarScanOpen()
    ensures Start(VarSrc) == VarAt(0)
    ensures MatchVariant(StructEnum.variants, VarLine) == Some(1)
    ensures Advance(VarSrc, VarAt(0), 4) == Some(VarAt(5))
    ensures Inv(VarSrc, VarAt(5))
    ensures AdvanceChar(VarSrc, VarAt(5), '{') == Some(VarAt(7))
  {
    StartAt(VarLine);
    assert VarLine[..4][3] != "Var1"[3];
    assert VarLine[..4] == "Var2";
    AdvanceTo(VarSrc, VarAt(0), 4, 5);
    AdvanceCharTo(VarSrc, VarAt(5), '{', 7);
  }

  /** A text starting with s names the second field of Var2. */
  lemma VarFieldS(t: string)
    requires |t| > 0 && t[0] == 's'
    ensures MatchField(Var2Fields, t) == Some(1)
  {
    assert !StartsWith(t, Var2Fields[0].name) by { assert t[..1][0] != "c"[0]; }
    assert StartsWith(t, Var2Fields[1].name) by { assert t[..1] == "s"; }
  }

  /** A text starting with c names the first field of Var2. */
  lemma VarFieldC(t: string)
    requires |t| > 0 && t[0] == 'c'
    ensures MatchField(Var2Fields, t) == Some(0)
  {
    assert StartsWith(t, Var2Fields[0].name) by { assert t[..1] == "c"; }
  }

  /** The key s and its ':'. */
  lemma VarScanS()
    ensures Inv(VarSrc, VarAt(7))
    ensures Peek(VarAt(7)) == Some('s') && Rest(VarAt(7)) == Some(VarLine[7..])
    ensures Advance(VarSrc, VarAt(7), 1) == Some(VarAt(8))
    ensures AdvanceChar(VarSrc, VarAt(8), ':') == Some(VarAt(10))
  {
    VarScanColonS();
  }

  /** The ':' after s. */
  lemma VarScanColonS()
    ensures Advance(VarSrc, VarAt(7), 1) == Some(VarAt(8))
    ensures AdvanceChar(VarSrc, VarAt(8), ':') == Some(VarAt(10))
  {
    AdvanceTo(VarSrc, VarAt(7), 1, 8);
    AdvanceCharTo(VarSrc, VarAt(8), ':', 10);
  }

  /** 'C', then ','. */
  lemma VarScanComma()
    ensures Inv(VarSrc, VarAt(10))
    ensures Advance(VarSrc, VarAt(10), 3) == Some(VarAt(13))
    ensures Peek(VarAt(13)) == Some(',') && Advance(VarSrc, VarAt(13), 1) == Some(VarAt(15))
  {
    AdvanceTo(VarSrc, VarAt(10), 3, 13);
    VarScanAfterComma();
  }

  /** The ',' itself. */
  lemma VarScanAfterComma()
    ensures Advance(VarSrc, VarAt(13), 1) == Some(VarAt(15))
  {
    AdvanceTo(VarSrc, VarAt(13), 1, 15);
  }

  /** The key c and its ':'. */
  lemma VarScanC()
    ensures Inv(VarSrc, VarAt(15))
    ensures Peek(VarAt(15)) == Some('c') && Rest(VarAt(15)) == Some(VarLine[15..])
    ensures Advance(VarSrc, VarAt(15), 1) == Some(VarAt(16))
    ensures AdvanceChar(VarSrc, VarAt(16), ':') == Some(VarAt(18))
  {
    AdvanceTo(VarSrc, VarAt(15), 1, 16);
    AdvanceCharTo(VarSrc, VarAt(16), ':', 18);
  }

  /** "TestStr" starts at column 18. */
  lemma VarScanString()
    ensures Inv(VarSrc, VarAt(18))
    ensures Rest(VarAt(18)) == Some(QuoteString("TestStr") + " }")
  {
    ParseTests.TestStrLiteral();
    assert VarLine[18..] == QuoteString("TestStr") + " }";
  }

  /** After "TestStr", the closing '}'. */
  lemma VarScanEnd()
    ensures Advance(VarSrc, VarAt(18), 9) == Some(VarAt(28))
    ensures Inv(VarSrc, VarAt(28))
    ensures Peek(VarAt(28)) == Some('}') && Advance(VarSrc, VarAt(28), 1) == Some(VarAt(29))
  {
    AdvanceTo(VarSrc, VarAt(18), 9, 28);
    AdvanceToEnd(VarSrc, VarAt(28), 1);
  }

  /** The key s. */
  lemma VarKeyS()
    ensures Inv(VarSrc, VarAt(7))
    ensures KeySpec(VarSrc, VarAt(7), Var2Fields) == Step(Ok(1), VarAt(10))
  {
    VarScanS();
    VarFieldS(VarLine[7..]);
  }

  /** The key c. */
  lemma VarKeyC()
    ensures Inv(VarSrc, VarAt(15))
    ensures KeySpec(VarSrc, VarAt(15), Var2Fields) == Step(Ok(0), VarAt(18))
  {
    VarScanC();
    VarFieldC(VarLine[15..]);
  }

  /** 'C' starts at column 10. */
  lemma VarScanChar()
    ensures Rest(VarAt(10)) == Some(QuoteChar('C') + VarLine[13..])
  {
    assert QuoteChar('C') == VarLine[10..13];
    assert VarLine[10..] == QuoteChar('C') + VarLine[13..];
  }

  /** The value of s. */
  lemma VarValueS()
    ensures Inv(VarSrc, VarAt(10))
    ensures ParseSpec(VarSrc, VarAt(10), CharT) == Step(Ok(CharV('C')), VarAt(13))
  {
    VarScanComma();
    VarScanChar();
    CharSpecReadsQuoted(VarSrc, VarAt(10), 'C', VarLine[13..]);
  }

  /** The value of c. */
  lemma VarValueC()
    ensures Inv(VarSrc, VarAt(18))
    ensures ParseSpec(VarSrc, VarAt(18), StringT) == Step(Ok(StrV("TestStr")), VarAt(28))
  {
    VarScanString();
    VarScanEnd();
    ParseTests.TestStrLiteral();
    StringSpecReadsQuoted(VarSrc, VarAt(18), "TestStr", " }");
  }

  /** The field states met along the way hold values of the field types of Var2. */
  lemma VarStatesTyped()
    ensures StatesTyped(InitStates(Var2Fields), Var2Fields)
    ensures StatesTyped([Empty, Found(CharV('C'))], Var2Fields)
    ensures StatesTyped(VarFound, Var2Fields)
  {
    assert InitStates(Var2Fields) == [Empty, Empty];
  }

  /** '}' ends the loop with both fields found. */
  lemma VarClose()
    ensures Inv(VarSrc, VarAt(28))
    ensures NamedLoop(VarSrc, VarAt(28), Var2Fields, VarFound) == Step(Ok(VarFound), VarAt(29))
  {
    StructEnumWellFormed();
    VarScanEnd();
    VarStatesTyped();
  }

  /** The value of c is pushed into the first field, then '}'. */
  lemma VarSecondValue()
    ensures Inv(VarSrc, VarAt(18))
    ensures NamedValue(VarSrc, VarAt(18), Var2Fields, [Empty, Found(CharV('C'))], 0) ==
      Step(Ok(VarFound), VarAt(29))
  {
    StructEnumWellFormed();
    VarStatesTyped();
    VarValueC();
    VarClose();
    assert [Empty, Found(CharV('C'))][0 := Found(StrV("TestStr"))] == VarFound;
  }

  /** The key c, then its value. */
  lemma VarSecond()
    ensures NamedLoop(VarSrc, VarAt(15), Var2Fields, [Empty, Found(CharV('C'))]) ==
      Step(Ok(VarFound), VarAt(29))
  {
    StructEnumWellFormed();
    VarStatesTyped();
    VarScanC();
    VarKeyC();
    VarSecondValue();
  }

  /** The value of s is pushed into the second field, then ',' and the rest. */
  lemma VarFirstValue()
    ensures Inv(VarSrc, VarAt(10))
    ensures NamedValue(VarSrc, VarAt(10), Var2Fields, [Empty, Empty], 1) ==
      Step(Ok(VarFound), VarAt(29))
  {
    StructEnumWellFormed();
    VarStatesTyped();
    VarValueS();
    VarScanComma();
    assert [Empty, Empty][1 := Found(CharV('C'))] == [Empty, Found(CharV('C'))];
    VarSecond();
  }

  /** The key s, then its value. */
  lemma VarFirst()
    ensures NamedLoop(VarSrc, VarAt(7), Var2Fields, InitStates(Var2Fields)) ==
      Step(Ok(VarFound), VarAt(29))
  {
    StructEnumWellFormed();
    VarStatesTyped();
    VarScanS();
    VarKeyS();
    assert InitStates(Var2Fields) == [Empty, Empty];
    VarFirstValue();
  }

  /** Both found values resolve, in declaration order. */
  lemma VarResolved()
    ensures ResolveFrom(Var2Fields, VarFound, 0, []) == Ok([StrV("TestStr"), CharV('C')])
  {
    var c, s := StrV("TestStr"), CharV('C');
    assert ResolveFrom(Var2Fields, VarFound, 2, [c, s]) == Ok([c, s]);
    assert [c] + [s] == [c, s];
    assert ResolveFrom(Var2Fields, VarFound, 1, [c]) == ResolveFrom(Var2Fields, VarFound, 2, [c, s]);
    assert [] + [c] == [c];
  }

  /** The named fields of Var2, from '{' to '}'. */
  lemma VarFields()
    ensures Inv(VarSrc, VarAt(5))
    ensures NamedSpec(VarSrc, VarAt(5), Var2Fields) == Step(Ok([StrV("TestStr"), CharV('C')]), VarAt(29))
  {
    StructEnumWellFormed();
    VarScanOpen();
    VarFirst();
    VarResolved();
  }

  /**
   * Var2 { s: 'C', c: "TestStr" } is read as Var2 with c = "TestStr" and
   * s = 'C': the keys come in the other order than the fields, the values
   * land in declaration order, and nothing is left.
   */
  lemma VarSteps()
    ensures WellFormed(StructEnum)
    ensures EnumSpec(VarSrc, Start(VarSrc), StructEnum) ==
      Step(Ok(EnumV("Var2", [StrV("TestStr"), CharV('C')])), VarAt(29))
  {
    StructEnumWellFormed();
    VarScanOpen();
    VarFields();
  }

  /** The derived parse of StructEnum on Var2 { s: 'C', c: "TestStr" }. */
  method StructEnumParse() returns (r: Result<Value>, rest: Option<string>)
    ensures r == Ok(EnumV("Var2", [StrV("TestStr"), CharV('C')])) && rest == None
  {
    var p := new ConfigProvider.FromLine(VarLine);
    VarSteps();
    r := ParseEnum(p, StructEnum);
    rest := p.GetNext();
  }
}

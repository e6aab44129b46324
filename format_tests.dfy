/**
 * The format-string scenarios of the unit tests: get_format_str of the
 * built-in types and of derived structs and enums, worked out on
 * Schema.Format.
 */
module FormatTests {
  import opened Common
  import opened Schema

  const NoAttrs: Attrs := Attrs(None, None)

  const SimpleEnum: Desc := EnumT("SimpleEnum",
    [Variant("SimpleCon1", Shape(UnitShape, [])), Variant("SimpleCon2", Shape(UnitShape, []))],
    NoAttrs)

  const TupleEnum: Desc := EnumT("TupleEnum",
    [Variant("TupleCon1", Shape(TupleShape, [Field("", StringT, None)])),
     Variant("TupleCon2", Shape(TupleShape, [Field("", StringT, None)]))],
    NoAttrs)

  const StructEnum: Desc := EnumT("StructEnum",
    [Variant("Var1", Shape(NamedShape, [Field("s", StringT, None), Field("c", CharT, None)])),
     Variant("Var2", Shape(NamedShape, [Field("c", StringT, None), Field("s", CharT, None)]))],
    NoAttrs)

  const TupleStruct: Desc :=
    StructT("TupleStruct", Shape(TupleShape, [Field("", StringT, None), Field("", CharT, None)]), NoAttrs)

  const StructStruct: Desc :=
    StructT("StructStruct", Shape(NamedShape, [Field("s", StringT, None), Field("c", CharT, None)]), NoAttrs)

  lemma StringFormat()
    ensures FormatString(StringT) == "String: \"Rust String\""
  {
  }

  lemma PrefixOfConcat(a: string, b: string)
    ensures StartsWith(a + b, a)
  {
    assert (a + b)[..|a|] == a;
  }

  /** The Option line names its element, and the element's own format follows it. */
  lemma OptionFormat()
    ensures StartsWith(FormatString(OptionT(StringT)), "Option<String>: " + "Some(String) | None" + "\n")
  {
    var head := Header(OptionT(StringT));
    assert "Option<" + "String" + ">: " == "Option<String>: ";
    assert "Some(" + "String" + ") | None" == "Some(String) | None";
    assert head == "Option<String>: " + "Some(String) | None";
    var inner := Format(StringT, {"String"}).0;
    assert FormatString(OptionT(StringT)) == head + "\n" + inner;
    PrefixOfConcat(head + "\n", inner);
  }

  lemma VecFormat()
    ensures StartsWith(FormatString(VecT(CharT)), "Vec<char>: " + "[ char, char, ... ]" + "\n")
  {
    var head := Header(VecT(CharT));
    assert "Vec<" + "char" + ">: " == "Vec<char>: ";
    assert "[ " + "char" + ", " + "char" + ", ... ]" == "[ char, char, ... ]";
    assert head == "Vec<char>: " + "[ char, char, ... ]";
    var inner := Format(CharT, {"char"}).0;
    assert FormatString(VecT(CharT)) == head + "\n" + inner;
    PrefixOfConcat(head + "\n", inner);
  }

  lemma TwoVariantTexts(a: Variant, b: Variant)
    ensures VariantTexts([a, b]) == [a.name + ShapeText(a.shape), b.name + ShapeText(b.shape)]
  {
    assert [a, b][1..] == [b];
    assert [b][1..] == [];
  }

  lemma TwoFieldTexts(a: Field, b: Field, named: bool)
    ensures FieldTexts([a, b], named) == [FieldText(a, named), FieldText(b, named)]
  {
    assert [a, b][1..] == [b];
    assert [b][1..] == [];
  }

  lemma OneFieldText(f: Field, named: bool)
    ensures FieldTexts([f], named) == [FieldText(f, named)]
  {
    assert [f][1..] == [];
  }

  lemma JoinTwo(a: string, b: string, sep: string)
    ensures Join([a, b], sep) == a + sep + b
  {
    assert [a, b][1..] == [b];
  }

  lemma AllFieldsTwo(a: Variant, b: Variant)
    ensures AllFields([a, b]) == a.shape.fields + b.shape.fields
  {
    assert [a, b][1..] == [b];
    assert [b][1..] == [];
    assert AllFields([b]) == b.shape.fields + AllFields([]);
    assert b.shape.fields + [] == b.shape.fields;
  }

  /** The format line of a two-variant enum. */
  lemma EnumHeaderTwo(name: string, a: Variant, b: Variant, at: Attrs)
    ensures Header(EnumT(name, [a, b], at)) ==
      name + ": " + (a.name + ShapeText(a.shape) + " | " + (b.name + ShapeText(b.shape)))
  {
    TwoVariantTexts(a, b);
    JoinTwo(a.name + ShapeText(a.shape), b.name + ShapeText(b.shape), " | ");
  }

  lemma TupleShapeOne(t: Desc)
    ensures ShapeText(Shape(TupleShape, [Field("", t, None)])) == "(" + TypeText(t) + ")"
  {
    OneFieldText(Field("", t, None), false);
  }

  lemma TupleShapeTwo(t: Desc, u: Desc)
    ensures ShapeText(Shape(TupleShape, [Field("", t, None), Field("", u, None)])) ==
      "(" + (TypeText(t) + ", " + TypeText(u)) + ")"
  {
    TwoFieldTexts(Field("", t, None), Field("", u, None), false);
    JoinTwo(TypeText(t), TypeText(u), ", ");
  }

  lemma NamedShapeTwo(m: string, t: Desc, n: string, u: Desc)
    ensures ShapeText(Shape(NamedShape, [Field(m, t, None), Field(n, u, None)])) ==
      "{" + (m + ": " + TypeText(t) + ", " + (n + ": " + TypeText(u))) + "}"
  {
    TwoFieldTexts(Field(m, t, None), Field(n, u, None), true);
    JoinTwo(m + ": " + TypeText(t), n + ": " + TypeText(u), ", ");
  }

  lemma TypeTexts()
    ensures TypeText(StringT) == "String" && TypeText(CharT) == "char"
  {
  }

  // Each *Texts lemma below only glues string literals together; keeping
  // them apart from the descriptor reasoning keeps both proofs small.

  lemma SimpleEnumTexts()
    ensures "SimpleCon1" + "" == "SimpleCon1" && "SimpleCon2" + "" == "SimpleCon2"
    ensures "SimpleEnum" + ": " == "SimpleEnum: "
  {
  }

  lemma SimpleEnumHeader()
    ensures Header(SimpleEnum) == "SimpleEnum: " + ("SimpleCon1" + " | " + "SimpleCon2")
  {
    var a := Variant("SimpleCon1", Shape(UnitShape, []));
    var b := Variant("SimpleCon2", Shape(UnitShape, []));
    assert SimpleEnum == EnumT("SimpleEnum", [a, b], NoAttrs);
    EnumHeaderTwo("SimpleEnum", a, b, NoAttrs);
    assert ShapeText(a.shape) == "" && ShapeText(b.shape) == "";
    SimpleEnumTexts();
  }

  lemma SimpleEnumOthers()
    ensures OtherTypes(SimpleEnum) == []
  {
    var a := Variant("SimpleCon1", Shape(UnitShape, []));
    var b := Variant("SimpleCon2", Shape(UnitShape, []));
    assert SimpleEnum.variants == [a, b];
    AllFieldsTwo(a, b);
    assert AllFields([a, b]) == [];
  }

  /** A unit-only enum lists its variants and nothing more. */
  lemma SimpleEnumFormat()
    ensures FormatString(SimpleEnum) == "SimpleEnum: " + ("SimpleCon1" + " | " + "SimpleCon2")
    ensures TypeName(SimpleEnum) == "SimpleEnum"
  {
    SimpleEnumHeader();
    SimpleEnumOthers();
    var h := Header(SimpleEnum);
    assert FormatOthers([], {}, Size(SimpleEnum)) == ("", {});
    assert FormatString(SimpleEnum) == h + "";
  }

  lemma TupleEnumTexts()
    ensures "TupleCon1" + ("(" + "String" + ")") == "TupleCon1(String)"
    ensures "TupleCon2" + ("(" + "String" + ")") == "TupleCon2(String)"
    ensures "TupleEnum" + ": " == "TupleEnum: "
  {
  }

  lemma TupleEnumHeader()
    ensures Header(TupleEnum) == "TupleEnum: " + ("TupleCon1(String)" + " | " + "TupleCon2(String)")
  {
    var f := Field("", StringT, None);
    var a := Variant("TupleCon1", Shape(TupleShape, [f]));
    var b := Variant("TupleCon2", Shape(TupleShape, [f]));
    assert TupleEnum == EnumT("TupleEnum", [a, b], NoAttrs);
    EnumHeaderTwo("TupleEnum", a, b, NoAttrs);
    TupleShapeOne(StringT);
    TypeTexts();
    TupleEnumTexts();
  }

  /** A type used by two fields is listed once. */
  lemma ListedOnce(f: Field)
    ensures FieldTypes([f, f]) == [f.ty]
  {
    assert FieldTypesFrom([f, f], 2, [f.ty]) == [f.ty];
    assert TypeText(([f.ty])[0]) == TypeText([f, f][1].ty);
    assert FieldTypesFrom([f, f], 1, [f.ty]) == [f.ty];
    assert [] + [f.ty] == [f.ty];
  }

  lemma TupleEnumOthers()
    ensures OtherTypes(TupleEnum) == [StringT]
  {
    var f := Field("", StringT, None);
    var a := Variant("TupleCon1", Shape(TupleShape, [f]));
    var b := Variant("TupleCon2", Shape(TupleShape, [f]));
    assert TupleEnum.variants == [a, b];
    AllFieldsTwo(a, b);
    assert AllFields([a, b]) == [f, f];
    ListedOnce(f);
  }

  lemma StringOnceText()
    ensures "\n" + "String: \"Rust String\"" + "" == "\nString: \"Rust String\""
  {
  }

  /** The String format follows once, the first time String is met. */
  lemma StringOnce(bound: nat)
    requires Size(StringT) < bound
    ensures FormatOthers([StringT], {}, bound) == ("\nString: \"Rust String\"", {"String"})
  {
    TypeTexts();
    assert {} + {"String"} == {"String"};
    assert [StringT][1..] == [];
    assert Format(StringT, {"String"}) == ("String: \"Rust String\"", {"String"});
    assert FormatOthers([], {"String"}, bound) == ("", {"String"});
    StringOnceText();
  }

  /** String is described once, although both variants carry one. */
  lemma TupleEnumFormat()
    ensures FormatString(TupleEnum) ==
      "TupleEnum: " + ("TupleCon1(String)" + " | " + "TupleCon2(String)") + "\nString: \"Rust String\""
    ensures TypeName(TupleEnum) == "TupleEnum"
  {
    TupleEnumHeader();
    TupleEnumOthers();
    StringOnce(Size(TupleEnum));
  }

  /** get_format_str starts with the type's own format line. */
  lemma StartsWithHeader(d: Desc, h: string)
    requires Header(d) == h
    ensures StartsWith(FormatString(d), h)
  {
  }

  lemma NamedFieldTexts()
    ensures "s" + ": " + "String" == "s: String" && "c" + ": " + "char" == "c: char"
    ensures "c" + ": " + "String" == "c: String" && "s" + ": " + "char" == "s: char"
  {
  }

  lemma BracedTexts()
    ensures "{" + ("s: String" + ", " + "c: char") + "}" == "{s: String, c: char}"
    ensures "{" + ("c: String" + ", " + "s: char") + "}" == "{c: String, s: char}"
  {
  }

  lemma ShapeSC()
    ensures ShapeText(Shape(NamedShape, [Field("s", StringT, None), Field("c", CharT, None)])) ==
      "{s: String, c: char}"
  {
    NamedShapeTwo("s", StringT, "c", CharT);
    TypeTexts();
    NamedFieldTexts();
    BracedTexts();
  }

  lemma ShapeCS()
    ensures ShapeText(Shape(NamedShape, [Field("c", StringT, None), Field("s", CharT, None)])) ==
      "{c: String, s: char}"
  {
    NamedShapeTwo("c", StringT, "s", CharT);
    TypeTexts();
    NamedFieldTexts();
    BracedTexts();
  }

  lemma StructEnumTexts()
    ensures "Var1" + "{s: String, c: char}" == "Var1{s: String, c: char}"
    ensures "Var2" + "{c: String, s: char}" == "Var2{c: String, s: char}"
    ensures "StructEnum" + ": " == "StructEnum: "
  {
  }

  lemma StructEnumParts()
    ensures Header(StructEnum) ==
      "StructEnum" + ": " + ("Var1" + "{s: String, c: char}" + " | " + ("Var2" + "{c: String, s: char}"))
  {
    var a := Variant("Var1", Shape(NamedShape, [Field("s", StringT, None), Field("c", CharT, None)]));
    var b := Variant("Var2", Shape(NamedShape, [Field("c", StringT, None), Field("s", CharT, None)]));
    assert StructEnum == EnumT("StructEnum", [a, b], NoAttrs);
    EnumHeaderTwo("StructEnum", a, b, NoAttrs);
    ShapeSC();
    ShapeCS();
  }

  lemma StructEnumHeader()
    ensures Header(StructEnum) ==
      "StructEnum: " + ("Var1{s: String, c: char}" + " | " + "Var2{c: String, s: char}")
  {
    StructEnumParts();
    StructEnumTexts();
  }

  lemma StructEnumFormat()
    ensures StartsWith(FormatString(StructEnum),
      "StructEnum: " + ("Var1{s: String, c: char}" + " | " + "Var2{c: String, s: char}"))
  {
    StructEnumHeader();
    StartsWithHeader(StructEnum, "StructEnum: " + ("Var1{s: String, c: char}" + " | " + "Var2{c: String, s: char}"));
  }

  lemma TupleStructTexts()
    ensures "(" + ("String" + ", " + "char") + ")" == "(String, char)"
    ensures "TupleStruct" + ": " == "TupleStruct: "
  {
  }

  lemma TupleStructHeader()
    ensures Header(TupleStruct) == "TupleStruct: " + "(String, char)"
  {
    TupleShapeTwo(StringT, CharT);
    TypeTexts();
    TupleStructTexts();
  }

  lemma TupleStructFormat()
    ensures StartsWith(FormatString(TupleStruct), "TupleStruct: " + "(String, char)")
  {
    TupleStructHeader();
    StartsWithHeader(TupleStruct, "TupleStruct: " + "(String, char)");
  }

  lemma StructStructHeader()
    ensures Header(StructStruct) == "StructStruct: " + "{s: String, c: char}"
  {
    ShapeSC();
    assert "StructStruct" + ": " == "StructStruct: ";
  }

  lemma StructStructFormat()
    ensures StartsWith(FormatString(StructStruct), "StructStruct: " + "{s: String, c: char}")
  {
    StructStructHeader();
    StartsWithHeader(StructStruct, "StructStruct: " + "{s: String, c: char}");
  }
}

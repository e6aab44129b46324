/**
 * What a configurable type is: a descriptor (Desc) standing for the Rust
 * type that implements ConfigAble, and the values (Value) of such types.
 *
 * A descriptor is a built-in type (String, char, the integer types,
 * Ipv4Addr, LogLevel, Option, Vec, fixed-size arrays) or a user struct or
 * enum whose ConfigAble implementation is derived.  This module gives the
 * parts of ConfigAble that do not read input: get_name, get_default, merge
 * and get_format.  Parsing is in the Parser module.
 */
module Schema {
  import opened Common

  /** The log crate's level filter; the configuration never yields Error. */
  datatype Level = Error | Warn | Info | Debug | Trace

  datatype Value =
    | StrV(s: string)
    | CharV(c: char)
    | IntV(n: int)
    | IpV(octets: seq<nat>)
    | LevelV(level: Level)
    | NoneV
    | SomeV(inner: Value)
    | VecV(items: seq<Value>)
    | ArrayV(elems: seq<Value>)
    | StructV(fields: seq<Value>)
    | EnumV(variant: string, fields: seq<Value>)

  /** The outcome of merge(&mut self, rhs): the updated left-hand side and whether it succeeded. */
  datatype MergeResult = MergeResult(value: Value, ok: bool)

  datatype IntKind = I32 | U32 | U8

  datatype Desc =
    | StringT
    | CharT
    | IntT(kind: IntKind)
    | Ipv4T
    | LogLevelT
    | OptionT(elem: Desc)
    | VecT(elem: Desc)
    | ArrayT(elem: Desc, size: nat)
    | StructT(name: string, shape: Shape, attrs: Attrs)
    | EnumT(name: string, variants: seq<Variant>, attrs: Attrs)

  /** The fields of a struct or enum variant: none, positional, or named. */
  datatype Kind = UnitShape | TupleShape | NamedShape
  datatype Shape = Shape(kind: Kind, fields: seq<Field>)

  /**
   * A field; positional fields have the empty name.  `default` is the
   * field-level default attribute.
   */
  datatype Field = Field(name: string, ty: Desc, default: Option<Value>)

  datatype Variant = Variant(name: string, shape: Shape)

  /** The type-level attributes: a default value and a user-supplied merge function. */
  datatype Attrs = Attrs(default: Option<Value>, merge: Option<(Value, Value) -> MergeResult>)

  // ---------------------------------------------------------------------
  // Size, names and typing

  function Size(d: Desc): (n: nat)
    ensures n >= 1
  {
    match d
    case OptionT(e) => 1 + Size(e)
    case VecT(e) => 1 + Size(e)
    case ArrayT(e, _) => 2 + Size(e)  // an array is parsed as a vector, one level further down
    case StructT(_, sh, _) => 1 + SizeFields(sh.fields)
    case EnumT(_, vs, _) => 1 + SizeVariants(vs)
    case _ => 1
  }

  function SizeFields(fs: seq<Field>): nat
  {
    if |fs| == 0 then 0 else Size(fs[0].ty) + SizeFields(fs[1..])
  }

  function SizeVariants(vs: seq<Variant>): nat
  {
    if |vs| == 0 then 0 else SizeFields(vs[0].shape.fields) + SizeVariants(vs[1..])
  }

  lemma {:induction false} FieldSmaller(fs: seq<Field>, i: nat)
    requires i < |fs|
    ensures Size(fs[i].ty) <= SizeFields(fs)
    decreases i
  {
    if i > 0 {
      FieldSmaller(fs[1..], i - 1);
    }
  }

  lemma {:induction false} VariantSmaller(vs: seq<Variant>, k: nat)
    requires k < |vs|
    ensures SizeFields(vs[k].shape.fields) <= SizeVariants(vs)
    decreases k
  {
    if k > 0 {
      VariantSmaller(vs[1..], k - 1);
    }
  }

  /** get_name: the key Option and Vec use to avoid printing a format twice. */
  function TypeName(d: Desc): string
  {
    match d
    case StringT => "String"
    case CharT => "char"
    case IntT(k) => IntName(k)
    case Ipv4T => "Ipv4Addr"
    case LogLevelT => "LogLevel"
    case OptionT(_) => "Option<>"
    case VecT(_) => "Vec<>"
    case ArrayT(_, n) => if n == 6 then "[T;6]" else "[T;4]"
    case StructT(name, _, _) => name
    case EnumT(name, _, _) => name
  }

  function IntName(k: IntKind): string
  {
    match k
    case I32 => "i32"
    case U32 => "u32"
    case U8 => "u8"
  }

  /** How the type is spelled in a field declaration (the derive's key for printed formats). */
  function TypeText(d: Desc): string
  {
    match d
    case OptionT(e) => "Option<" + TypeText(e) + ">"
    case VecT(e) => "Vec<" + TypeText(e) + ">"
    case ArrayT(e, n) => "[" + TypeText(e) + "; " + NatToString(n) + "]"
    case _ => TypeName(d)
  }

  /** The values of each integer type. */
  predicate InRange(k: IntKind, n: int)
  {
    match k
    case I32 => -0x8000_0000 <= n < 0x8000_0000
    case U32 => 0 <= n < 0x1_0000_0000
    case U8 => 0 <= n < 0x100
  }

  /** The first variant with the given name. */
  function FindVariant(vs: seq<Variant>, name: string): (r: Option<nat>)
    ensures r.Some? ==> r.value < |vs| && vs[r.value].name == name
    ensures r.Some? ==> forall k :: 0 <= k < r.value ==> vs[k].name != name
    ensures r.None? ==> forall k :: 0 <= k < |vs| ==> vs[k].name != name
  {
    if |vs| == 0 then None
    else if vs[0].name == name then Some(0)
    else match FindVariant(vs[1..], name)
      case None => None
      case Some(k) => Some(k + 1)
  }

  /** v is a value of the type d. */
  predicate HasType(v: Value, d: Desc)
    decreases d
  {
    match d
    case StringT => v.StrV?
    case CharT => v.CharV?
    case IntT(k) => v.IntV? && InRange(k, v.n)
    case Ipv4T => v.IpV? && |v.octets| == 4 && forall i :: 0 <= i < 4 ==> v.octets[i] < 256
    case LogLevelT => v.LevelV?
    case OptionT(e) => v.NoneV? || (v.SomeV? && HasType(v.inner, e))
    case VecT(e) => v.VecV? && forall i :: 0 <= i < |v.items| ==> HasType(v.items[i], e)
    case ArrayT(e, n) => v.ArrayV? && |v.elems| == n && forall i :: 0 <= i < n ==> HasType(v.elems[i], e)
    case StructT(_, sh, _) => v.StructV? && FieldsTyped(v.fields, sh.fields)
    case EnumT(_, vs, _) =>
      v.EnumV? &&
      match FindVariant(vs, v.variant)
      case None => false
      case Some(k) => FieldsTyped(v.fields, vs[k].shape.fields)
  }

  /** One value per field, each of its field's type. */
  predicate FieldsTyped(vs: seq<Value>, fs: seq<Field>)
    decreases fs
  {
    |vs| == |fs| && (|fs| == 0 || (HasType(vs[0], fs[0].ty) && FieldsTyped(vs[1..], fs[1..])))
  }

  /**
   * The types whose merge exists: LogLevel implements none, so a type that
   * would need the merge of a LogLevel has none either.
   */
  predicate MergeDefined(d: Desc)
  {
    match d
    case LogLevelT => false
    case OptionT(e) => MergeDefined(e)
    case StructT(_, sh, attrs) => attrs.merge.Some? || FieldsMergeDefined(sh.fields)
    case EnumT(_, vs, attrs) => attrs.merge.Some? || VariantsMergeDefined(vs)
    case _ => true
  }

  predicate FieldsMergeDefined(fs: seq<Field>)
  {
    |fs| == 0 || (MergeDefined(fs[0].ty) && FieldsMergeDefined(fs[1..]))
  }

  predicate VariantsMergeDefined(vs: seq<Variant>)
  {
    |vs| == 0 || (FieldsMergeDefined(vs[0].shape.fields) && VariantsMergeDefined(vs[1..]))
  }

  /**
   * The descriptors of types the derive accepts: arrays of 4 or 6, no unit
   * structs, identifier names, distinct variant names, defaults of the
   * right type, user merges that keep the type, and named fields whose
   * type can be merged (a named field may be given more than once).
   */
  ghost predicate WellFormed(d: Desc)
    decreases d, 1
  {
    match d
    case OptionT(e) => WellFormed(e)
    case VecT(e) => WellFormed(e)
    case ArrayT(e, n) => (n == 4 || n == 6) && WellFormed(e)
    case StructT(name, sh, attrs) =>
      name != "" && sh.kind != UnitShape && ShapeWellFormed(sh) && AttrsWellFormed(attrs, d)
    case EnumT(name, vs, attrs) =>
      name != "" && AttrsWellFormed(attrs, d) &&
      (forall k :: 0 <= k < |vs| ==> vs[k].name != "" && ShapeWellFormed(vs[k].shape)) &&
      (forall k, l :: 0 <= k < l < |vs| ==> vs[k].name != vs[l].name)
    case _ => true
  }

  ghost predicate ShapeWellFormed(sh: Shape)
    decreases sh, 0
  {
    (sh.kind == UnitShape ==> |sh.fields| == 0) &&
    forall i :: 0 <= i < |sh.fields| ==> FieldWellFormed(sh.fields[i], sh.kind)
  }

  ghost predicate FieldWellFormed(f: Field, kind: Kind)
    decreases f, 0
  {
    WellFormed(f.ty) &&
    (kind == NamedShape ==>
      f.name != "" && MergeDefined(f.ty) && (f.default.Some? ==> HasType(f.default.value, f.ty))) &&
    (kind != NamedShape ==> f.name == "" && f.default.None?)
  }

  lemma ShapeFieldsWellFormed(sh: Shape)
    ensures ShapeWellFormed(sh) ==> forall i :: 0 <= i < |sh.fields| ==> WellFormed(sh.fields[i].ty)
  {
    if ShapeWellFormed(sh) {
      forall i | 0 <= i < |sh.fields|
        ensures WellFormed(sh.fields[i].ty)
      {
        assert FieldWellFormed(sh.fields[i], sh.kind);
      }
    }
  }

  ghost predicate AttrsWellFormed(attrs: Attrs, d: Desc)
  {
    (attrs.default.Some? ==> HasType(attrs.default.value, d)) &&
    (attrs.merge.Some? ==>
      forall a, b :: HasType(a, d) && HasType(b, d) ==> HasType(attrs.merge.value(a, b).value, d))
  }

  // ---------------------------------------------------------------------
  // get_default

  /**
   * get_default: the value used when the configuration does not mention a
   * field.  Option is None unless its inner type has a default, Vec is
   * empty, LogLevel is Warn; a derived struct takes its type-level default
   * attribute, else the default of every field type (field-level defaults
   * play no part here); a derived enum has only its attribute.  A default is
   * always a value of the type.
   */
  function Default(d: Desc): (r: Option<Value>)
    ensures WellFormed(d) && r.Some? ==> HasType(r.value, d)
    ensures d.OptionT? || d.VecT? || d.LogLevelT? ==> r.Some?
    ensures d.StringT? || d.CharT? || d.IntT? || d.Ipv4T? ==> r.None?
    decreases d
  {
    match d
    case LogLevelT => Some(LevelV(Warn))
    case OptionT(e) =>
      (match Default(e)
       case Some(x) => Some(SomeV(x))
       case None => Some(NoneV))
    case VecT(_) => Some(VecV([]))
    case ArrayT(e, n) =>
      (match Default(e)
       case Some(x) => Some(ArrayV(seq(n, _ => x)))
       case None => None)
    case StructT(_, sh, attrs) =>
      if attrs.default.Some? then attrs.default
      else if sh.kind == UnitShape then None
      else
        ShapeFieldsWellFormed(sh);
        (match DefaultFields(sh.fields)
         case Some(vs) => Some(StructV(vs))
         case None => None)
    case EnumT(_, _, attrs) => attrs.default
    case _ => None
  }

  /** The defaults of all field types, failing at the first that has none. */
  function DefaultFields(fs: seq<Field>): (r: Option<seq<Value>>)
    ensures r.Some? && (forall i :: 0 <= i < |fs| ==> WellFormed(fs[i].ty)) ==> FieldsTyped(r.value, fs)
    ensures r.Some? <==> forall i :: 0 <= i < |fs| ==> Default(fs[i].ty).Some?
    decreases fs
  {
    if |fs| == 0 then Some([])
    else match (Default(fs[0].ty), DefaultFields(fs[1..]))
      case (Some(v), Some(vs)) =>
        assert (forall i :: 0 <= i < |fs| ==> WellFormed(fs[i].ty)) ==>
          forall i :: 0 <= i < |fs[1..]| ==> WellFormed(fs[1..][i].ty);
        Some([v] + vs)
      case (Some(_), None) =>
        assert exists i :: 0 <= i < |fs[1..]| && Default(fs[1..][i].ty).None?;
        None
      case _ => None
  }

  // ---------------------------------------------------------------------
  // merge

  /**
   * merge: combine a value given earlier (l) with one given later (r).
   * Strings concatenate, vectors append, Option keeps the side that is
   * Some (merging inside when both are), other scalars merge only with an
   * equal value, arrays never merge.  Derived types use the user's merge
   * if given; otherwise fields merge in declaration order, stopping at the
   * first failure with the fields before it already merged, and enum
   * values merge only within the same variant.
   */
  function Merge(d: Desc, l: Value, r: Value): (m: MergeResult)
    requires MergeDefined(d) && HasType(l, d) && HasType(r, d)
    decreases d
  {
    match d
    case StringT => MergeResult(StrV(l.s + r.s), true)
    case OptionT(e) =>
      if l.NoneV? then MergeResult(r, true)
      else if r.NoneV? then MergeResult(l, true)
      else
        var m := Merge(e, l.inner, r.inner);
        MergeResult(SomeV(m.value), m.ok)
    case VecT(_) => MergeResult(VecV(l.items + r.items), true)
    case ArrayT(_, _) => MergeResult(l, false)
    case StructT(_, sh, attrs) =>
      if attrs.merge.Some? then attrs.merge.value(l, r)
      else if sh.kind == UnitShape then MergeResult(l, false)
      else
        var (vs, ok) := MergeFields(sh.fields, l.fields, r.fields);
        MergeResult(StructV(vs), ok)
    case EnumT(_, vars, attrs) =>
      if attrs.merge.Some? then attrs.merge.value(l, r)
      else if l.variant != r.variant then MergeResult(l, false)
      else
        var k := FindVariant(vars, l.variant).value;
        VariantsMergeAt(vars, k);
        var (vs, ok) := MergeFields(vars[k].shape.fields, l.fields, r.fields);
        MergeResult(EnumV(l.variant, vs), ok)
    case _ => MergeResult(l, l == r)
  }

  lemma {:induction false} VariantsMergeAt(vs: seq<Variant>, k: nat)
    requires k < |vs| && VariantsMergeDefined(vs)
    ensures FieldsMergeDefined(vs[k].shape.fields)
    decreases k
  {
    if k > 0 {
      VariantsMergeAt(vs[1..], k - 1);
    }
  }

  /** Field-wise merge in order; the fields after a failed one keep their left-hand value. */
  function MergeFields(fs: seq<Field>, ls: seq<Value>, rs: seq<Value>): (r: (seq<Value>, bool))
    requires FieldsMergeDefined(fs) && FieldsTyped(ls, fs) && FieldsTyped(rs, fs)
    ensures |r.0| == |fs|
    decreases fs
  {
    if |fs| == 0 then ([], true)
    else
      var m := Merge(fs[0].ty, ls[0], rs[0]);
      if !m.ok then ([m.value] + ls[1..], false)
      else
        var (vs, ok) := MergeFields(fs[1..], ls[1..], rs[1..]);
        ([m.value] + vs, ok)
  }

  /** Merging keeps values within their type. */
  lemma {:induction false} MergeKeepsType(d: Desc, l: Value, r: Value)
    requires WellFormed(d) && MergeDefined(d) && HasType(l, d) && HasType(r, d)
    ensures HasType(Merge(d, l, r).value, d)
    decreases d
  {
    match d
    case OptionT(e) =>
      if l.SomeV? && r.SomeV? {
        MergeKeepsType(e, l.inner, r.inner);
      }
    case VecT(e) =>
      var vs := l.items + r.items;
      assert forall i :: 0 <= i < |vs| ==> HasType(vs[i], e) by {
        forall i | 0 <= i < |vs|
          ensures HasType(vs[i], e)
        {
          if i >= |l.items| {
            assert vs[i] == r.items[i - |l.items|];
          }
        }
      }
    case StructT(_, sh, attrs) =>
      if attrs.merge.None? {
        ShapeFieldsWellFormed(sh);
        MergeFieldsKeepsType(sh.fields, l.fields, r.fields);
      }
    case EnumT(_, vars, attrs) =>
      if attrs.merge.None? && l.variant == r.variant {
        var k := FindVariant(vars, l.variant).value;
        VariantsMergeAt(vars, k);
        ShapeFieldsWellFormed(vars[k].shape);
        MergeFieldsKeepsType(vars[k].shape.fields, l.fields, r.fields);
      }
    case _ =>
  }

  lemma {:induction false} MergeFieldsKeepsType(fs: seq<Field>, ls: seq<Value>, rs: seq<Value>)
    requires forall i :: 0 <= i < |fs| ==> WellFormed(fs[i].ty)
    requires FieldsMergeDefined(fs) && FieldsTyped(ls, fs) && FieldsTyped(rs, fs)
    ensures FieldsTyped(MergeFields(fs, ls, rs).0, fs)
    decreases fs
  {
    if |fs| > 0 {
      MergeKeepsType(fs[0].ty, ls[0], rs[0]);
      var m := Merge(fs[0].ty, ls[0], rs[0]);
      if m.ok {
        assert forall i :: 0 <= i < |fs[1..]| ==> WellFormed(fs[1..][i].ty) by {
          forall i | 0 <= i < |fs[1..]|
            ensures WellFormed(fs[1..][i].ty)
          {
            assert fs[1..][i] == fs[i + 1];
          }
        }
        MergeFieldsKeepsType(fs[1..], ls[1..], rs[1..]);
        assert ([m.value] + MergeFields(fs[1..], ls[1..], rs[1..]).0)[1..] ==
          MergeFields(fs[1..], ls[1..], rs[1..]).0;
      } else {
        assert ([m.value] + ls[1..])[1..] == ls[1..];
      }
    }
  }

  /** How many fields merge successfully before the first that does not. */
  function MergedPrefix(fs: seq<Field>, ls: seq<Value>, rs: seq<Value>): (k: nat)
    requires FieldsMergeDefined(fs) && FieldsTyped(ls, fs) && FieldsTyped(rs, fs)
    ensures k <= |fs|
    decreases fs
  {
    if |fs| == 0 || !Merge(fs[0].ty, ls[0], rs[0]).ok then 0
    else 1 + MergedPrefix(fs[1..], ls[1..], rs[1..])
  }

  lemma FieldsTypedAt(vs: seq<Value>, fs: seq<Field>, i: nat)
    requires FieldsTyped(vs, fs) && i < |fs|
    ensures HasType(vs[i], fs[i].ty)
    decreases i
  {
    if i > 0 {
      FieldsTypedAt(vs[1..], fs[1..], i - 1);
    }
  }

  lemma {:induction false} FieldsMergeDefinedAt(fs: seq<Field>, i: nat)
    requires FieldsMergeDefined(fs) && i < |fs|
    ensures MergeDefined(fs[i].ty)
    decreases i
  {
    if i > 0 {
      FieldsMergeDefinedAt(fs[1..], i - 1);
    }
  }

  /**
   * The field-wise merge fails exactly when some field fails; every field up
   * to and including the first failure is merged, every field after it is
   * left as it was.
   */
  lemma {:induction false} MergeFieldsStopsAtFirstFailure(fs: seq<Field>, ls: seq<Value>, rs: seq<Value>, i: nat)
    requires FieldsMergeDefined(fs) && FieldsTyped(ls, fs) && FieldsTyped(rs, fs)
    requires i < |fs|
    ensures MergeDefined(fs[i].ty) && HasType(ls[i], fs[i].ty) && HasType(rs[i], fs[i].ty)
    ensures var k := MergedPrefix(fs, ls, rs);
      var vs := MergeFields(fs, ls, rs).0;
      (MergeFields(fs, ls, rs).1 <==> k == |fs|) &&
      (i <= k ==> vs[i] == Merge(fs[i].ty, ls[i], rs[i]).value) &&
      (i < k ==> Merge(fs[i].ty, ls[i], rs[i]).ok) &&
      (i > k ==> vs[i] == ls[i])
    decreases |fs|
  {
    FieldsMergeDefinedAt(fs, i);
    FieldsTypedAt(ls, fs, i);
    FieldsTypedAt(rs, fs, i);
    if i > 0 && Merge(fs[0].ty, ls[0], rs[0]).ok {
      MergeFieldsStopsAtFirstFailure(fs[1..], ls[1..], rs[1..], i - 1);
    } else if |fs| > 1 && Merge(fs[0].ty, ls[0], rs[0]).ok {
      MergeFieldsStopsAtFirstFailure(fs[1..], ls[1..], rs[1..], 0);
    }
  }

  /** None is neutral for Option, the empty vector for Vec and the empty string for String. */
  lemma MergeNeutral(d: Desc, v: Value)
    requires d.OptionT? || d.VecT? || d.StringT?
    requires MergeDefined(d) && HasType(v, d)
    ensures var e := if d.OptionT? then NoneV else if d.VecT? then VecV([]) else StrV("");
      Merge(d, e, v) == MergeResult(v, true) && Merge(d, v, e) == MergeResult(v, true)
  {
    if d.VecT? {
      assert [] + v.items == v.items && v.items + [] == v.items;
    } else if d.StringT? {
      assert "" + v.s == v.s && v.s + "" == v.s;
    }
  }

  /** Merging vectors and strings is associative: the order of the values is all that counts. */
  lemma MergeAssociative(d: Desc, a: Value, b: Value, c: Value)
    requires d.VecT? || d.StringT?
    requires HasType(a, d) && HasType(b, d) && HasType(c, d)
    ensures MergeDefined(d)
    ensures var ab := Merge(d, a, b).value;
      var bc := Merge(d, b, c).value;
      MergeDefinedTyped(d, ab) && MergeDefinedTyped(d, bc) &&
      Merge(d, ab, c) == Merge(d, a, bc)
  {
    if d.VecT? {
      assert (a.items + b.items) + c.items == a.items + (b.items + c.items);
      MergeKeepsTypeVec(d, a, b);
      MergeKeepsTypeVec(d, b, c);
    } else {
      assert (a.s + b.s) + c.s == a.s + (b.s + c.s);
    }
  }

  predicate MergeDefinedTyped(d: Desc, v: Value)
  {
    MergeDefined(d) && HasType(v, d)
  }

  lemma MergeKeepsTypeVec(d: Desc, a: Value, b: Value)
    requires d.VecT? && HasType(a, d) && HasType(b, d)
    ensures HasType(Merge(d, a, b).value, d)
  {
    var vs := a.items + b.items;
    forall i | 0 <= i < |vs|
      ensures HasType(vs[i], d.elem)
    {
      if i >= |a.items| {
        assert vs[i] == b.items[i - |a.items|];
      }
    }
  }

  /** A scalar merges with a value exactly when the two are equal, and is then unchanged. */
  lemma ScalarMerge(d: Desc, l: Value, r: Value)
    requires d.CharT? || d.IntT? || d.Ipv4T?
    requires HasType(l, d) && HasType(r, d)
    ensures MergeDefined(d)
    ensures Merge(d, l, r).value == l
    ensures Merge(d, l, r).ok <==> l == r
  {
  }

  // ---------------------------------------------------------------------
  // get_format

  function Join(parts: seq<string>, sep: string): string
  {
    if |parts| == 0 then ""
    else if |parts| == 1 then parts[0]
    else parts[0] + sep + Join(parts[1..], sep)
  }

  /** One field as it appears in a format: `name: Type` or `Type`. */
  function FieldText(f: Field, named: bool): string
  {
    if named then f.name + ": " + TypeText(f.ty) else TypeText(f.ty)
  }

  function FieldTexts(fs: seq<Field>, named: bool): (r: seq<string>)
    ensures |r| == |fs|
  {
    if |fs| == 0 then [] else [FieldText(fs[0], named)] + FieldTexts(fs[1..], named)
  }

  function ShapeText(sh: Shape): string
  {
    match sh.kind
    case UnitShape => ""
    case TupleShape => "(" + Join(FieldTexts(sh.fields, false), ", ") + ")"
    case NamedShape => "{" + Join(FieldTexts(sh.fields, true), ", ") + "}"
  }

  function VariantTexts(vs: seq<Variant>): (r: seq<string>)
    ensures |r| == |vs|
  {
    if |vs| == 0 then [] else [vs[0].name + ShapeText(vs[0].shape)] + VariantTexts(vs[1..])
  }

  /** The first line a type's format starts with. */
  function Header(d: Desc): string
  {
    match d
    case StringT => "String: \"Rust String\""
    case CharT => "Char: 'Rust Char'"
    case IntT(k) => IntName(k) + ": Digits"
    case Ipv4T => "a.b.c.d"
    case LogLevelT => "Error | Warn | Info | Debug | Trace"
    case OptionT(e) =>
      "Option<" + TypeName(e) + ">: Some(" + TypeName(e) + ") | None"
    case VecT(e) =>
      "Vec<" + TypeName(e) + ">: [ " + TypeName(e) + ", " + TypeName(e) + ", ... ]"
    case ArrayT(_, n) => ArrayHeaderAsWritten(n)
    case StructT(name, sh, _) => name + ": " + ShapeText(sh)
    case EnumT(name, vs, _) => name + ": " + Join(VariantTexts(vs), " | ")
  }

  /**
   * The format line of [T;4] and [T;6], as written: the six-element array
   * is labelled "[T;4]".
   */
  function ArrayHeaderAsWritten(n: nat): string
  {
    if n == 6 then "[T;4]: [T, T, T, T, T, T]" else "[T;4]: [T, T, T, T]"
  }

  /** The six-element array's format line does not start with its own name. */
  lemma ArrayHeaderAsWrittenMislabels(e: Desc)
    ensures Header(ArrayT(e, 6)) == ArrayHeaderAsWritten(6)
    ensures !StartsWith(Header(ArrayT(e, 6)), TypeName(ArrayT(e, 6)) + ": ")
  {
    assert ArrayHeaderAsWritten(6)[3] == '4';
  }

  function Ts(n: nat): string
  {
    if n == 0 then "" else if n == 1 then "T" else "T, " + Ts(n - 1)
  }

  /** The format line of a fixed-size array, labelled with its own size. */
  function ArrayHeader(n: nat): string
  {
    if n == 6 then "[T;6]: [T, T, T, T, T, T]" else "[T;4]: [T, T, T, T]"
  }

  lemma TsFour()
    ensures Ts(4) == "T, T, T, T"
  {
    assert Ts(2) == "T, T";
    assert Ts(3) == "T, T, T";
  }

  lemma TsSix()
    ensures Ts(6) == "T, T, T, T, T, T"
  {
    TsFour();
    assert Ts(5) == "T, T, T, T, T";
  }

  /** An array's format line starts with the array's name and shows one T per element. */
  lemma ArrayHeaderNamesItsType(e: Desc, n: nat)
    requires n == 4 || n == 6  // the sizes a well-formed array type has
    ensures ArrayHeader(n) == TypeName(ArrayT(e, n)) + ": [" + Ts(n) + "]"
  {
    var name := TypeName(ArrayT(e, n));
    if n == 6 {
      TsSix();
      assert name == "[T;6]";
      assert "[T;6]" + ": [" == "[T;6]: [";
      assert "[T;6]: [" + "T, T, T, T, T, T" == "[T;6]: [T, T, T, T, T, T";
      assert "[T;6]: [T, T, T, T, T, T" + "]" == "[T;6]: [T, T, T, T, T, T]";
    } else {
      TsFour();
      assert name == "[T;4]";
      assert "[T;4]" + ": [" == "[T;4]: [";
      assert "[T;4]: [" + "T, T, T, T" == "[T;4]: [T, T, T, T";
      assert "[T;4]: [T, T, T, T" + "]" == "[T;4]: [T, T, T, T]";
    }
  }

  /**
   * The field types of a derived type, each spelling once, in order of
   * first use (the derive collects them in a set; see the notes).
   */
  function FieldTypes(fs: seq<Field>): (r: seq<Desc>)
    ensures forall k :: 0 <= k < |r| ==> Size(r[k]) <= SizeFields(fs)
    ensures forall k, l :: 0 <= k < l < |r| ==> TypeText(r[k]) != TypeText(r[l])
  {
    FieldTypesFrom(fs, 0, [])
  }

  function FieldTypesFrom(fs: seq<Field>, i: nat, acc: seq<Desc>): (r: seq<Desc>)
    requires i <= |fs|
    requires forall k :: 0 <= k < |acc| ==> Size(acc[k]) <= SizeFields(fs)
    requires forall k, l :: 0 <= k < l < |acc| ==> TypeText(acc[k]) != TypeText(acc[l])
    ensures forall k :: 0 <= k < |r| ==> Size(r[k]) <= SizeFields(fs)
    ensures forall k, l :: 0 <= k < l < |r| ==> TypeText(r[k]) != TypeText(r[l])
    decreases |fs| - i
  {
    if i == |fs| then acc
    else if exists k :: 0 <= k < |acc| && TypeText(acc[k]) == TypeText(fs[i].ty) then
      FieldTypesFrom(fs, i + 1, acc)
    else
      FieldSmaller(fs, i);
      FieldTypesFrom(fs, i + 1, acc + [fs[i].ty])
  }

  function AllFields(vs: seq<Variant>): seq<Field>
  {
    if |vs| == 0 then [] else vs[0].shape.fields + AllFields(vs[1..])
  }

  /** The types whose formats follow a derived type's own line. */
  function OtherTypes(d: Desc): (r: seq<Desc>)
    requires d.StructT? || d.EnumT?
    ensures forall i :: 0 <= i < |r| ==> Size(r[i]) < Size(d)
  {
    var fs := if d.StructT? then d.shape.fields else AllFields(d.variants);
    if d.EnumT? then
      AllFieldsSmaller(d.variants);
      FieldTypes(fs)
    else FieldTypes(fs)
  }

  lemma {:induction false} AllFieldsSmaller(vs: seq<Variant>)
    ensures SizeFields(AllFields(vs)) == SizeVariants(vs)
  {
    if |vs| > 0 {
      AllFieldsSmaller(vs[1..]);
      SizeFieldsAppend(vs[0].shape.fields, AllFields(vs[1..]));
    }
  }

  lemma {:induction false} SizeFieldsAppend(a: seq<Field>, b: seq<Field>)
    ensures SizeFields(a + b) == SizeFields(a) + SizeFields(b)
  {
    if |a| > 0 {
      assert (a + b)[0] == a[0] && (a + b)[1..] == a[1..] + b;
      SizeFieldsAppend(a[1..], b);
    } else {
      assert a + b == b;
    }
  }

  /**
   * get_format: the type's own line, then, for each type it mentions that
   * has not been printed yet (by its key in `seen`), a newline and that
   * type's format.  The set of printed keys only grows.
   */
  function Format(d: Desc, seen: set<string>): (r: (string, set<string>))
    ensures seen <= r.1
    ensures StartsWith(r.0, Header(d))
    decreases Size(d), 1, 0
  {
    match d
    case OptionT(e) => Nested(Header(d), e, seen)
    case VecT(e) => Nested(Header(d), e, seen)
    case StructT(_, _, _) =>
      var (tail, seen') := FormatOthers(OtherTypes(d), seen, Size(d));
      (Header(d) + tail, seen')
    case EnumT(_, _, _) =>
      var (tail, seen') := FormatOthers(OtherTypes(d), seen, Size(d));
      (Header(d) + tail, seen')
    case _ => (Header(d), seen)
  }

  /** Option and Vec: the element's format follows unless its name was printed already. */
  function Nested(head: string, e: Desc, seen: set<string>): (r: (string, set<string>))
    ensures seen <= r.1
    ensures StartsWith(r.0, head)
    ensures TypeName(e) in seen ==> r == (head, seen)
    ensures TypeName(e) !in seen ==> TypeName(e) in r.1 && StartsWith(r.0, head + "\n" + Header(e))
    decreases Size(e), 1, 1
  {
    var key := TypeName(e);
    if key in seen then (head, seen)
    else
      var (inner, seen') := Format(e, seen + {key});
      StartsWithAfter(head + "\n", inner, Header(e));
      (head + "\n" + inner, seen')
  }

  /**
   * The formats of the other types, one after the other: a type whose key
   * was printed already adds nothing, any other is printed after a
   * newline and its key recorded, so that every one of them ends up
   * recorded and none is printed twice.
   */
  function FormatOthers(ts: seq<Desc>, seen: set<string>, ghost bound: nat): (r: (string, set<string>))
    requires forall i :: 0 <= i < |ts| ==> Size(ts[i]) < bound
    ensures seen <= r.1
    ensures forall i :: 0 <= i < |ts| ==> TypeText(ts[i]) in r.1
    ensures |ts| > 0 && TypeText(ts[0]) !in seen ==> StartsWith(r.0, "\n" + Header(ts[0]))
    ensures |ts| > 0 && TypeText(ts[0]) in seen ==> r == FormatOthers(ts[1..], seen, bound)
    decreases bound, 0, |ts|
  {
    if |ts| == 0 then ("", seen)
    else
      var key := TypeText(ts[0]);
      var (first, seen1) :=
        if key in seen then ("", seen)
        else
          var (f, s) := Format(ts[0], seen + {key});
          ("\n" + f, s);
      var (rest, seen2) := FormatOthers(ts[1..], seen1, bound);
      assert forall i :: 1 <= i < |ts| ==> TypeText(ts[i]) == TypeText(ts[1..][i - 1]);
      if key !in seen then
        StartsWithAfter("\n", Format(ts[0], seen + {key}).0, Header(ts[0]));
        PrefixOfSum("\n" + Format(ts[0], seen + {key}).0, rest, "\n" + Header(ts[0]));
        (first + rest, seen2)
      else
        assert first + rest == rest;
        (first + rest, seen2)
  }

  /** Types whose keys were all printed already add no text and record nothing new. */
  lemma {:induction false} FormatOthersAllSeen(ts: seq<Desc>, seen: set<string>, bound: nat)
    requires forall i :: 0 <= i < |ts| ==> Size(ts[i]) < bound
    requires forall i :: 0 <= i < |ts| ==> TypeText(ts[i]) in seen
    ensures FormatOthers(ts, seen, bound) == ("", seen)
    decreases |ts|
  {
    if |ts| > 0 {
      assert TypeText(ts[0]) in seen;
      assert forall i :: 0 <= i < |ts[1..]| ==> TypeText(ts[1..][i]) == TypeText(ts[i + 1]);
      FormatOthersAllSeen(ts[1..], seen, bound);
      assert "" + "" == "";
    }
  }

  /** get_format_str: the whole format of a type, starting from nothing printed. */
  function FormatString(d: Desc): string
  {
    Format(d, {}).0
  }
}

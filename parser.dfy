/**
 * parse_from for the composite types: Option<T>, Vec<T>, [T;4] and [T;6],
 * and the parsers the derive macro emits for structs and enums (a named
 * field loop with prefix key matching, positional tuples, and variant
 * selection by prefix in declaration order).
 *
 * As for the scalars, each parse is a function on Cursor snapshots
 * returning a Step, and the ConfigProvider methods are proved to do
 * exactly what the functions say.  All the functions call one another,
 * so a single measure orders them: the unread input first, then the size
 * of the type being parsed, then a rank that puts a type's parse above
 * the loops it runs.
 */
module Parser {
  import opened Common
  import opened Scanner
  import opened Literals
  import opened Schema
  import opened FieldStates
  import opened Scalars

  /** Every field type of a positional shape is well formed. */
  ghost predicate TypesWellFormed(fs: seq<Field>)
  {
    forall i :: 0 <= i < |fs| ==> WellFormed(fs[i].ty)
  }

  /** Every field of a named shape is well formed. */
  ghost predicate NamedWellFormed(fs: seq<Field>)
  {
    forall i :: 0 <= i < |fs| ==> FieldWellFormed(fs[i], NamedShape)
  }

  /** Values given field by field have the field types. */
  predicate AllTyped(vs: seq<Value>, fs: seq<Field>)
  {
    |vs| == |fs| && forall i :: 0 <= i < |fs| ==> HasType(vs[i], fs[i].ty)
  }

  lemma {:induction false} AllTypedFieldsTyped(vs: seq<Value>, fs: seq<Field>)
    ensures AllTyped(vs, fs) <==> FieldsTyped(vs, fs)
    decreases |fs|
  {
    if |fs| > 0 && |vs| == |fs| {
      AllTypedFieldsTyped(vs[1..], fs[1..]);
      if FieldsTyped(vs, fs) {
        forall i | 0 <= i < |fs|
          ensures HasType(vs[i], fs[i].ty)
        {
          if i > 0 {
            assert vs[1..][i - 1] == vs[i];
          }
        }
      }
    }
  }

  /** With distinct names, a variant is found under its own name. */
  lemma FindOwnVariant(vs: seq<Variant>, k: nat)
    requires k < |vs|
    requires forall a, b :: 0 <= a < b < |vs| ==> vs[a].name != vs[b].name
    ensures FindVariant(vs, vs[k].name) == Some(k)
  {
    var r := FindVariant(vs, vs[k].name);
    assert r.Some?;
  }

  // ---------------------------------------------------------------------
  // Lifting a parse of field values to a struct or an enum value

  function AsStruct(src: seq<Line>, c: Cursor, s: Step<seq<Value>>): (t: Step<Value>)
    requires Inv(src, c)
    ensures Progress(src, c, s) ==> Progress(src, c, t)
    ensures t.Step? <==> s.Step?
    ensures s.Step? ==> t.c == s.c && (t.r.Ok? <==> s.r.Ok?)
    ensures s.Step? && s.r.Ok? ==> t.r.value == StructV(s.r.value)
    ensures s.Step? && s.r.Err? ==> t.r.error == s.r.error
  {
    match s
    case Panics => Panics
    case Step(Ok(vs), c') => Step(Ok(StructV(vs)), c')
    case Step(Err(x), c') => Step(Err(x), c')
  }

  function AsVariant(src: seq<Line>, c: Cursor, name: string, s: Step<seq<Value>>): (t: Step<Value>)
    requires Inv(src, c)
    ensures Progress(src, c, s) ==> Progress(src, c, t)
    ensures t.Step? <==> s.Step?
    ensures s.Step? ==> t.c == s.c && (t.r.Ok? <==> s.r.Ok?)
    ensures s.Step? && s.r.Ok? ==> t.r.value == EnumV(name, s.r.value)
    ensures s.Step? && s.r.Err? ==> t.r.error == s.r.error
  {
    match s
    case Panics => Panics
    case Step(Ok(vs), c') => Step(Ok(EnumV(name, vs)), c')
    case Step(Err(x), c') => Step(Err(x), c')
  }

  // ---------------------------------------------------------------------
  // Named fields: key matching, initial states and resolution

  /** The first field, in declaration order, whose name is a prefix of the text. */
  function MatchField(fs: seq<Field>, text: string): (r: Option<nat>)
    ensures r.Some? ==> r.value < |fs| && StartsWith(text, fs[r.value].name)
    ensures r.Some? ==> forall k :: 0 <= k < r.value ==> !StartsWith(text, fs[k].name)
    ensures r.None? ==> forall k :: 0 <= k < |fs| ==> !StartsWith(text, fs[k].name)
  {
    if |fs| == 0 then None
    else if StartsWith(text, fs[0].name) then Some(0)
    else match MatchField(fs[1..], text)
      case None => None
      case Some(k) => Some(k + 1)
  }

  /** The first variant, in declaration order, whose name is a prefix of the text. */
  function MatchVariant(vs: seq<Variant>, text: string): (r: Option<nat>)
    ensures r.Some? ==> r.value < |vs| && StartsWith(text, vs[r.value].name)
    ensures r.Some? ==> forall k :: 0 <= k < r.value ==> !StartsWith(text, vs[k].name)
    ensures r.None? ==> forall k :: 0 <= k < |vs| ==> !StartsWith(text, vs[k].name)
  {
    if |vs| == 0 then None
    else if StartsWith(text, vs[0].name) then Some(0)
    else match MatchVariant(vs[1..], text)
      case None => None
      case Some(k) => Some(k + 1)
  }

  /** ParseTmp::new for every field, then set_default where the field has a default attribute. */
  function InitStates(fs: seq<Field>): (r: seq<FieldState>)
    ensures |r| == |fs|
    ensures forall i :: 0 <= i < |fs| ==> (r[i] == Empty <==> fs[i].default.None?)
    ensures forall i :: 0 <= i < |fs| ==> fs[i].default.Some? ==> r[i] == DefaultSet(fs[i].default.value)
  {
    seq(|fs|, i requires 0 <= i < |fs| =>
      if fs[i].default.Some? then DefaultSet(fs[i].default.value) else Empty)
  }

  /** Every state holds a value of its field's type. */
  predicate StatesTyped(states: seq<FieldState>, fs: seq<Field>)
  {
    |states| == |fs| && forall i :: 0 <= i < |fs| ==> StateTyped(states[i], fs[i].ty)
  }

  /**
   * get_value on the fields from k on, in order, after the values acc of
   * the fields before k: the first error, else all the values.
   */
  function ResolveFrom(fs: seq<Field>, states: seq<FieldState>, k: nat, acc: seq<Value>): (r: Result<seq<Value>>)
    requires |states| == |fs| && k <= |fs|
    ensures r != Err(Final)
    ensures r.Ok? <==> forall i :: k <= i < |fs| ==> Resolve(fs[i].ty, states[i]).Ok?
    ensures r.Ok? ==> |r.value| == |acc| + |fs| - k && r.value[..|acc|] == acc
    ensures r.Ok? ==> forall i :: k <= i < |fs| ==> Ok(r.value[|acc| + i - k]) == Resolve(fs[i].ty, states[i])
    decreases |fs| - k
  {
    if k == |fs| then Ok(acc)
    else match Resolve(fs[k].ty, states[k])
      case Err(x) => Err(x)
      case Ok(v) =>
        var r := ResolveFrom(fs, states, k + 1, acc + [v]);
        assert r.Ok? ==> r.value[..|acc|] == (acc + [v])[..|acc|];
        r
  }

  /** The fields resolve to values of their types. */
  lemma ResolvedTyped(fs: seq<Field>, states: seq<FieldState>)
    requires TypesWellFormed(fs) && StatesTyped(states, fs)
    ensures ResolveFrom(fs, states, 0, []).Ok? ==> AllTyped(ResolveFrom(fs, states, 0, []).value, fs)
  {
    var r := ResolveFrom(fs, states, 0, []);
    if r.Ok? {
      forall i | 0 <= i < |fs|
        ensures HasType(r.value[i], fs[i].ty)
      {
        assert Ok(r.value[0 + i - 0]) == Resolve(fs[i].ty, states[i]);
      }
    }
  }

  /** The ',' expected between two elements or fields, and not before the first. */
  function Separator(src: seq<Line>, c: Cursor, first: bool): (r: Option<Cursor>)
    requires Inv(src, c)
    ensures first ==> r == Some(c)
    ensures !first ==> r == AdvanceChar(src, c, ',')
    ensures r.Some? ==> Inv(src, r.value) && Unread(src, r.value) <= Unread(src, c)
  {
    if first then Some(c) else AdvanceChar(src, c, ',')
  }

  // ---------------------------------------------------------------------
  // The parse functions

  /** ConfigAble::parse_from, dispatched on the type descriptor. */
  function ParseSpec(src: seq<Line>, c: Cursor, d: Desc): (s: Step<Value>)
    requires Inv(src, c) && WellFormed(d)
    ensures Progress(src, c, s)
    ensures s.Step? && s.r.Ok? ==> HasType(s.r.value, d)
    decreases Unread(src, c), Size(d), 1
  {
    match d
    case StringT => StringSpec(src, c)
    case CharT => CharSpec(src, c)
    case IntT(k) => IntSpec(src, c, k)
    case Ipv4T => IpSpec(src, c)
    case LogLevelT => LevelSpec(src, c)
    case OptionT(e) => OptionSpec(src, c, e)
    case VecT(e) => VecSpec(src, c, e)
    case ArrayT(e, n) => ArraySpec(src, c, e, n)
    case StructT(_, _, _) => StructSpec(src, c, d)
    case EnumT(_, _, _) => EnumSpec(src, c, d)
  }

  /** Option<T>::parse_from: "None" by prefix, or "Some" and then '(', a T, ')'; anything else is Final. */
  function OptionSpec(src: seq<Line>, c: Cursor, e: Desc): (s: Step<Value>)
    requires Inv(src, c) && WellFormed(e)
    ensures Progress(src, c, s)
    ensures s.Step? && s.r.Ok? ==> HasType(s.r.value, OptionT(e))
    decreases Unread(src, c), Size(e) + 1, 0
  {
    match Rest(c)
    case None => Step(Err(Final), c)
    case Some(content) =>
      if StartsWith(content, "None") then Take(src, c, 4, NoneV)
      else if StartsWith(content, "Some") then
        match Advance(src, c, 4)
        case None => Step(Err(Final), c)
        case Some(c1) => SomeSpec(src, c1, e)
      else Step(Err(Final), c)
  }

  /**
   * The part of Option<T>::parse_from after "Some": '(', a T, ')'.  The
   * ')' is consumed before the inner result is looked at, so a missing
   * ')' is Final whatever the inner parse gave.
   */
  function SomeSpec(src: seq<Line>, c: Cursor, e: Desc): (s: Step<Value>)
    requires Inv(src, c) && WellFormed(e)
    ensures Progress(src, c, s)
    ensures s.Step? && s.r.Ok? ==> HasType(s.r.value, OptionT(e))
    decreases Unread(src, c), Size(e) + 1, 2
  {
    match AdvanceChar(src, c, '(')
    case None => Step(Err(Final), c)
    case Some(c2) => CloseSome(src, c2, ParseSpec(src, c2, e), e)
  }

  /** The ')' after the inner parse inner of Some(...), and the inner result wrapped in SomeV. */
  function CloseSome(src: seq<Line>, c: Cursor, inner: Step<Value>, e: Desc): (s: Step<Value>)
    requires Inv(src, c) && Moves(src, c, inner)
    requires inner.Step? && inner.r.Ok? ==> HasType(inner.r.value, e)
    ensures Progress(src, c, s)
    ensures s.Step? && s.r.Ok? ==> HasType(s.r.value, OptionT(e))
  {
    if inner.Panics? then Panics
    else match AdvanceChar(src, inner.c, ')')
      case None => Step(Err(Final), inner.c)
      case Some(c3) =>
        match inner.r
        case Ok(v) => Step(Ok(SomeV(v)), c3)
        case Err(x) => Step(Err(x), c3)
  }

  /** Vec<T>::parse_from: '[' and then the element loop. */
  function VecSpec(src: seq<Line>, c: Cursor, e: Desc): (s: Step<Value>)
    requires Inv(src, c) && WellFormed(e)
    ensures Progress(src, c, s)
    ensures s.Step? && s.r.Ok? ==> HasType(s.r.value, VecT(e))
    decreases Unread(src, c), Size(e) + 1, 0
  {
    match AdvanceChar(src, c, '[')
    case None => Step(Err(Final), c)
    case Some(c1) => VecLoop(src, c1, e, [], true)
  }

  /**
   * One turn of the element loop, after the elements acc: end of input
   * is Final, ']' ends the vector, otherwise a ',' (except before the
   * first element) and an element.
   */
  function VecLoop(src: seq<Line>, c: Cursor, e: Desc, acc: seq<Value>, first: bool): (s: Step<Value>)
    requires Inv(src, c) && WellFormed(e)
    requires forall i :: 0 <= i < |acc| ==> HasType(acc[i], e)
    ensures Progress(src, c, s)
    ensures s.Step? && s.r.Ok? ==> HasType(s.r.value, VecT(e))
    ensures s.Step? && s.r.Ok? ==> |s.r.value.items| >= |acc| && s.r.value.items[..|acc|] == acc
    decreases Unread(src, c), Size(e) + 1, 3
  {
    if Rest(c).None? then Step(Err(Final), c)
    else if Peek(c) == Some(']') then Take(src, c, 1, VecV(acc))
    else
      match Separator(src, c, first)
      case None => Step(Err(Final), c)
      case Some(c1) => VecElement(src, c1, e, acc)
  }

  /** One element, whose error (of either kind) ends the vector; then the loop goes on. */
  function VecElement(src: seq<Line>, c: Cursor, e: Desc, acc: seq<Value>): (s: Step<Value>)
    requires Inv(src, c) && WellFormed(e)
    requires forall i :: 0 <= i < |acc| ==> HasType(acc[i], e)
    ensures Progress(src, c, s)
    ensures s.Step? && s.r.Ok? ==> HasType(s.r.value, VecT(e))
    ensures s.Step? && s.r.Ok? ==> |s.r.value.items| >= |acc| && s.r.value.items[..|acc|] == acc
    decreases Unread(src, c), Size(e) + 1, 2
  {
    var el := ParseSpec(src, c, e);
    if el.Panics? then Panics
    else match el.r
      case Err(x) => Step(Err(x), el.c)
      case Ok(v) =>
        var s := VecLoop(src, el.c, e, acc + [v], false);
        assert s.Step? && s.r.Ok? ==> s.r.value.items[..|acc|] == (acc + [v])[..|acc|];
        s
  }

  /**
   * The length check of [T;n]::parse_from on the parse of a Vec<T>: a
   * vector of another length is Recoverable, after it was consumed.
   */
  function CheckLength(src: seq<Line>, c: Cursor, v: Step<Value>, e: Desc, n: nat): (s: Step<Value>)
    requires Inv(src, c) && Progress(src, c, v)
    requires v.Step? && v.r.Ok? ==> HasType(v.r.value, VecT(e))
    ensures Progress(src, c, s)
    ensures s.Step? && s.r.Ok? ==> HasType(s.r.value, ArrayT(e, n))
  {
    if v.Panics? then Panics
    else match v.r
      case Err(x) => Step(Err(x), v.c)
      case Ok(list) =>
        if |list.items| != n then Step(Err(Recoverable), v.c)
        else Step(Ok(ArrayV(list.items)), v.c)
  }

  /** [T;n]::parse_from: a Vec<T>, whose length must be n. */
  function ArraySpec(src: seq<Line>, c: Cursor, e: Desc, n: nat): (s: Step<Value>)
    requires Inv(src, c) && WellFormed(e)
    ensures Progress(src, c, s)
    ensures s.Step? && s.r.Ok? ==> HasType(s.r.value, ArrayT(e, n))
    decreases Unread(src, c), Size(e) + 2, 0
  {
    CheckLength(src, c, VecSpec(src, c, e), e, n)
  }

  /** The derived parse_from of a struct: its fields, positional or named; a unit struct is Final. */
  function StructSpec(src: seq<Line>, c: Cursor, d: Desc): (s: Step<Value>)
    requires Inv(src, c) && d.StructT? && WellFormed(d)
    ensures Progress(src, c, s)
    ensures s.Step? && s.r.Ok? ==> HasType(s.r.value, d)
    decreases Unread(src, c), Size(d), 0
  {
    var fs := d.shape.fields;
    assert ShapeWellFormed(d.shape);
    ShapeFieldsWellFormed(d.shape);
    match Rest(c)
    case None => Step(Err(Final), c)
    case Some(_) =>
      match d.shape.kind
      case UnitShape => Step(Err(Final), c)
      case TupleShape =>
        var s := OrderedSpec(src, c, fs);
        AllTypedFieldsTyped(if s.Step? && s.r.Ok? then s.r.value else [], fs);
        AsStruct(src, c, s)
      case NamedShape =>
        var s := NamedSpec(src, c, fs);
        AllTypedFieldsTyped(if s.Step? && s.r.Ok? then s.r.value else [], fs);
        AsStruct(src, c, s)
  }

  /**
   * The derived parse_from of an enum: the first variant, in declaration
   * order, whose name is a prefix of the rest of the line; no match is
   * Final.
   */
  function EnumSpec(src: seq<Line>, c: Cursor, d: Desc): (s: Step<Value>)
    requires Inv(src, c) && d.EnumT? && WellFormed(d)
    ensures Progress(src, c, s)
    ensures s.Step? && s.r.Ok? ==> HasType(s.r.value, d)
    decreases Unread(src, c), Size(d), 0
  {
    match Rest(c)
    case None => Step(Err(Final), c)
    case Some(nxt) =>
      match MatchVariant(d.variants, nxt)
      case None => Step(Err(Final), c)
      case Some(k) =>
        VariantSmaller(d.variants, k);
        match Advance(src, c, |d.variants[k].name|)
        case None => Step(Err(Final), c)
        case Some(c1) => VariantSpec(src, c1, d, k)
  }

  /** The fields of the chosen variant, after its name was consumed. */
  function VariantSpec(src: seq<Line>, c: Cursor, d: Desc, k: nat): (s: Step<Value>)
    requires Inv(src, c) && d.EnumT? && WellFormed(d) && k < |d.variants|
    ensures Moves(src, c, s)
    ensures s.Step? && s.r.Ok? ==> HasType(s.r.value, d)
    decreases Unread(src, c), Size(d), 2
  {
    var v := d.variants[k];
    var fs := v.shape.fields;
    FindOwnVariant(d.variants, k);
    VariantSmaller(d.variants, k);
    assert ShapeWellFormed(v.shape);
    ShapeFieldsWellFormed(v.shape);
    match v.shape.kind
    case UnitShape => Step(Ok(EnumV(v.name, [])), c)
    case TupleShape =>
      var s := OrderedSpec(src, c, fs);
      AllTypedFieldsTyped(if s.Step? && s.r.Ok? then s.r.value else [], fs);
      AsVariant(src, c, v.name, s)
    case NamedShape =>
      var s := NamedSpec(src, c, fs);
      AllTypedFieldsTyped(if s.Step? && s.r.Ok? then s.r.value else [], fs);
      AsVariant(src, c, v.name, s)
  }

  /** Positional fields: '(', the fields separated by ',', ')'; the first error ends the parse. */
  function OrderedSpec(src: seq<Line>, c: Cursor, fs: seq<Field>): (s: Step<seq<Value>>)
    requires Inv(src, c) && TypesWellFormed(fs)
    ensures Progress(src, c, s)
    ensures s.Step? && s.r.Ok? ==> AllTyped(s.r.value, fs)
    decreases Unread(src, c), SizeFields(fs), 4
  {
    match AdvanceChar(src, c, '(')
    case None => Step(Err(Final), c)
    case Some(c1) =>
      var l := OrderedFields(src, c1, fs, 0, []);
      if l.Panics? then Panics
      else match l.r
        case Err(x) => Step(Err(x), l.c)
        case Ok(vs) =>
          match AdvanceChar(src, l.c, ')')
          case None => Step(Err(Final), l.c)
          case Some(c2) => Step(Ok(vs), c2)
  }

  /** The positional fields from i on, after the values acc of the fields before i. */
  function OrderedFields(src: seq<Line>, c: Cursor, fs: seq<Field>, i: nat, acc: seq<Value>): (s: Step<seq<Value>>)
    requires Inv(src, c) && TypesWellFormed(fs) && i <= |fs|
    requires |acc| == i && forall k :: 0 <= k < i ==> HasType(acc[k], fs[k].ty)
    ensures Moves(src, c, s)
    ensures s.Step? && s.r.Ok? ==> AllTyped(s.r.value, fs) && s.r.value[..i] == acc
    decreases Unread(src, c), SizeFields(fs), 3
  {
    if i == |fs| then Step(Ok(acc), c)
    else
      match Separator(src, c, i == 0)
      case None => Step(Err(Final), c)
      case Some(c1) => OrderedField(src, c1, fs, i, acc)
  }

  /** Field i, whose error ends the parse; then the fields after it. */
  function OrderedField(src: seq<Line>, c: Cursor, fs: seq<Field>, i: nat, acc: seq<Value>): (s: Step<seq<Value>>)
    requires Inv(src, c) && TypesWellFormed(fs) && i < |fs|
    requires |acc| == i && forall k :: 0 <= k < i ==> HasType(acc[k], fs[k].ty)
    ensures Progress(src, c, s)
    ensures s.Step? && s.r.Ok? ==> AllTyped(s.r.value, fs) && s.r.value[..i] == acc
    decreases Unread(src, c), SizeFields(fs), 2
  {
    FieldSmaller(fs, i);
    var f := ParseSpec(src, c, fs[i].ty);
    if f.Panics? then Panics
    else match f.r
      case Err(x) => Step(Err(x), f.c)
      case Ok(v) =>
        var s := OrderedFields(src, f.c, fs, i + 1, acc + [v]);
        assert s.Step? && s.r.Ok? ==> s.r.value[..i] == (acc + [v])[..i];
        s
  }

  /** Named fields: '{', the field loop, and then get_value on every field, in declaration order. */
  function NamedSpec(src: seq<Line>, c: Cursor, fs: seq<Field>): (s: Step<seq<Value>>)
    requires Inv(src, c) && NamedWellFormed(fs)
    ensures Progress(src, c, s)
    ensures s.Step? && s.r.Ok? ==> AllTyped(s.r.value, fs)
    decreases Unread(src, c), SizeFields(fs), 4
  {
    match AdvanceChar(src, c, '{')
    case None => Step(Err(Final), c)
    case Some(c1) =>
      var l := NamedLoop(src, c1, fs, InitStates(fs));
      if l.Panics? then Panics
      else match l.r
        case Err(x) => Step(Err(x), l.c)
        case Ok(states) =>
          ResolvedTyped(fs, states);
          Step(ResolveFrom(fs, states, 0, []), l.c)
  }

  /**
   * A key of the named field loop: the first field, in declaration order,
   * whose name is a prefix of the rest of the line, then its name and
   * ':' are consumed.  End of input, a text that no field name starts, or
   * a missing ':' is Final.
   */
  function KeySpec(src: seq<Line>, c: Cursor, fs: seq<Field>): (s: Step<nat>)
    requires Inv(src, c)
    ensures s.Step? && Progress(src, c, s)
    ensures s.r.Ok? ==> s.r.value < |fs| && StartsWith(Rest(c).value, fs[s.r.value].name)
    ensures s.r.Err? ==> s.r.error == Final
  {
    match Rest(c)
    case None => Step(Err(Final), c)
    case Some(nxt) =>
      match MatchField(fs, nxt)
      case None => Step(Err(Final), c)
      case Some(j) =>
        match Advance(src, c, |fs[j].name|)
        case None => Step(Err(Final), c)
        case Some(c1) =>
          match AdvanceChar(src, c1, ':')
          case None => Step(Err(Final), c1)
          case Some(c2) => Step(Ok(j), c2)
  }

  /** The cursor after the ',' that may follow a named field's value. */
  function AfterComma(src: seq<Line>, c: Cursor): (r: Cursor)
    requires Inv(src, c)
    ensures Inv(src, r) && Unread(src, r) <= Unread(src, c)
    ensures Peek(c) == Some(',') ==> Some(r) == Advance(src, c, 1)
    ensures Peek(c) != Some(',') ==> r == c
  {
    if Peek(c) == Some(',') then Advance(src, c, 1).value else c
  }

  /** One turn of the named field loop: '}' ends it, otherwise a key and its value. */
  function NamedLoop(src: seq<Line>, c: Cursor, fs: seq<Field>, states: seq<FieldState>): (s: Step<seq<FieldState>>)
    requires Inv(src, c) && NamedWellFormed(fs) && StatesTyped(states, fs)
    ensures Progress(src, c, s)
    ensures s.Step? && s.r.Ok? ==> StatesTyped(s.r.value, fs)
    decreases Unread(src, c), SizeFields(fs), 3
  {
    if Peek(c) == Some('}') then Take(src, c, 1, states)
    else
      var k := KeySpec(src, c, fs);
      match k.r
      case Err(x) => Step(Err(x), k.c)
      case Ok(j) => NamedValue(src, k.c, fs, states, j)
  }

  /**
   * The value of field j, pushed into its state (a Final error ends the
   * parse, a Recoverable one fails the field), then an optional ','; then
   * the loop goes on.
   */
  function NamedValue(src: seq<Line>, c: Cursor, fs: seq<Field>, states: seq<FieldState>, j: nat): (s: Step<seq<FieldState>>)
    requires Inv(src, c) && NamedWellFormed(fs) && StatesTyped(states, fs) && j < |fs|
    ensures Progress(src, c, s)
    ensures s.Step? && s.r.Ok? ==> StatesTyped(s.r.value, fs)
    decreases Unread(src, c) + 1, SizeFields(fs), 2
  {
    assert FieldWellFormed(fs[j], NamedShape);
    FieldSmaller(fs, j);
    var v := ParseSpec(src, c, fs[j].ty);
    if v.Panics? then Panics
    else
      var (st, res) := Push(fs[j].ty, states[j], v.r);
      if res.Err? then Step(Err(Final), v.c)
      else
        NamedLoop(src, AfterComma(src, v.c), fs, states[j := st])
  }
}

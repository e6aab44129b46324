/**
 * ConfigAble::parse_from on the ConfigProvider for the composite types:
 * Option<T>, Vec<T>, [T;4] and [T;6] (src/implementations), and the code
 * the derive macro emits for structs and enums (rs-config-derive).
 *
 * Every method here consumes input through the provider, as the Rust code
 * does, and is proved to end exactly where the matching function of the
 * Parser module says, with the result that function gives.  Each method
 * asks that the parse does not run into a panicking literal lexer
 * (the Spec(...).Step? precondition), as the scalar methods do.
 */
module ParseFrom {
  import opened Common
  import opened Scanner
  import opened Schema
  import opened FieldStates
  import opened Scalars
  import opened Parser

  /** ConfigAble::parse_from, dispatched on the type descriptor. */
  method ParseValue(p: ConfigProvider, d: Desc) returns (r: Result<Value>)
    requires p.Valid() && WellFormed(d) && ParseSpec(p.source, p.Cur(), d).Step?
    modifies p
    ensures Step(r, p.Cur()) == ParseSpec(p.source, old(p.Cur()), d)
    decreases p.Remaining(), Size(d), 1
  {
    match d {
      case StringT => r := ParseString(p);
      case CharT => r := ParseCharValue(p);
      case IntT(k) => r := ParseIntValue(p, k);
      case Ipv4T => r := ParseIpValue(p);
      case LogLevelT => r := ParseLevelValue(p);
      case OptionT(e) => r := ParseOption(p, e);
      case VecT(e) => r := ParseVec(p, e);
      case ArrayT(e, n) => r := ParseArray(p, e, n);
      case StructT(_, _, _) => r := ParseStruct(p, d);
      case EnumT(_, _, _) => r := ParseEnum(p, d);
    }
  }

  /** Option<T>::parse_from. */
  method ParseOption(p: ConfigProvider, e: Desc) returns (r: Result<Value>)
    requires p.Valid() && WellFormed(e) && OptionSpec(p.source, p.Cur(), e).Step?
    modifies p
    ensures Step(r, p.Cur()) == OptionSpec(p.source, old(p.Cur()), e)
    decreases p.Remaining(), Size(e) + 1, 0
  {
    var content := p.GetNext();
    if content.None? {
      return Err(Final);
    }
    if StartsWith(content.value, "None") {
      var ok := p.Consume(4);
      if ok.Err? {
        return Err(Final);
      }
      return Ok(NoneV);
    }
    if StartsWith(content.value, "Some") {
      var ok := p.Consume(4);
      if ok.Err? {
        return Err(Final);
      }
      r := ParseSome(p, e);
      return;
    }
    return Err(Final);
  }

  /** The part of Option<T>::parse_from after "Some". */
  method ParseSome(p: ConfigProvider, e: Desc) returns (r: Result<Value>)
    requires p.Valid() && WellFormed(e) && SomeSpec(p.source, p.Cur(), e).Step?
    modifies p
    ensures Step(r, p.Cur()) == SomeSpec(p.source, old(p.Cur()), e)
    decreases p.Remaining(), Size(e) + 1, 2
  {
    var ok := p.ConsumeChar('(');
    if ok.Err? {
      return Err(Final);
    }
    var inner := ParseValue(p, e);
    ok := p.ConsumeChar(')');
    if ok.Err? {
      return Err(Final);
    }
    match inner {
      case Ok(v) => return Ok(SomeV(v));
      case Err(x) => return Err(x);
    }
  }

  /** Vec<T>::parse_from: '[' and then the element loop. */
  method ParseVec(p: ConfigProvider, e: Desc) returns (r: Result<Value>)
    requires p.Valid() && WellFormed(e) && VecSpec(p.source, p.Cur(), e).Step?
    modifies p
    ensures Step(r, p.Cur()) == VecSpec(p.source, old(p.Cur()), e)
    ensures r.Ok? ==> r.value.VecV?
    decreases p.Remaining(), Size(e) + 1, 0
  {
    ghost var c0 := p.Cur();
    var ok := p.ConsumeChar('[');
    if ok.Err? {
      return Err(Final);
    }
    var first, done := true, false;
    var ret: seq<Value> := [];
    r := Err(Final);
    while !done
      invariant p.Valid() && Unread(p.source, p.Cur()) <= Unread(p.source, c0)
      invariant forall i :: 0 <= i < |ret| ==> HasType(ret[i], e)
      invariant VecSpec(p.source, c0, e) ==
        if done then Step(r, p.Cur()) else VecLoop(p.source, p.Cur(), e, ret, first)
      invariant r.Ok? ==> r.value.VecV?
      decreases !done, p.Remaining()
    {
      done, r, ret := VecTurn(p, e, ret, first);
      first := false;
    }
  }

  /**
   * One turn of the element loop of Vec<T>::parse_from, after the
   * elements acc: either the loop ends with the result r, or the
   * elements are now ret.
   */
  method VecTurn(p: ConfigProvider, e: Desc, acc: seq<Value>, first: bool) returns (done: bool, r: Result<Value>, ret: seq<Value>)
    requires p.Valid() && WellFormed(e) && forall i :: 0 <= i < |acc| ==> HasType(acc[i], e)
    requires VecLoop(p.source, p.Cur(), e, acc, first).Step?
    modifies p
    ensures p.Valid() && forall i :: 0 <= i < |ret| ==> HasType(ret[i], e)
    ensures !done ==> Unread(p.source, p.Cur()) < Unread(p.source, old(p.Cur()))
    ensures r.Ok? ==> r.value.VecV?
    ensures done ==> VecLoop(p.source, old(p.Cur()), e, acc, first) == Step(r, p.Cur())
    ensures !done ==> VecLoop(p.source, old(p.Cur()), e, acc, first) == VecLoop(p.source, p.Cur(), e, ret, false)
    decreases p.Remaining(), Size(e) + 1, 4
  {
    if p.IsAtEnd() {
      return true, Err(Final), acc;
    }
    if p.PeekChar() == Some(']') {
      var ok := p.Consume(1);
      if ok.Err? {
        return true, Err(Final), acc;
      }
      return true, Ok(VecV(acc)), acc;
    }
    done, r, ret := VecSeparated(p, e, acc, first);
  }

  /** The ',' before every element but the first, then the element. */
  method VecSeparated(p: ConfigProvider, e: Desc, acc: seq<Value>, first: bool) returns (done: bool, r: Result<Value>, ret: seq<Value>)
    requires p.Valid() && WellFormed(e) && forall i :: 0 <= i < |acc| ==> HasType(acc[i], e)
    requires p.GetNext().Some? && p.PeekChar() != Some(']')
    requires VecLoop(p.source, p.Cur(), e, acc, first).Step?
    modifies p
    ensures p.Valid() && forall i :: 0 <= i < |ret| ==> HasType(ret[i], e)
    ensures !done ==> Unread(p.source, p.Cur()) < Unread(p.source, old(p.Cur()))
    ensures r.Ok? ==> r.value.VecV?
    ensures done ==> VecLoop(p.source, old(p.Cur()), e, acc, first) == Step(r, p.Cur())
    ensures !done ==> VecLoop(p.source, old(p.Cur()), e, acc, first) == VecLoop(p.source, p.Cur(), e, ret, false)
    decreases p.Remaining(), Size(e) + 1, 3
  {
    if !first {
      var ok := p.ConsumeChar(',');
      if ok.Err? {
        return true, Err(Final), acc;
      }
    }
    done, r, ret := VecElem(p, e, acc);
  }

  /** One element of Vec<T>::parse_from; an error of either kind ends the vector. */
  method VecElem(p: ConfigProvider, e: Desc, acc: seq<Value>) returns (done: bool, r: Result<Value>, ret: seq<Value>)
    requires p.Valid() && WellFormed(e) && forall i :: 0 <= i < |acc| ==> HasType(acc[i], e)
    requires VecElement(p.source, p.Cur(), e, acc).Step?
    modifies p
    ensures p.Valid() && forall i :: 0 <= i < |ret| ==> HasType(ret[i], e)
    ensures !done ==> Unread(p.source, p.Cur()) < Unread(p.source, old(p.Cur()))
    ensures r.Ok? ==> r.value.VecV?
    ensures done ==> VecElement(p.source, old(p.Cur()), e, acc) == Step(r, p.Cur())
    ensures !done ==> VecElement(p.source, old(p.Cur()), e, acc) == VecLoop(p.source, p.Cur(), e, ret, false)
    decreases p.Remaining(), Size(e) + 1, 2
  {
    var el := ParseValue(p, e);
    if el.Err? {
      return true, Err(el.error), acc;
    }
    return false, Ok(VecV([])), acc + [el.value];
  }

  /** [T;n]::parse_from: a Vec<T> of exactly n elements. */
  method ParseArray(p: ConfigProvider, e: Desc, n: nat) returns (r: Result<Value>)
    requires p.Valid() && WellFormed(e) && ArraySpec(p.source, p.Cur(), e, n).Step?
    modifies p
    ensures Step(r, p.Cur()) == ArraySpec(p.source, old(p.Cur()), e, n)
    decreases p.Remaining(), Size(e) + 2, 0
  {
    var list := ParseVec(p, e);
    match list {
      case Err(x) => return Err(x);
      case Ok(v) =>
        if |v.items| != n {
          return Err(Recoverable);
        }
        return Ok(ArrayV(v.items));
    }
  }

  /** The derived parse_from of a struct. */
  method ParseStruct(p: ConfigProvider, d: Desc) returns (r: Result<Value>)
    requires p.Valid() && d.StructT? && WellFormed(d) && StructSpec(p.source, p.Cur(), d).Step?
    modifies p
    ensures Step(r, p.Cur()) == StructSpec(p.source, old(p.Cur()), d)
    decreases p.Remaining(), Size(d), 0
  {
    var nxt := p.GetNext();
    if nxt.None? {
      return Err(Final);
    }
    var fs := d.shape.fields;
    assert ShapeWellFormed(d.shape);
    ShapeFieldsWellFormed(d.shape);
    match d.shape.kind {
      case UnitShape =>
        return Err(Final);
      case TupleShape =>
        var vs := ParseOrdered(p, fs);
        match vs {
          case Ok(x) => return Ok(StructV(x));
          case Err(x) => return Err(x);
        }
      case NamedShape =>
        var vs := ParseNamed(p, fs);
        match vs {
          case Ok(x) => return Ok(StructV(x));
          case Err(x) => return Err(x);
        }
    }
  }

  /** The derived parse_from of an enum: the first variant whose name starts the text. */
  method ParseEnum(p: ConfigProvider, d: Desc) returns (r: Result<Value>)
    requires p.Valid() && d.EnumT? && WellFormed(d) && EnumSpec(p.source, p.Cur(), d).Step?
    modifies p
    ensures Step(r, p.Cur()) == EnumSpec(p.source, old(p.Cur()), d)
    decreases p.Remaining(), Size(d), 0
  {
    var nxt := p.GetNext();
    if nxt.None? {
      return Err(Final);
    }
    var k := MatchVariant(d.variants, nxt.value);
    if k.None? {
      return Err(Final);
    }
    VariantSmaller(d.variants, k.value);
    var ok := p.Consume(|d.variants[k.value].name|);
    if ok.Err? {
      return Err(Final);
    }
    r := ParseVariant(p, d, k.value);
  }

  /** The fields of variant k, after its name. */
  method ParseVariant(p: ConfigProvider, d: Desc, k: nat) returns (r: Result<Value>)
    requires p.Valid() && d.EnumT? && WellFormed(d) && k < |d.variants|
    requires VariantSpec(p.source, p.Cur(), d, k).Step?
    modifies p
    ensures Step(r, p.Cur()) == VariantSpec(p.source, old(p.Cur()), d, k)
    decreases p.Remaining(), Size(d), 2
  {
    var v := d.variants[k];
    var fs := v.shape.fields;
    VariantSmaller(d.variants, k);
    assert ShapeWellFormed(v.shape);
    ShapeFieldsWellFormed(v.shape);
    match v.shape.kind {
      case UnitShape =>
        return Ok(EnumV(v.name, []));
      case TupleShape =>
        var vs := ParseOrdered(p, fs);
        match vs {
          case Ok(x) => return Ok(EnumV(v.name, x));
          case Err(x) => return Err(x);
        }
      case NamedShape =>
        var vs := ParseNamed(p, fs);
        match vs {
          case Ok(x) => return Ok(EnumV(v.name, x));
          case Err(x) => return Err(x);
        }
    }
  }

  /** Positional fields: '(', the fields separated by ',', ')'. */
  method ParseOrdered(p: ConfigProvider, fs: seq<Field>) returns (r: Result<seq<Value>>)
    requires p.Valid() && TypesWellFormed(fs) && OrderedSpec(p.source, p.Cur(), fs).Step?
    modifies p
    ensures Step(r, p.Cur()) == OrderedSpec(p.source, old(p.Cur()), fs)
    decreases p.Remaining(), SizeFields(fs), 6
  {
    var ok := p.ConsumeChar('(');
    if ok.Err? {
      return Err(Final);
    }
    r := OrderedLoop(p, fs);
    if r.Err? {
      return;
    }
    ok := p.ConsumeChar(')');
    if ok.Err? {
      return Err(Final);
    }
  }

  /** The loop over the positional fields, after '('. */
  method OrderedLoop(p: ConfigProvider, fs: seq<Field>) returns (r: Result<seq<Value>>)
    requires p.Valid() && TypesWellFormed(fs) && OrderedFields(p.source, p.Cur(), fs, 0, []).Step?
    modifies p
    ensures p.Valid()
    ensures Step(r, p.Cur()) == OrderedFields(p.source, old(p.Cur()), fs, 0, [])
    decreases p.Remaining(), SizeFields(fs), 5
  {
    ghost var c0 := p.Cur();
    var vals: seq<Value> := [];
    var i := 0;
    while i < |fs|
      invariant i <= |fs| && |vals| == i
      invariant p.Valid() && Unread(p.source, p.Cur()) <= Unread(p.source, c0)
      invariant forall k :: 0 <= k < i ==> HasType(vals[k], fs[k].ty)
      invariant OrderedFields(p.source, c0, fs, 0, []) == OrderedFields(p.source, p.Cur(), fs, i, vals)
    {
      var next := OrderedStep(p, fs, i, vals);
      if next.Err? {
        return Err(next.error);
      }
      vals := next.value;
      i := i + 1;
    }
    return Ok(vals);
  }

  /**
   * Positional field i, after the values acc of the fields before it: the
   * ',' (except before the first field) and the field.  Ok holds the
   * values up to and including field i.
   */
  method OrderedStep(p: ConfigProvider, fs: seq<Field>, i: nat, acc: seq<Value>) returns (r: Result<seq<Value>>)
    requires p.Valid() && TypesWellFormed(fs) && i < |fs|
    requires |acc| == i && forall k :: 0 <= k < i ==> HasType(acc[k], fs[k].ty)
    requires OrderedFields(p.source, p.Cur(), fs, i, acc).Step?
    modifies p
    ensures p.Valid() && Unread(p.source, p.Cur()) <= Unread(p.source, old(p.Cur()))
    ensures r.Ok? ==> |r.value| == i + 1 && forall k :: 0 <= k <= i ==> HasType(r.value[k], fs[k].ty)
    ensures r.Ok? ==> OrderedFields(p.source, old(p.Cur()), fs, i, acc) == OrderedFields(p.source, p.Cur(), fs, i + 1, r.value)
    ensures r.Err? ==> OrderedFields(p.source, old(p.Cur()), fs, i, acc) == Step(Err(r.error), p.Cur())
    decreases p.Remaining(), SizeFields(fs), 4
  {
    if i > 0 {
      var ok := p.ConsumeChar(',');
      if ok.Err? {
        return Err(Final);
      }
    }
    r := OrderedValue(p, fs, i, acc);
  }

  /** The value of positional field i; its error, of either kind, ends the parse. */
  method OrderedValue(p: ConfigProvider, fs: seq<Field>, i: nat, acc: seq<Value>) returns (r: Result<seq<Value>>)
    requires p.Valid() && TypesWellFormed(fs) && i < |fs|
    requires |acc| == i && forall k :: 0 <= k < i ==> HasType(acc[k], fs[k].ty)
    requires OrderedField(p.source, p.Cur(), fs, i, acc).Step?
    modifies p
    ensures p.Valid() && Unread(p.source, p.Cur()) <= Unread(p.source, old(p.Cur()))
    ensures r.Ok? ==> |r.value| == i + 1 && forall k :: 0 <= k <= i ==> HasType(r.value[k], fs[k].ty)
    ensures r.Ok? ==> OrderedField(p.source, old(p.Cur()), fs, i, acc) == OrderedFields(p.source, p.Cur(), fs, i + 1, r.value)
    ensures r.Err? ==> OrderedField(p.source, old(p.Cur()), fs, i, acc) == Step(Err(r.error), p.Cur())
    decreases p.Remaining(), SizeFields(fs), 3
  {
    FieldSmaller(fs, i);
    var v := ParseValue(p, fs[i].ty);
    if v.Err? {
      return Err(v.error);
    }
    return Ok(acc + [v.value]);
  }

  /** The states of the field holders, in field order. */
  ghost function States(tmps: seq<ParseTmp>): (r: seq<FieldState>)
    reads tmps
    ensures |r| == |tmps| && forall i :: 0 <= i < |tmps| ==> r[i] == tmps[i].state
  {
    seq(|tmps|, i reads tmps requires 0 <= i < |tmps| => tmps[i].state)
  }

  /** How the named field loop ended: with the states of the holders, or with the error. */
  function Ended(r: Result<()>, states: seq<FieldState>, c: Cursor): Step<seq<FieldState>>
  {
    if r.Ok? then Step(Ok(states), c) else Step(Err(r.error), c)
  }

  /** The field holders fit the fields: one per field, distinct, each valid. */
  ghost predicate Holders(tmps: seq<ParseTmp>, fs: seq<Field>)
    reads tmps
  {
    |tmps| == |fs| &&
    (forall i :: 0 <= i < |fs| ==> tmps[i].ty == fs[i].ty && tmps[i].Valid()) &&
    (forall i, j :: 0 <= i < j < |tmps| ==> tmps[i] != tmps[j])
  }

  /** The holders' states hold values of the field types. */
  lemma HoldersTyped(tmps: seq<ParseTmp>, fs: seq<Field>)
    requires Holders(tmps, fs)
    ensures StatesTyped(States(tmps), fs)
  {
  }

  /** Named fields: '{', the field loop, then get_value on every field. */
  method ParseNamed(p: ConfigProvider, fs: seq<Field>) returns (r: Result<seq<Value>>)
    requires p.Valid() && NamedWellFormed(fs) && NamedSpec(p.source, p.Cur(), fs).Step?
    modifies p
    ensures Step(r, p.Cur()) == NamedSpec(p.source, old(p.Cur()), fs)
    decreases p.Remaining(), SizeFields(fs), 7
  {
    var ok := p.ConsumeChar('{');
    if ok.Err? {
      return Err(Final);
    }
    var tmps := NewHolders(fs);
    HoldersTyped(tmps, fs);
    ok := NamedFieldLoop(p, fs, tmps);
    if ok.Err? {
      return Err(ok.error);
    }
    r := ResolveAll(fs, tmps);
  }

  /** ParseTmp::new for every field, and set_default where the field has a default. */
  method NewHolders(fs: seq<Field>) returns (tmps: seq<ParseTmp>)
    requires NamedWellFormed(fs)
    ensures Holders(tmps, fs) && States(tmps) == InitStates(fs)
    ensures forall i :: 0 <= i < |tmps| ==> fresh(tmps[i])
  {
    tmps := [];
    for i := 0 to |fs|
      invariant |tmps| == i
      invariant forall k :: 0 <= k < i ==>
        fresh(tmps[k]) && tmps[k].ty == fs[k].ty && tmps[k].Valid() && tmps[k].state == InitStates(fs)[k]
      invariant forall a, b :: 0 <= a < b < i ==> tmps[a] != tmps[b]
    {
      assert FieldWellFormed(fs[i], NamedShape);
      var t := new ParseTmp(fs[i].name, fs[i].ty);
      if fs[i].default.Some? {
        t.SetDefault(fs[i].default.value);
      }
      tmps := tmps + [t];
    }
  }

  /**
   * The loop of the named-field parse, after '{': it pushes every value
   * found into the holder of its field.
   */
  method NamedFieldLoop(p: ConfigProvider, fs: seq<Field>, tmps: seq<ParseTmp>) returns (r: Result<()>)
    requires p.Valid() && NamedWellFormed(fs) && Holders(tmps, fs) && StatesTyped(States(tmps), fs)
    requires NamedLoop(p.source, p.Cur(), fs, States(tmps)).Step?
    modifies p, tmps
    ensures Holders(tmps, fs)
    ensures NamedLoop(p.source, old(p.Cur()), fs, old(States(tmps))) == Ended(r, States(tmps), p.Cur())
    decreases p.Remaining(), SizeFields(fs), 6
  {
    ghost var c0 := p.Cur();
    ghost var s0 := States(tmps);
    var done := false;
    r := Ok(());
    while !done
      invariant p.Valid() && Unread(p.source, p.Cur()) <= Unread(p.source, c0)
      invariant Holders(tmps, fs) && StatesTyped(States(tmps), fs)
      invariant done ==> NamedLoop(p.source, c0, fs, s0) == Ended(r, States(tmps), p.Cur())
      invariant !done ==> NamedLoop(p.source, c0, fs, s0) == NamedLoop(p.source, p.Cur(), fs, States(tmps))
      decreases !done, p.Remaining()
    {
      done, r := NamedTurn(p, fs, tmps);
    }
  }

  /** One turn of the named field loop: '}' ends it, anything else is a key and its value. */
  method NamedTurn(p: ConfigProvider, fs: seq<Field>, tmps: seq<ParseTmp>) returns (done: bool, r: Result<()>)
    requires p.Valid() && NamedWellFormed(fs) && Holders(tmps, fs) && StatesTyped(States(tmps), fs)
    requires NamedLoop(p.source, p.Cur(), fs, States(tmps)).Step?
    modifies p, tmps
    ensures p.Valid() && Holders(tmps, fs) && StatesTyped(States(tmps), fs)
    ensures !done ==> Unread(p.source, p.Cur()) < Unread(p.source, old(p.Cur()))
    ensures done ==> NamedLoop(p.source, old(p.Cur()), fs, old(States(tmps))) == Ended(r, States(tmps), p.Cur())
    ensures !done ==> NamedLoop(p.source, old(p.Cur()), fs, old(States(tmps))) == NamedLoop(p.source, p.Cur(), fs, States(tmps))
    decreases p.Remaining(), SizeFields(fs), 5
  {
    assert forall i | 0 <= i < |tmps| :: tmps[i] as object != p;
    if p.PeekChar() == Some('}') {
      r := p.Consume(1);
      return true, r;
    }
    var k := ParseKey(p, fs);
    if k.Err? {
      return true, Err(k.error);
    }
    done, r := NamedField(p, fs, tmps, k.value);
  }

  /** A key: the first field whose name starts the rest of the line, its name and ':'. */
  method ParseKey(p: ConfigProvider, fs: seq<Field>) returns (r: Result<nat>)
    requires p.Valid()
    modifies p
    ensures Step(r, p.Cur()) == KeySpec(p.source, old(p.Cur()), fs)
  {
    var nxt := p.GetNext();
    if nxt.None? {
      return Err(Final);
    }
    var j := MatchField(fs, nxt.value);
    if j.None? {
      return Err(Final);
    }
    var ok := p.Consume(|fs[j.value].name|);
    if ok.Err? {
      return Err(Final);
    }
    ok := p.ConsumeChar(':');
    if ok.Err? {
      return Err(Final);
    }
    return Ok(j.value);
  }

  /**
   * The value of field j, pushed into its holder (a Final error ends the
   * parse), and then an optional ','.
   */
  method NamedField(p: ConfigProvider, fs: seq<Field>, tmps: seq<ParseTmp>, j: nat) returns (done: bool, r: Result<()>)
    requires p.Valid() && NamedWellFormed(fs) && Holders(tmps, fs) && StatesTyped(States(tmps), fs) && j < |fs|
    requires NamedValue(p.source, p.Cur(), fs, States(tmps), j).Step?
    modifies p, tmps
    ensures p.Valid() && Holders(tmps, fs) && StatesTyped(States(tmps), fs)
    ensures Unread(p.source, p.Cur()) <= Unread(p.source, old(p.Cur()))
    ensures done ==> r.Err? && NamedValue(p.source, old(p.Cur()), fs, old(States(tmps)), j) == Step(Err(r.error), p.Cur())
    ensures !done ==> NamedValue(p.source, old(p.Cur()), fs, old(States(tmps)), j) == NamedLoop(p.source, p.Cur(), fs, States(tmps))
    decreases p.Remaining(), SizeFields(fs), 3
  {
    assert FieldWellFormed(fs[j], NamedShape);
    FieldSmaller(fs, j);
    assert forall i | 0 <= i < |tmps| :: tmps[i] as object != p;
    var v := ParseValue(p, fs[j].ty);
    var ok := PushInto(fs, tmps, j, v);
    if ok.Err? {
      return true, Err(Final);
    }
    ghost var s1 := States(tmps);
    SkipComma(p);
    assert States(tmps) == s1;
    return false, Ok(());
  }

  /** The optional ',' after a named field's value. */
  method SkipComma(p: ConfigProvider)
    requires p.Valid()
    modifies p
    ensures p.Valid() && Unread(p.source, p.Cur()) <= Unread(p.source, old(p.Cur()))
    ensures p.Cur() == AfterComma(p.source, old(p.Cur()))
  {
    if p.PeekChar() == Some(',') {
      var _ := p.Consume(1);
    }
  }

  /** push_found on the holder of field j; the other holders are untouched. */
  method PushInto(fs: seq<Field>, tmps: seq<ParseTmp>, j: nat, v: Result<Value>) returns (r: Result<()>)
    requires Holders(tmps, fs) && j < |fs|
    requires v.Ok? ==> HasType(v.value, fs[j].ty)
    modifies tmps[j]
    ensures Holders(tmps, fs) && StatesTyped(States(tmps), fs)
    ensures (States(tmps)[j], r) == Push(fs[j].ty, old(States(tmps))[j], v)
    ensures States(tmps) == old(States(tmps))[j := States(tmps)[j]]
  {
    r := tmps[j].PushFound(v);
    HoldersTyped(tmps, fs);
  }

  /** get_value on every field, in declaration order; the first error is the result. */
  method ResolveAll(fs: seq<Field>, tmps: seq<ParseTmp>) returns (r: Result<seq<Value>>)
    requires Holders(tmps, fs)
    ensures r == ResolveFrom(fs, States(tmps), 0, [])
  {
    var vals: seq<Value> := [];
    for i := 0 to |tmps|
      invariant |vals| == i
      invariant ResolveFrom(fs, States(tmps), i, vals) == ResolveFrom(fs, States(tmps), 0, [])
    {
      var v := tmps[i].GetValue();
      if v.Err? {
        return Err(v.error);
      }
      vals := vals + [v.value];
    }
    return Ok(vals);
  }
}

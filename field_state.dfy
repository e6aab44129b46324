/**
 * ParseTmp: what a struct's named field has collected while the fields
 * of the struct are read in any order, each possibly several times.
 * Values given more than once are merged; a failed value poisons the
 * field; at the end the field resolves to the value found, else the
 * default from the field's attribute, else its type's default.
 */
module FieldStates {
  import opened Common
  import opened Schema

  datatype FieldState =
    | Empty               // not seen, no attribute default
    | DefaultSet(v: Value)  // not seen, attribute default v
    | Found(v: Value)     // seen; v is everything seen so far, merged
    | Failed              // a value or a merge failed

  predicate StateTyped(s: FieldState, ty: Desc)
  {
    (s.DefaultSet? || s.Found?) ==> HasType(s.v, ty)
  }

  /**
   * push_found: record the outcome of parsing one more occurrence of the
   * field.  A Final error is handed back and nothing changes; a
   * Recoverable error marks the field failed and parsing goes on; a value
   * replaces a default, merges into a value found before (a failed merge
   * marks the field failed) and is ignored by a failed field.
   */
  function Push(ty: Desc, s: FieldState, rhs: Result<Value>): (r: (FieldState, Result<()>))
    requires MergeDefined(ty) && StateTyped(s, ty)
    requires rhs.Ok? ==> HasType(rhs.value, ty)
    ensures rhs == Err(Final) <==> r.1 == Err(Final)
    ensures r.1 == Err(Final) ==> r.0 == s
    ensures r.1 != Err(Final) ==> r.1 == Ok(())
    ensures WellFormed(ty) ==> StateTyped(r.0, ty)
  {
    match rhs
    case Err(Final) => (s, Err(Final))
    case Err(Recoverable) => (Failed, Ok(()))
    case Ok(v) =>
      match s
      case Empty => (Found(v), Ok(()))
      case DefaultSet(_) => (Found(v), Ok(()))
      case Failed => (Failed, Ok(()))
      case Found(x) =>
        var m := Merge(ty, x, v);
        MergeTyped(ty, x, v);
        if m.ok then (Found(m.value), Ok(())) else (Failed, Ok(()))
  }

  lemma MergeTyped(ty: Desc, l: Value, r: Value)
    requires MergeDefined(ty) && HasType(l, ty) && HasType(r, ty)
    ensures WellFormed(ty) ==> HasType(Merge(ty, l, r).value, ty)
  {
    if WellFormed(ty) {
      MergeKeepsType(ty, l, r);
    }
  }

  /**
   * get_value: the found value, else the attribute default, else the type
   * default; a failed field, or an empty one whose type has no default,
   * gives a Recoverable error (never a Final one).
   */
  function Resolve(ty: Desc, s: FieldState): (r: Result<Value>)
    ensures r != Err(Final)
    ensures r.Err? <==> s.Failed? || (s.Empty? && Default(ty).None?)
    ensures r.Ok? && WellFormed(ty) && StateTyped(s, ty) ==> HasType(r.value, ty)
  {
    match s
    case Found(x) => Ok(x)
    case DefaultSet(x) => Ok(x)
    case Empty =>
      (match Default(ty)
       case Some(x) => Ok(x)
       case None => Err(Recoverable))
    case Failed => Err(Recoverable)
  }

  /** The state after pushing a sequence of outcomes, stopping at a Final error. */
  function PushAll(ty: Desc, s: FieldState, rhss: seq<Result<Value>>): (r: FieldState)
    requires WellFormed(ty) && MergeDefined(ty) && StateTyped(s, ty)
    requires forall i :: 0 <= i < |rhss| ==> rhss[i].Ok? ==> HasType(rhss[i].value, ty)
    ensures StateTyped(r, ty)
    decreases |rhss|
  {
    if |rhss| == 0 then s
    else
      var (s', res) := Push(ty, s, rhss[0]);
      if res.Err? then s' else PushAll(ty, s', rhss[1..])
  }

  /** Once failed, a field stays failed whatever else is found for it. */
  lemma {:induction false} FailedAbsorbs(ty: Desc, rhss: seq<Result<Value>>)
    requires WellFormed(ty) && MergeDefined(ty)
    requires forall i :: 0 <= i < |rhss| ==> rhss[i].Ok? ==> HasType(rhss[i].value, ty)
    ensures PushAll(ty, Failed, rhss) == Failed
    decreases |rhss|
  {
    if |rhss| > 0 && rhss[0] != Err(Final) {
      FailedAbsorbs(ty, rhss[1..]);
    }
  }

  /** Left-to-right merge of several values; None at the first merge that fails. */
  function MergeAll(ty: Desc, acc: Value, vs: seq<Value>): (r: Option<Value>)
    requires WellFormed(ty) && MergeDefined(ty) && HasType(acc, ty)
    requires forall i :: 0 <= i < |vs| ==> HasType(vs[i], ty)
    decreases |vs|
  {
    if |vs| == 0 then Some(acc)
    else
      MergeKeepsType(ty, acc, vs[0]);
      var m := Merge(ty, acc, vs[0]);
      if m.ok then MergeAll(ty, m.value, vs[1..]) else None
  }

  function Oks(vs: seq<Value>): (r: seq<Result<Value>>)
    ensures |r| == |vs| && forall i :: 0 <= i < |vs| ==> r[i] == Ok(vs[i])
  {
    if |vs| == 0 then [] else [Ok(vs[0])] + Oks(vs[1..])
  }

  /**
   * A field given several times holds the merge of all its values, in the
   * order given, or is failed if one of the merges fails.
   */
  lemma {:induction false} RepeatedFieldMerges(ty: Desc, first: Value, vs: seq<Value>, s: FieldState)
    requires WellFormed(ty) && MergeDefined(ty) && HasType(first, ty) && StateTyped(s, ty)
    requires s.Empty? || s.DefaultSet?
    requires forall i :: 0 <= i < |vs| ==> HasType(vs[i], ty)
    ensures PushAll(ty, s, Oks([first] + vs)) ==
      match MergeAll(ty, first, vs)
      case Some(v) => Found(v)
      case None => Failed
  {
    var all := Oks([first] + vs);
    assert all[1..] == Oks(vs);
    FoundMerges(ty, first, vs);
  }

  lemma {:induction false} FoundMerges(ty: Desc, acc: Value, vs: seq<Value>)
    requires WellFormed(ty) && MergeDefined(ty) && HasType(acc, ty)
    requires forall i :: 0 <= i < |vs| ==> HasType(vs[i], ty)
    ensures PushAll(ty, Found(acc), Oks(vs)) ==
      match MergeAll(ty, acc, vs)
      case Some(v) => Found(v)
      case None => Failed
    decreases |vs|
  {
    if |vs| > 0 {
      MergeKeepsType(ty, acc, vs[0]);
      var m := Merge(ty, acc, vs[0]);
      assert Oks(vs)[1..] == Oks(vs[1..]);
      if m.ok {
        FoundMerges(ty, m.value, vs[1..]);
      } else {
        FailedAbsorbs(ty, Oks(vs)[1..]);
      }
    }
  }

  /** Priority of get_value: a found value beats an attribute default, which beats the type default. */
  lemma ResolvePriority(ty: Desc, d: Value, v: Value)
    requires MergeDefined(ty) && HasType(d, ty) && HasType(v, ty)
    ensures Resolve(ty, Push(ty, DefaultSet(d), Ok(v)).0) == Ok(v)
    ensures Resolve(ty, DefaultSet(d)) == Ok(d)
    ensures Default(ty).Some? ==> Resolve(ty, Empty) == Ok(Default(ty).value)
  {
  }

  /** The field holder of one named field of a struct being parsed. */
  class ParseTmp {
    const name: string
    const ty: Desc
    var state: FieldState

    ghost predicate Valid()
      reads this
    {
      WellFormed(ty) && MergeDefined(ty) && StateTyped(state, ty)
    }

    /** new: nothing found yet and no default. */
    constructor (name: string, ty: Desc)
      requires WellFormed(ty) && MergeDefined(ty)
      ensures Valid()
      ensures this.name == name && this.ty == ty && state == Empty
    {
      this.name := name;
      this.ty := ty;
      state := Empty;
    }

    /** set_default: the field's default attribute. */
    method SetDefault(v: Value)
      requires Valid() && HasType(v, ty)
      modifies this
      ensures Valid() && state == DefaultSet(v)
    {
      state := DefaultSet(v);
    }

    method PushFound(rhs: Result<Value>) returns (r: Result<()>)
      requires Valid()
      requires rhs.Ok? ==> HasType(rhs.value, ty)
      modifies this
      ensures Valid()
      ensures (state, r) == Push(ty, old(state), rhs)
    {
      match rhs {
        case Err(Final) =>
          return Err(Final);
        case Err(Recoverable) =>
          state := Failed;
          return Ok(());
        case Ok(v) =>
          match state {
            case Empty =>
              state := Found(v);
            case DefaultSet(_) =>
              state := Found(v);
            case Failed =>
            case Found(x) =>
              MergeKeepsType(ty, x, v);
              var m := Merge(ty, x, v);
              if m.ok {
                state := Found(m.value);
              } else {
                state := Failed;
              }
          }
          return Ok(());
      }
    }

    method GetValue() returns (r: Result<Value>)
      requires Valid()
      ensures r == Resolve(ty, state)
      ensures r.Ok? ==> HasType(r.value, ty)
    {
      match state {
        case Found(x) => r := Ok(x);
        case DefaultSet(x) => r := Ok(x);
        case Empty =>
          var d := Default(ty);
          if d.Some? {
            r := Ok(d.value);
          } else {
            r := Err(Recoverable);
          }
        case Failed => r := Err(Recoverable);
      }
    }
  }

  /**
   * The unit tests of ParseTmp, replayed on the state machine: an unset plain
   * field is a recoverable error, an unset Option field is None, and a
   * default alone is the value.
   */
  method ParseTmpTests() returns (unset: Result<Value>, unsetOption: Result<Value>, defaulted: Result<Value>)
    ensures unset == Err(Recoverable)
    ensures unsetOption == Ok(NoneV)
    ensures defaulted == Ok(StrV("TestStr"))
  {
    var f := new ParseTmp("TestField", StringT);
    unset := f.GetValue();

    var g := new ParseTmp("TestField", OptionT(StringT));
    unsetOption := g.GetValue();

    var h := new ParseTmp("TestField", StringT);
    h.SetDefault(StrV("TestStr"));
    defaulted := h.GetValue();
  }
}

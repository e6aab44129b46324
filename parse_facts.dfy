/**
 * Properties of the composite parses that the Rust code and its tests
 * rely on, stated over the Parser functions.
 */
module ParseFacts {
  import opened Common
  import opened Scanner
  import opened Literals
  import opened Schema
  import opened FieldStates
  import opened Scalars
  import opened Parser

  /**
   * Enum variants are chosen by prefix in declaration order: a successful
   * enum parse is the first variant whose name starts the rest of the
   * line, and a text that no variant name starts is Final.
   */
  lemma EnumTakesFirstMatch(src: seq<Line>, c: Cursor, d: Desc)
    requires Inv(src, c) && d.EnumT? && WellFormed(d)
    ensures Rest(c).None? ==> EnumSpec(src, c, d) == Step(Err(Final), c)
    ensures Rest(c).Some? && MatchVariant(d.variants, Rest(c).value).None? ==>
      EnumSpec(src, c, d) == Step(Err(Final), c)
    ensures EnumSpec(src, c, d).Step? && EnumSpec(src, c, d).r.Ok? ==>
      Rest(c).Some? && MatchVariant(d.variants, Rest(c).value).Some? &&
      EnumSpec(src, c, d).r.value.EnumV? &&
      EnumSpec(src, c, d).r.value.variant == d.variants[MatchVariant(d.variants, Rest(c).value).value].name
  {
    var s := EnumSpec(src, c, d);
    if s.Step? && s.r.Ok? {
      var k := MatchVariant(d.variants, Rest(c).value).value;
      var c1 := Advance(src, c, |d.variants[k].name|).value;
      assert s == VariantSpec(src, c1, d, k);
    }
  }

  /**
   * The variant k, after EnumSpec consumed its name: a unit variant is
   * read as itself with no fields and consumes nothing more; a tuple or
   * struct variant reads its fields as OrderedSpec or NamedSpec does (so
   * OrderedReadsFields and NamedReadsFields say what it reads) and is
   * variant k with those values, or fails where and as they failed.
   */
  lemma VariantReadsFields(src: seq<Line>, c: Cursor, d: Desc, k: nat)
    requires Inv(src, c) && d.EnumT? && WellFormed(d) && k < |d.variants|
    ensures d.variants[k].shape.kind == UnitShape ==>
      VariantSpec(src, c, d, k) == Step(Ok(EnumV(d.variants[k].name, [])), c)
    ensures TypesWellFormed(d.variants[k].shape.fields)
    ensures d.variants[k].shape.kind == TupleShape ==>
      VariantSpec(src, c, d, k) == AsVariant(src, c, d.variants[k].name, OrderedSpec(src, c, d.variants[k].shape.fields))
    ensures d.variants[k].shape.kind == NamedShape ==>
      NamedWellFormed(d.variants[k].shape.fields) &&
      VariantSpec(src, c, d, k) == AsVariant(src, c, d.variants[k].name, NamedSpec(src, c, d.variants[k].shape.fields))
  {
    var v := d.variants[k];
    assert ShapeWellFormed(v.shape);
    ShapeFieldsWellFormed(v.shape);
  }

  /**
   * In the named field loop, a text that no field name starts is Final
   * where it stands, whatever the states hold (an unknown key such as
   * `k: 'C'`).
   */
  lemma UnknownKeyIsFinal(src: seq<Line>, c: Cursor, fs: seq<Field>, states: seq<FieldState>)
    requires Inv(src, c) && NamedWellFormed(fs) && StatesTyped(states, fs)
    requires Peek(c) != Some('}') && Rest(c).Some? && MatchField(fs, Rest(c).value).None?
    ensures NamedLoop(src, c, fs, states) == Step(Err(Final), c)
  {
    assert KeySpec(src, c, fs) == Step(Err(Final), c);
  }

  /**
   * An array parse is the vector parse, checked for length (ArraySpec is
   * CheckLength of VecSpec): the vector's errors come through unchanged,
   * a vector of another length is Recoverable after it was consumed, and
   * the elements keep their order.
   */
  lemma ArrayIsCheckedVector(src: seq<Line>, c: Cursor, v: Step<Value>, e: Desc, n: nat)
    requires Inv(src, c) && Progress(src, c, v)
    requires v.Step? && v.r.Ok? ==> HasType(v.r.value, VecT(e))
    ensures v.Step? && v.r.Err? ==> CheckLength(src, c, v, e, n) == v
    ensures v.Step? && v.r.Ok? && |v.r.value.items| != n ==>
      CheckLength(src, c, v, e, n) == Step(Err(Recoverable), v.c) && Unread(src, v.c) < Unread(src, c)
    ensures CheckLength(src, c, v, e, n).Step? && CheckLength(src, c, v, e, n).r.Ok? ==>
      v.Step? && v.r.Ok? && CheckLength(src, c, v, e, n) == Step(Ok(ArrayV(v.r.value.items)), v.c)
  {
  }

  // ---------------------------------------------------------------------
  // Reading composite values

  /** At the end of the input every parse is Final and consumes nothing. */
  lemma AtEndEveryParseIsFinal(src: seq<Line>, c: Cursor, d: Desc)
    ensures Inv(src, c) && WellFormed(d) && Rest(c).None? ==> ParseSpec(src, c, d) == Step(Err(Final), c)
  {
    if Inv(src, c) && WellFormed(d) && Rest(c).None? {
      match d
      case ArrayT(e, n) =>
        assert VecSpec(src, c, e) == Step(Err(Final), c);
      case _ =>
    }
  }

  /** "None" at the front of the line is read as the absent option, whatever follows it. */
  lemma OptionReadsNone(src: seq<Line>, c: Cursor, e: Desc, after: string)
    requires Inv(src, c) && WellFormed(e) && Rest(c) == Some("None" + after)
    ensures c.column + 4 <= |c.text|
    ensures OptionSpec(src, c, e) == Step(Ok(NoneV), Advance(src, c, 4).value)
  {
    assert StartsWith("None" + after, "None");
  }

  /**
   * "Some", '(' and then the inner parse, which ends at stop: if a ')'
   * follows, the option is Some of the inner value, or the inner error
   * after the ')'; without the ')' the parse is Final at stop, whatever
   * the inner parse gave.
   */
  lemma OptionReadsSome(src: seq<Line>, c: Cursor, e: Desc, after: string, inner: Cursor, r: Result<Value>, stop: Cursor)
    requires Inv(src, c) && WellFormed(e) && Rest(c) == Some("Some" + after)
    requires c.column + 4 <= |c.text| && AdvanceChar(src, Advance(src, c, 4).value, '(') == Some(inner)
    requires Inv(src, inner) && ParseSpec(src, inner, e) == Step(r, stop)
    requires stop.pos <= |src| && stop.column <= |stop.text|
    ensures AdvanceChar(src, stop, ')').None? ==> OptionSpec(src, c, e) == Step(Err(Final), stop)
    ensures AdvanceChar(src, stop, ')').Some? && r.Ok? ==>
      OptionSpec(src, c, e) == Step(Ok(SomeV(r.value)), AdvanceChar(src, stop, ')').value)
    ensures AdvanceChar(src, stop, ')').Some? && r.Err? ==>
      OptionSpec(src, c, e) == Step(Err(r.error), AdvanceChar(src, stop, ')').value)
  {
    var content := "Some" + after;
    assert !StartsWith(content, "None") by {
      assert content[0] == 'S';
    }
    assert StartsWith(content, "Some");
    var c1 := Advance(src, c, 4).value;
    assert OptionSpec(src, c, e) == SomeSpec(src, c1, e);
    assert SomeSpec(src, c1, e) == CloseSome(src, inner, Step(r, stop), e);
  }

  /**
   * The keyword errors of the Option parse: a text that starts with
   * neither "None" nor "Some" is Final where it starts, and "Some" without
   * '(' is Final after "Some".
   */
  lemma OptionNeedsKeyword(src: seq<Line>, c: Cursor, e: Desc)
    requires Inv(src, c) && WellFormed(e) && Rest(c).Some?
    ensures !StartsWith(Rest(c).value, "None") && !StartsWith(Rest(c).value, "Some") ==>
      OptionSpec(src, c, e) == Step(Err(Final), c)
    ensures !StartsWith(Rest(c).value, "None") && StartsWith(Rest(c).value, "Some") ==>
      c.column + 4 <= |c.text| &&
      (AdvanceChar(src, Advance(src, c, 4).value, '(').None? ==>
        OptionSpec(src, c, e) == Step(Err(Final), Advance(src, c, 4).value))
  {
  }

  /** Advancing onto a character that is not whitespace stops on it. */
  lemma AdvanceOnto(src: seq<Line>, c: Cursor, count: nat)
    requires c.pos <= |src| && c.column + count < |c.text| && !IsWhitespace(c.text[c.column + count])
    ensures Advance(src, c, count) == Some(c.(column := c.column + count))
  {
  }

  lemma SomeText(q: string, after: string)
    requires |q| > 0
    ensures var t := "Some(" + q + ")" + after;
      |t| == |q| + 6 + |after| && t[4] == '(' && t[5] == q[0] && t[5 + |q|] == ')' && t[5..] == q + (")" + after)
  {
    var t := "Some(" + q + ")" + after;
    assert t == "Some(" + (q + (")" + after));
  }

  /** Advancing in two steps on one line is advancing once by the sum. */
  lemma AdvanceShift(src: seq<Line>, c: Cursor, k: nat, m: nat)
    requires c.pos <= |src| && c.column + k <= |c.text|
    ensures Advance(src, c.(column := c.column + k), m) == Advance(src, c, k + m)
  {
    assert c.(column := c.column + k).(column := c.column + k + m) == c.(column := c.column + (k + m));
  }

  /** The cursors on the way through "Some(" q ")" when q starts with a non-blank character. */
  lemma SomeCursors(src: seq<Line>, c: Cursor, q: string, after: string)
    requires Inv(src, c) && |q| > 0 && !IsWhitespace(q[0])
    requires Rest(c) == Some("Some(" + q + ")" + after)
    ensures c.column + |q| + 6 <= |c.text| && c.column + 4 <= |c.text|
    ensures Advance(src, c, 4) == Some(c.(column := c.column + 4))
    ensures AdvanceChar(src, c.(column := c.column + 4), '(') == Some(c.(column := c.column + 5))
    ensures Inv(src, c.(column := c.column + 5)) && Rest(c.(column := c.column + 5)) == Some(q + (")" + after))
    ensures Advance(src, c.(column := c.column + 5), |q|) == Some(c.(column := c.column + 5 + |q|))
    ensures AdvanceChar(src, c.(column := c.column + 5 + |q|), ')') == Advance(src, c, 5 + |q| + 1)
  {
    var content := "Some(" + q + ")" + after;
    var col := c.column;
    SomeText(q, after);
    assert c.text[col..] == content;
    assert c.text[col + 4] == content[4];
    assert c.text[col + 5] == content[5];
    assert c.text[col + 5 + |q|] == content[5 + |q|];
    assert c.text[col + 5..] == content[5..];
    AdvanceOnto(src, c, 4);
    AdvanceShift(src, c, 4, 1);
    AdvanceOnto(src, c, 5);
    AdvanceShift(src, c, 5, |q|);
    AdvanceOnto(src, c, 5 + |q|);
    AdvanceShift(src, c, 5 + |q|, 1);
  }

  lemma SomeSplits(q: string, after: string)
    ensures "Some(" + q + ")" + after == "Some" + ("(" + q + ")" + after)
  {
    assert "Some(" == "Some" + "(";
  }

  /** Some("text") is read as Some of the quoted string. */
  lemma OptionReadsQuotedString(src: seq<Line>, c: Cursor, s: string, after: string)
    requires Inv(src, c) && Rest(c) == Some("Some(" + QuoteString(s) + ")" + after)
    ensures c.column + |QuoteString(s)| + 6 <= |c.text|
    ensures OptionSpec(src, c, StringT) == Step(Ok(SomeV(StrV(s))), Advance(src, c, |QuoteString(s)| + 6).value)
  {
    var q := QuoteString(s);
    assert q[0] == '"';
    SomeCursors(src, c, q, after);
    var inner := c.(column := c.column + 5);
    StringSpecReadsQuoted(src, inner, s, ")" + after);
    SomeSplits(q, after);
    OptionReadsSome(src, c, StringT, "(" + q + ")" + after, inner, Ok(StrV(s)), c.(column := c.column + 5 + |q|));
  }

  /** A parse of a t that starts at start reads v and ends at end. */
  ghost predicate ReadsAt(src: seq<Line>, t: Desc, start: Cursor, v: Value, end: Cursor)
  {
    Inv(src, start) && WellFormed(t) && ParseSpec(src, start, t) == Step(Ok(v), end)
  }

  /** A parse that reads a value does not start at the end of the input. */
  lemma ReadIsNotAtEnd(src: seq<Line>, t: Desc, start: Cursor, v: Value, end: Cursor)
    ensures ReadsAt(src, t, start, v, end) ==> Rest(start).Some?
  {
    AtEndEveryParseIsFinal(src, start, t);
  }

  /**
   * The elements vs are read one after the other as values of e: the
   * parse of element i starts at starts[i] and ends at ends[i], and a ','
   * leads from each end to the next start.
   */
  ghost predicate ElementsRead(src: seq<Line>, e: Desc, starts: seq<Cursor>, vs: seq<Value>, ends: seq<Cursor>)
  {
    WellFormed(e) && |starts| == |vs| && |ends| == |vs| &&
    (forall i {:trigger ReadsAt(src, e, starts[i], vs[i], ends[i])} ::
      0 <= i < |vs| ==> ReadsAt(src, e, starts[i], vs[i], ends[i])) &&
    (forall i :: 0 <= i < |vs| ==> Inv(src, starts[i]) && Inv(src, ends[i])) &&
    (forall i :: 0 <= i < |vs| - 1 ==> AdvanceChar(src, ends[i], ',') == Some(starts[i + 1]))
  }

  /** What reading the elements leaves behind: resting cursors and values of the element type. */
  lemma ElementsReadFacts(src: seq<Line>, e: Desc, starts: seq<Cursor>, vs: seq<Value>, ends: seq<Cursor>)
    ensures ElementsRead(src, e, starts, vs, ends) ==>
      forall k :: 0 <= k < |vs| ==> Inv(src, ends[k]) && HasType(vs[k], e)
  {
    if ElementsRead(src, e, starts, vs, ends) {
      forall k | 0 <= k < |vs|
        ensures Inv(src, ends[k]) && HasType(vs[k], e)
      {
        assert ReadsAt(src, e, starts[k], vs[k], ends[k]);
      }
    }
  }

  /**
   * One turn of the vector loop, after the elements vs[..i], over an
   * element that is read as vs[i]: the loop goes on after it with vs[i]
   * added.  (Here and below the hypotheses sit in the conclusion, so that
   * callers that hold them need not unfold them again.)
   */
  lemma VecTurnReads(src: seq<Line>, c: Cursor, e: Desc, vs: seq<Value>, i: nat, first: bool, start: Cursor, stop: Cursor)
    requires i < |vs|
    ensures (Inv(src, c) && WellFormed(e) && (forall k :: 0 <= k < |vs| ==> HasType(vs[k], e)) &&
      Rest(c).Some? && Peek(c) != Some(']') && Separator(src, c, first) == Some(start) &&
      ReadsAt(src, e, start, vs[i], stop)) ==>
      Inv(src, stop) && VecLoop(src, c, e, vs[..i], first) == VecLoop(src, stop, e, vs[..i + 1], false)
  {
    VecTurnElement(src, c, e, vs[..i], first, start);
    VecElementReads(src, e, vs, i, start, stop);
  }

  /** A turn of the vector loop that meets neither the end of the input nor ']' goes on to an element. */
  lemma VecTurnElement(src: seq<Line>, c: Cursor, e: Desc, acc: seq<Value>, first: bool, start: Cursor)
    ensures (Inv(src, c) && WellFormed(e) && (forall k :: 0 <= k < |acc| ==> HasType(acc[k], e)) &&
      Rest(c).Some? && Peek(c) != Some(']') && Separator(src, c, first) == Some(start)) ==>
      VecLoop(src, c, e, acc, first) == VecElement(src, start, e, acc)
  {
  }

  /** An element read as vs[i] after the elements vs[..i] is added, and the loop goes on after it. */
  lemma VecElementReads(src: seq<Line>, e: Desc, vs: seq<Value>, i: nat, start: Cursor, stop: Cursor)
    requires i < |vs|
    ensures (WellFormed(e) && (forall k :: 0 <= k < |vs| ==> HasType(vs[k], e)) && ReadsAt(src, e, start, vs[i], stop)) ==>
      Inv(src, stop) && VecElement(src, start, e, vs[..i]) == VecLoop(src, stop, e, vs[..i + 1], false)
  {
    assert vs[..i] + [vs[i]] == vs[..i + 1];
  }

  /** One turn of the vector loop over an element whose parse fails: the vector fails with it. */
  lemma VecTurnFails(src: seq<Line>, c: Cursor, e: Desc, acc: seq<Value>, first: bool, start: Cursor, x: ParseError, stop: Cursor)
    ensures (Inv(src, c) && WellFormed(e) && (forall k :: 0 <= k < |acc| ==> HasType(acc[k], e)) &&
      Rest(c).Some? && Peek(c) != Some(']') && Separator(src, c, first) == Some(start) &&
      Inv(src, start) && ParseSpec(src, start, e) == Step(Err(x), stop)) ==>
      VecLoop(src, c, e, acc, first) == Step(Err(x), stop)
  {
    VecTurnElement(src, c, e, acc, first, start);
  }

  /** From the end of element j to the end of element j + 1. */
  lemma VecStepFrom(src: seq<Line>, e: Desc, starts: seq<Cursor>, vs: seq<Value>, ends: seq<Cursor>, j: nat)
    requires j + 1 < |vs|
    ensures (ElementsRead(src, e, starts, vs, ends) &&
      (forall k :: 0 <= k < |vs| ==> Inv(src, ends[k]) && HasType(vs[k], e))) ==>
      VecLoop(src, ends[j], e, vs[..j + 1], false) == VecLoop(src, ends[j + 1], e, vs[..j + 1 + 1], false)
  {
    if ElementsRead(src, e, starts, vs, ends) &&
      (forall k :: 0 <= k < |vs| ==> Inv(src, ends[k]) && HasType(vs[k], e))
    {
      assert Inv(src, ends[j]) && AdvanceChar(src, ends[j], ',') == Some(starts[j + 1]);
      assert ReadsAt(src, e, starts[j + 1], vs[j + 1], ends[j + 1]);
      VecTurnReads(src, ends[j], e, vs, j + 1, false, starts[j + 1], ends[j + 1]);
    }
  }

  /** Once elements 0..i are read, the vector loop goes on exactly as after all of them. */
  lemma {:induction false} VecLoopThrough(src: seq<Line>, e: Desc, starts: seq<Cursor>, vs: seq<Value>, ends: seq<Cursor>, i: nat)
    requires i < |vs|
    ensures (ElementsRead(src, e, starts, vs, ends) &&
      (forall k :: 0 <= k < |vs| ==> Inv(src, ends[k]) && HasType(vs[k], e))) ==>
      VecLoop(src, ends[i], e, vs[..i + 1], false) == VecLoop(src, ends[|vs| - 1], e, vs, false)
    decreases |vs| - i
  {
    if ElementsRead(src, e, starts, vs, ends) &&
      (forall k :: 0 <= k < |vs| ==> Inv(src, ends[k]) && HasType(vs[k], e))
    {
      if i < |vs| - 1 {
        VecStepFrom(src, e, starts, vs, ends, i);
        VecLoopThrough(src, e, starts, vs, ends, i + 1);
      } else {
        assert vs[..i + 1] == vs;
      }
    }
  }

  /** The vector parse goes from '[' into the loop, with no element read yet. */
  lemma VecOpens(src: seq<Line>, c: Cursor, e: Desc, vs: seq<Value>, start: Cursor)
    ensures (Inv(src, c) && WellFormed(e) && AdvanceChar(src, c, '[') == Some(start)) ==>
      VecSpec(src, c, e) == VecLoop(src, start, e, vs[..0], true)
  {
    assert vs[..0] == [];
  }

  /** '[' and an element that is read: the vector loop goes on after it, with that element. */
  lemma VecFirstElement(src: seq<Line>, c: Cursor, e: Desc, start: Cursor, v: Value, stop: Cursor)
    ensures (Inv(src, c) && WellFormed(e) && AdvanceChar(src, c, '[') == Some(start) && Peek(start) != Some(']') &&
      ReadsAt(src, e, start, v, stop)) ==>
      VecSpec(src, c, e) == VecLoop(src, stop, e, [v], false)
  {
    if Inv(src, c) && WellFormed(e) && AdvanceChar(src, c, '[') == Some(start) && Peek(start) != Some(']') &&
      ReadsAt(src, e, start, v, stop)
    {
      ReadIsNotAtEnd(src, e, start, v, stop);
      assert VecSpec(src, c, e) == VecLoop(src, start, e, [], true);
      assert [] + [v] == [v];
    }
  }

  /** The vector parse from '[' up to the end of element 0, which is read as vs[0]. */
  lemma VecFirstTurn(src: seq<Line>, c: Cursor, e: Desc, starts: seq<Cursor>, vs: seq<Value>, ends: seq<Cursor>)
    ensures (Inv(src, c) && ElementsRead(src, e, starts, vs, ends) && 0 < |vs| &&
      AdvanceChar(src, c, '[') == Some(starts[0]) && Peek(starts[0]) != Some(']') &&
      (forall k :: 0 <= k < |vs| ==> Inv(src, ends[k]) && HasType(vs[k], e))) ==>
      VecSpec(src, c, e) == VecLoop(src, ends[0], e, vs[..0 + 1], false)
  {
    if Inv(src, c) && ElementsRead(src, e, starts, vs, ends) && 0 < |vs| &&
      AdvanceChar(src, c, '[') == Some(starts[0]) && Peek(starts[0]) != Some(']') &&
      (forall k :: 0 <= k < |vs| ==> Inv(src, ends[k]) && HasType(vs[k], e))
    {
      assert ReadsAt(src, e, starts[0], vs[0], ends[0]);
      VecFirstElement(src, c, e, starts[0], vs[0], ends[0]);
      assert vs[..0 + 1] == [vs[0]];
    }
  }

  /** The vector parse up to the end of the last of the elements vs, which are read. */
  lemma VecFromOpen(src: seq<Line>, c: Cursor, e: Desc, starts: seq<Cursor>, vs: seq<Value>, ends: seq<Cursor>)
    ensures (Inv(src, c) && ElementsRead(src, e, starts, vs, ends) && 0 < |vs| &&
      AdvanceChar(src, c, '[') == Some(starts[0]) && Peek(starts[0]) != Some(']')) ==>
      (forall k :: 0 <= k < |vs| ==> Inv(src, ends[k]) && HasType(vs[k], e)) &&
      VecSpec(src, c, e) == VecLoop(src, ends[|vs| - 1], e, vs, false)
  {
    ElementsReadFacts(src, e, starts, vs, ends);
    VecFirstTurn(src, c, e, starts, vs, ends);
    if 0 < |vs| {
      VecLoopThrough(src, e, starts, vs, ends, 0);
    }
  }

  /** Where the last element read ends: after the opening character when there is none. */
  function LastEnd(src: seq<Line>, c: Cursor, open: char, ends: seq<Cursor>): Cursor
    requires c.pos <= |src| && c.column <= |c.text| && Peek(c) == Some(open)
  {
    if |ends| == 0 then AdvanceChar(src, c, open).value else ends[|ends| - 1]
  }

  /** Where the next element starts, after the opening character or after the ',' that follows the last one. */
  function NextStart(src: seq<Line>, c: Cursor, open: char, ends: seq<Cursor>): Option<Cursor>
    requires c.pos <= |src| && c.column <= |c.text| && Peek(c) == Some(open)
    requires forall i :: 0 <= i < |ends| ==> ends[i].pos <= |src| && ends[i].column <= |ends[i].text|
  {
    if |ends| == 0 then AdvanceChar(src, c, open) else AdvanceChar(src, ends[|ends| - 1], ',')
  }

  /**
   * '[', the elements vs separated by ',', and ']' are read as the vector
   * of those elements, in order; the ']' is consumed.
   */
  lemma VecReadsElements(src: seq<Line>, c: Cursor, e: Desc, starts: seq<Cursor>, vs: seq<Value>, ends: seq<Cursor>)
    requires Inv(src, c) && WellFormed(e) && Peek(c) == Some('[')
    requires ElementsRead(src, e, starts, vs, ends)
    requires |vs| > 0 ==> AdvanceChar(src, c, '[') == Some(starts[0]) && Peek(starts[0]) != Some(']')
    requires Peek(LastEnd(src, c, '[', ends)) == Some(']')
    ensures Inv(src, LastEnd(src, c, '[', ends))
    ensures VecSpec(src, c, e) == Step(Ok(VecV(vs)), AdvanceChar(src, LastEnd(src, c, '[', ends), ']').value)
  {
    if |vs| == 0 {
      assert VecSpec(src, c, e) == VecLoop(src, AdvanceChar(src, c, '[').value, e, [], true);
    } else {
      VecFromOpen(src, c, e, starts, vs, ends);
    }
  }

  /** A vector must open with '[': otherwise the parse is Final and consumes nothing. */
  lemma VecNeedsOpen(src: seq<Line>, c: Cursor, e: Desc)
    requires Inv(src, c) && WellFormed(e) && Peek(c) != Some('[')
    ensures VecSpec(src, c, e) == Step(Err(Final), c)
  {
  }

  /**
   * After the elements vs, neither ']' nor ',' (another character, or
   * the end of the input) makes the vector parse Final where the last
   * element ended.
   */
  lemma VecNeedsComma(src: seq<Line>, c: Cursor, e: Desc, starts: seq<Cursor>, vs: seq<Value>, ends: seq<Cursor>)
    requires Inv(src, c) && WellFormed(e) && Peek(c) == Some('[')
    requires ElementsRead(src, e, starts, vs, ends) && |vs| > 0
    requires AdvanceChar(src, c, '[') == Some(starts[0]) && Peek(starts[0]) != Some(']')
    requires Peek(LastEnd(src, c, '[', ends)) != Some(']') && NextStart(src, c, '[', ends).None?
    ensures VecSpec(src, c, e) == Step(Err(Final), LastEnd(src, c, '[', ends))
  {
    VecFromOpen(src, c, e, starts, vs, ends);
  }

  /**
   * After the elements vs, an element whose parse fails ends the vector
   * parse with that element's error, where that element's parse stopped.
   */
  lemma VecElementFails(src: seq<Line>, c: Cursor, e: Desc, starts: seq<Cursor>, vs: seq<Value>, ends: seq<Cursor>, bad: Cursor, x: ParseError, stop: Cursor)
    requires Inv(src, c) && WellFormed(e) && Peek(c) == Some('[')
    requires ElementsRead(src, e, starts, vs, ends)
    requires |vs| > 0 ==> AdvanceChar(src, c, '[') == Some(starts[0]) && Peek(starts[0]) != Some(']')
    requires NextStart(src, c, '[', ends) == Some(bad) && Inv(src, bad) && Peek(bad) != Some(']')
    requires ParseSpec(src, bad, e) == Step(Err(x), stop)
    ensures VecSpec(src, c, e) == Step(Err(x), stop)
  {
    AtEndEveryParseIsFinal(src, bad, e);
    if |vs| == 0 {
      if Rest(bad).None? {
        assert VecSpec(src, c, e) == VecLoop(src, bad, e, [], true);
      } else {
        VecTurnFails(src, bad, e, [], true, bad, x, stop);
      }
    } else {
      VecFromOpen(src, c, e, starts, vs, ends);
      VecTurnFails(src, ends[|vs| - 1], e, vs, false, bad, x, stop);
    }
  }

  /**
   * The values vs of the first |vs| fields of fs are read one after the
   * other, each as its field's type: the parse of field i starts at
   * starts[i] and ends at ends[i], and a ',' leads from each end to the
   * next start.
   */
  ghost predicate FieldsRead(src: seq<Line>, fs: seq<Field>, starts: seq<Cursor>, vs: seq<Value>, ends: seq<Cursor>)
  {
    TypesWellFormed(fs) && |starts| == |vs| && |ends| == |vs| && |vs| <= |fs| &&
    (forall i {:trigger ReadsAt(src, fs[i].ty, starts[i], vs[i], ends[i])} ::
      0 <= i < |vs| ==> ReadsAt(src, fs[i].ty, starts[i], vs[i], ends[i])) &&
    (forall i :: 0 <= i < |vs| ==> Inv(src, starts[i]) && Inv(src, ends[i])) &&
    (forall i :: 0 <= i < |vs| - 1 ==> AdvanceChar(src, ends[i], ',') == Some(starts[i + 1]))
  }

  /** Each field read so far ends on a resting cursor with a value of its field's type. */
  ghost predicate FieldsTyped(src: seq<Line>, fs: seq<Field>, vs: seq<Value>, ends: seq<Cursor>)
  {
    |ends| == |vs| <= |fs| && forall k :: 0 <= k < |vs| ==> Inv(src, ends[k]) && HasType(vs[k], fs[k].ty)
  }

  /** What reading the fields leaves behind: resting cursors and values of the fields' types. */
  lemma FieldsReadFacts(src: seq<Line>, fs: seq<Field>, starts: seq<Cursor>, vs: seq<Value>, ends: seq<Cursor>)
    ensures FieldsRead(src, fs, starts, vs, ends) ==> FieldsTyped(src, fs, vs, ends)
  {
    if FieldsRead(src, fs, starts, vs, ends) {
      forall k | 0 <= k < |vs|
        ensures Inv(src, ends[k]) && HasType(vs[k], fs[k].ty)
      {
        assert ReadsAt(src, fs[k].ty, starts[k], vs[k], ends[k]);
      }
    }
  }

  /** Field |vs|, read after the ',' that follows the fields read so far, extends them. */
  lemma FieldsReadExtend(src: seq<Line>, fs: seq<Field>, starts: seq<Cursor>, vs: seq<Value>, ends: seq<Cursor>,
                         start: Cursor, v: Value, stop: Cursor)
    requires |vs| < |fs| && |ends| == |vs|
    ensures (FieldsRead(src, fs, starts, vs, ends) && ReadsAt(src, fs[|vs|].ty, start, v, stop) &&
             (|vs| > 0 ==> AdvanceChar(src, ends[|vs| - 1], ',') == Some(start))) ==>
      FieldsRead(src, fs, starts + [start], vs + [v], ends + [stop])
  {
    if FieldsRead(src, fs, starts, vs, ends) && ReadsAt(src, fs[|vs|].ty, start, v, stop) &&
       (|vs| > 0 ==> AdvanceChar(src, ends[|vs| - 1], ',') == Some(start)) {
      ExtendedReads(src, fs, starts, vs, ends, start, v, stop);
      ExtendedCommas(src, starts, vs, ends, start, v, stop);
    }
  }

  /** The reads of the fields so far, and of field |vs|, are the reads of the extended sequences. */
  lemma ExtendedReads(src: seq<Line>, fs: seq<Field>, starts: seq<Cursor>, vs: seq<Value>, ends: seq<Cursor>,
                      start: Cursor, v: Value, stop: Cursor)
    requires |vs| < |fs| && FieldsRead(src, fs, starts, vs, ends) && ReadsAt(src, fs[|vs|].ty, start, v, stop)
    ensures forall i :: 0 <= i < |vs| + 1 ==>
      ReadsAt(src, fs[i].ty, (starts + [start])[i], (vs + [v])[i], (ends + [stop])[i]) &&
      Inv(src, (starts + [start])[i]) && Inv(src, (ends + [stop])[i])
  {
    forall i | 0 <= i < |vs| + 1
      ensures ReadsAt(src, fs[i].ty, (starts + [start])[i], (vs + [v])[i], (ends + [stop])[i])
      ensures Inv(src, (starts + [start])[i]) && Inv(src, (ends + [stop])[i])
    {
      if i < |vs| {
        assert (starts + [start])[i] == starts[i] && (vs + [v])[i] == vs[i] && (ends + [stop])[i] == ends[i];
        assert ReadsAt(src, fs[i].ty, starts[i], vs[i], ends[i]);
      }
    }
  }

  /** The ',' links of the fields so far, and the one before field |vs|, are the links of the extended sequences. */
  lemma ExtendedCommas(src: seq<Line>, starts: seq<Cursor>, vs: seq<Value>, ends: seq<Cursor>,
                       start: Cursor, v: Value, stop: Cursor)
    requires |starts| == |vs| && |ends| == |vs|
    requires forall i :: 0 <= i < |vs| ==> ends[i].pos <= |src| && ends[i].column <= |ends[i].text|
    requires forall i :: 0 <= i < |vs| - 1 ==> AdvanceChar(src, ends[i], ',') == Some(starts[i + 1])
    requires |vs| > 0 ==> AdvanceChar(src, ends[|vs| - 1], ',') == Some(start)
    ensures forall i :: 0 <= i < |vs| + 1 - 1 ==>
      AdvanceChar(src, (ends + [stop])[i], ',') == Some((starts + [start])[i + 1])
  {
    forall i | 0 <= i < |vs|
      ensures AdvanceChar(src, (ends + [stop])[i], ',') == Some((starts + [start])[i + 1])
    {
      assert (ends + [stop])[i] == ends[i];
      if i < |vs| - 1 {
        assert (starts + [start])[i + 1] == starts[i + 1];
      }
    }
  }

  /**
   * One turn of the positional field loop, after the values vs[..i], over
   * field i, which is read as vs[i]: the loop goes on after it with vs[i]
   * added.
   */
  lemma OrderedTurnReads(src: seq<Line>, c: Cursor, fs: seq<Field>, vs: seq<Value>, i: nat, start: Cursor, stop: Cursor)
    requires i < |vs| <= |fs|
    ensures (Inv(src, c) && TypesWellFormed(fs) && (forall k :: 0 <= k < |vs| ==> HasType(vs[k], fs[k].ty)) &&
      Separator(src, c, i == 0) == Some(start) &&
      ReadsAt(src, fs[i].ty, start, vs[i], stop)) ==>
      Inv(src, stop) && OrderedFields(src, c, fs, i, vs[..i]) == OrderedFields(src, stop, fs, i + 1, vs[..i + 1])
  {
    FieldSmaller(fs, i);
    assert vs[..i] + [vs[i]] == vs[..i + 1];
  }

  /** One turn of the positional field loop over field i, whose parse fails: the fields fail with it. */
  lemma OrderedTurnFails(src: seq<Line>, c: Cursor, fs: seq<Field>, i: nat, acc: seq<Value>, start: Cursor, x: ParseError, stop: Cursor)
    requires i < |fs|
    ensures (Inv(src, c) && TypesWellFormed(fs) &&
      |acc| == i && (forall k :: 0 <= k < i ==> HasType(acc[k], fs[k].ty)) &&
      Separator(src, c, i == 0) == Some(start) &&
      Inv(src, start) && ParseSpec(src, start, fs[i].ty) == Step(Err(x), stop)) ==>
      OrderedFields(src, c, fs, i, acc) == Step(Err(x), stop)
  {
    FieldSmaller(fs, i);
    if Inv(src, c) && TypesWellFormed(fs) &&
      |acc| == i && (forall k :: 0 <= k < i ==> HasType(acc[k], fs[k].ty)) &&
      Separator(src, c, i == 0) == Some(start) && Inv(src, start)
    {
      assert OrderedFields(src, c, fs, i, acc) == OrderedField(src, start, fs, i, acc);
    }
  }

  /** From the end of field j to the end of field j + 1. */
  lemma OrderedStepFrom(src: seq<Line>, fs: seq<Field>, starts: seq<Cursor>, vs: seq<Value>, ends: seq<Cursor>, j: nat)
    requires j + 1 < |vs|
    ensures (FieldsRead(src, fs, starts, vs, ends) &&
      (forall k :: 0 <= k < |vs| ==> Inv(src, ends[k]) && HasType(vs[k], fs[k].ty))) ==>
      OrderedFields(src, ends[j], fs, j + 1, vs[..j + 1]) == OrderedFields(src, ends[j + 1], fs, j + 1 + 1, vs[..j + 1 + 1])
  {
    if FieldsRead(src, fs, starts, vs, ends) &&
      (forall k :: 0 <= k < |vs| ==> Inv(src, ends[k]) && HasType(vs[k], fs[k].ty))
    {
      assert Inv(src, ends[j]) && AdvanceChar(src, ends[j], ',') == Some(starts[j + 1]);
      assert ReadsAt(src, fs[j + 1].ty, starts[j + 1], vs[j + 1], ends[j + 1]);
      OrderedTurnReads(src, ends[j], fs, vs, j + 1, starts[j + 1], ends[j + 1]);
    }
  }

  /** Once fields 0..i are read, the field loop goes on exactly as after all the read ones. */
  lemma {:induction false} OrderedFieldsThrough(src: seq<Line>, fs: seq<Field>, starts: seq<Cursor>, vs: seq<Value>, ends: seq<Cursor>, i: nat)
    requires i < |vs|
    ensures (FieldsRead(src, fs, starts, vs, ends) &&
      FieldsTyped(src, fs, vs, ends)) ==>
      OrderedFields(src, ends[i], fs, i + 1, vs[..i + 1]) == OrderedFields(src, ends[|vs| - 1], fs, |vs|, vs)
    decreases |vs| - i
  {
    if FieldsRead(src, fs, starts, vs, ends) &&
      FieldsTyped(src, fs, vs, ends)
    {
      if i < |vs| - 1 {
        OrderedStepFrom(src, fs, starts, vs, ends, i);
        OrderedFieldsThrough(src, fs, starts, vs, ends, i + 1);
      } else {
        assert vs[..i + 1] == vs;
      }
    }
  }

  /** The positional field loop from its start up to the end of field 0, which is read as vs[0]. */
  lemma OrderedFirstTurn(src: seq<Line>, fs: seq<Field>, starts: seq<Cursor>, vs: seq<Value>, ends: seq<Cursor>)
    ensures (FieldsRead(src, fs, starts, vs, ends) && 0 < |vs| &&
      FieldsTyped(src, fs, vs, ends)) ==>
      OrderedFields(src, starts[0], fs, 0, []) == OrderedFields(src, ends[0], fs, 0 + 1, vs[..0 + 1])
  {
    if FieldsRead(src, fs, starts, vs, ends) && 0 < |vs| &&
      FieldsTyped(src, fs, vs, ends)
    {
      assert ReadsAt(src, fs[0].ty, starts[0], vs[0], ends[0]);
      assert vs[..0] == [];
      OrderedTurnReads(src, starts[0], fs, vs, 0, starts[0], ends[0]);
    }
  }

  /** The positional field loop from its start up to the end of the last of the fields vs, which are read. */
  lemma OrderedFromOpen(src: seq<Line>, fs: seq<Field>, starts: seq<Cursor>, vs: seq<Value>, ends: seq<Cursor>)
    ensures (FieldsRead(src, fs, starts, vs, ends) && 0 < |vs|) ==>
      (forall k :: 0 <= k < |vs| ==> Inv(src, ends[k]) && HasType(vs[k], fs[k].ty)) &&
      OrderedFields(src, starts[0], fs, 0, []) == OrderedFields(src, ends[|vs| - 1], fs, |vs|, vs)
  {
    if FieldsRead(src, fs, starts, vs, ends) && 0 < |vs| {
      FieldsReadFacts(src, fs, starts, vs, ends);
      OrderedFirstTurn(src, fs, starts, vs, ends);
      OrderedFieldsThrough(src, fs, starts, vs, ends, 0);
      var mid := OrderedFields(src, ends[0], fs, 0 + 1, vs[..0 + 1]);
      assert OrderedFields(src, starts[0], fs, 0, []) == mid;
      assert mid == OrderedFields(src, ends[|vs| - 1], fs, |vs|, vs);
    }
  }

  /**
   * '(', the fields' values separated by ',', and ')' are read as those
   * values, in declaration order; the ')' is consumed.
   */
  lemma OrderedReadsFields(src: seq<Line>, c: Cursor, fs: seq<Field>, starts: seq<Cursor>, vs: seq<Value>, ends: seq<Cursor>)
    requires Inv(src, c) && TypesWellFormed(fs) && Peek(c) == Some('(')
    requires |vs| == |fs| && FieldsRead(src, fs, starts, vs, ends)
    requires |vs| > 0 ==> AdvanceChar(src, c, '(') == Some(starts[0])
    requires Peek(LastEnd(src, c, '(', ends)) == Some(')')
    ensures Inv(src, LastEnd(src, c, '(', ends))
    ensures OrderedSpec(src, c, fs) == Step(Ok(vs), AdvanceChar(src, LastEnd(src, c, '(', ends), ')').value)
  {
    OrderedFromOpen(src, fs, starts, vs, ends);
  }

  /**
   * After the fields vs, a field whose parse fails ends the positional
   * parse with that field's error, where that field's parse stopped.
   */
  lemma OrderedFieldFails(src: seq<Line>, c: Cursor, fs: seq<Field>, starts: seq<Cursor>, vs: seq<Value>, ends: seq<Cursor>, bad: Cursor, x: ParseError, stop: Cursor)
    requires Inv(src, c) && TypesWellFormed(fs) && Peek(c) == Some('(')
    requires |vs| < |fs| && FieldsRead(src, fs, starts, vs, ends)
    requires |vs| > 0 ==> AdvanceChar(src, c, '(') == Some(starts[0])
    requires NextStart(src, c, '(', ends) == Some(bad) && Inv(src, bad)
    requires ParseSpec(src, bad, fs[|vs|].ty) == Step(Err(x), stop)
    ensures OrderedSpec(src, c, fs) == Step(Err(x), stop)
  {
    OrderedFromOpen(src, fs, starts, vs, ends);
    if |vs| == 0 {
      OrderedTurnFails(src, bad, fs, 0, [], bad, x, stop);
    } else {
      OrderedTurnFails(src, ends[|vs| - 1], fs, |vs|, vs, bad, x, stop);
    }
  }

  // ---------------------------------------------------------------------
  // Reading named fields

  /** For each pair, the named field it fills, and the outcome is a value of that field's type. */
  predicate PairsTyped(fs: seq<Field>, ids: seq<nat>, rs: seq<Result<Value>>)
  {
    |ids| == |rs| && forall i :: 0 <= i < |rs| ==> ids[i] < |fs| && (rs[i].Ok? ==> HasType(rs[i].value, fs[ids[i]].ty))
  }

  /**
   * The field states after push_found of each outcome rs[i] into the
   * state of field ids[i], in the order the pairs come.
   */
  function PushPairs(fs: seq<Field>, states: seq<FieldState>, ids: seq<nat>, rs: seq<Result<Value>>): (r: seq<FieldState>)
    requires NamedWellFormed(fs) && StatesTyped(states, fs) && PairsTyped(fs, ids, rs)
    ensures StatesTyped(r, fs)
    decreases |rs|
  {
    if |rs| == 0 then states
    else
      var j := ids[0];
      assert FieldWellFormed(fs[j], NamedShape);
      PushPairs(fs, states[j := Push(fs[j].ty, states[j], rs[0]).0], ids[1..], rs[1..])
  }

  /** The outcomes of the pairs that name field j, in order. */
  function FieldOutcomes(fs: seq<Field>, j: nat, ids: seq<nat>, rs: seq<Result<Value>>): (r: seq<Result<Value>>)
    requires j < |fs| && PairsTyped(fs, ids, rs)
    ensures forall k :: 0 <= k < |r| ==> r[k].Ok? ==> HasType(r[k].value, fs[j].ty)
    ensures (forall i :: 0 <= i < |rs| ==> rs[i] != Err(Final)) ==> forall k :: 0 <= k < |r| ==> r[k] != Err(Final)
    ensures (forall i :: 0 <= i < |ids| ==> ids[i] != j) ==> r == []
    decreases |rs|
  {
    if |rs| == 0 then []
    else (if ids[0] == j then [rs[0]] else []) + FieldOutcomes(fs, j, ids[1..], rs[1..])
  }

  /**
   * Pushing the pairs field by field: each field ends up as its own
   * state after the outcomes given for it, in the order given, whatever
   * the pairs for the other fields, and a field that no pair names keeps
   * its state.  With RepeatedFieldMerges, a repeated key holds the merge
   * of its values; with ResolvePriority, an unnamed field keeps its
   * default.
   */
  lemma {:induction false} PairsPushedPerField(fs: seq<Field>, states: seq<FieldState>, ids: seq<nat>, rs: seq<Result<Value>>, j: nat)
    requires NamedWellFormed(fs) && StatesTyped(states, fs) && PairsTyped(fs, ids, rs) && j < |fs|
    requires forall i :: 0 <= i < |rs| ==> rs[i] != Err(Final)
    ensures FieldWellFormed(fs[j], NamedShape)
    ensures PushPairs(fs, states, ids, rs)[j] == PushAll(fs[j].ty, states[j], FieldOutcomes(fs, j, ids, rs))
    ensures (forall i :: 0 <= i < |ids| ==> ids[i] != j) ==> PushPairs(fs, states, ids, rs)[j] == states[j]
    decreases |rs|
  {
    assert FieldWellFormed(fs[j], NamedShape);
    if |rs| > 0 {
      var j0 := ids[0];
      assert FieldWellFormed(fs[j0], NamedShape);
      var next := states[j0 := Push(fs[j0].ty, states[j0], rs[0]).0];
      PairsPushedPerField(fs, next, ids[1..], rs[1..], j);
      var tail := FieldOutcomes(fs, j, ids[1..], rs[1..]);
      if j0 == j {
        assert FieldOutcomes(fs, j, ids, rs) == [rs[0]] + tail;
        assert ([rs[0]] + tail)[0] == rs[0] && ([rs[0]] + tail)[1..] == tail;
      } else {
        assert FieldOutcomes(fs, j, ids, rs) == tail;
      }
    }
  }

  /**
   * One pair of the named field loop: the loop stands at key, which is
   * not '}'; the key names field j, and the value parse of that field's
   * type after the ':' gives r (a value, or a Recoverable error, which
   * fails the field) and stops at end.
   */
  ghost predicate PairAt(src: seq<Line>, fs: seq<Field>, key: Cursor, j: nat, r: Result<Value>, end: Cursor)
  {
    NamedWellFormed(fs) && Inv(src, key) && Peek(key) != Some('}') && j < |fs| &&
    KeySpec(src, key, fs).r == Ok(j) &&
    ParseSpec(src, KeySpec(src, key, fs).c, fs[j].ty) == Step(r, end) && r != Err(Final)
  }

  /**
   * The pairs read one after the other by the named field loop: pair i
   * starts at keys[i] and its value parse ends at ends[i], and the next
   * pair starts after the ',' that may follow.
   */
  ghost predicate PairsRead(src: seq<Line>, fs: seq<Field>, keys: seq<Cursor>, ids: seq<nat>, rs: seq<Result<Value>>, ends: seq<Cursor>)
  {
    NamedWellFormed(fs) && |keys| == |rs| && |ends| == |rs| && PairsTyped(fs, ids, rs) &&
    (forall i {:trigger PairAt(src, fs, keys[i], ids[i], rs[i], ends[i])} ::
      0 <= i < |rs| ==> PairAt(src, fs, keys[i], ids[i], rs[i], ends[i])) &&
    (forall i :: 0 <= i < |rs| ==> Inv(src, keys[i]) && Inv(src, ends[i]) && rs[i] != Err(Final)) &&
    (forall i :: 0 <= i < |rs| - 1 ==> keys[i + 1] == AfterComma(src, ends[i]))
  }

  /** One pair: its outcome is pushed into its field, and the loop goes on after the optional ','. */
  lemma NamedPairTurn(src: seq<Line>, fs: seq<Field>, states: seq<FieldState>, key: Cursor, j: nat, r: Result<Value>, end: Cursor)
    ensures (PairAt(src, fs, key, j, r, end) && StatesTyped(states, fs)) ==>
      FieldWellFormed(fs[j], NamedShape) && Inv(src, end) && (r.Ok? ==> HasType(r.value, fs[j].ty)) &&
      NamedLoop(src, key, fs, states) ==
        NamedLoop(src, AfterComma(src, end), fs, states[j := Push(fs[j].ty, states[j], r).0])
  {
    if PairAt(src, fs, key, j, r, end) && StatesTyped(states, fs) {
      assert FieldWellFormed(fs[j], NamedShape);
      var k := KeySpec(src, key, fs);
      assert NamedLoop(src, key, fs, states) == NamedValue(src, k.c, fs, states, j);
    }
  }

  /** Pair i of the pairs read. */
  lemma NamedStep(src: seq<Line>, fs: seq<Field>, keys: seq<Cursor>, ids: seq<nat>, rs: seq<Result<Value>>, ends: seq<Cursor>,
                  i: nat, states: seq<FieldState>)
    requires i < |rs|
    ensures (PairsRead(src, fs, keys, ids, rs, ends) && StatesTyped(states, fs)) ==>
      FieldWellFormed(fs[ids[i]], NamedShape) &&
      NamedLoop(src, keys[i], fs, states) ==
        NamedLoop(src, AfterComma(src, ends[i]), fs, states[ids[i] := Push(fs[ids[i]].ty, states[ids[i]], rs[i]).0])
  {
    if PairsRead(src, fs, keys, ids, rs, ends) && StatesTyped(states, fs) {
      assert PairAt(src, fs, keys[i], ids[i], rs[i], ends[i]);
      NamedPairTurn(src, fs, states, keys[i], ids[i], rs[i], ends[i]);
    }
  }

  /** From pair i on, the loop pushes every remaining pair and goes on after the last one. */
  lemma {:induction false} NamedPairsFrom(src: seq<Line>, fs: seq<Field>, keys: seq<Cursor>, ids: seq<nat>, rs: seq<Result<Value>>,
                                          ends: seq<Cursor>, i: nat, states: seq<FieldState>)
    requires i < |rs|
    ensures (PairsRead(src, fs, keys, ids, rs, ends) && StatesTyped(states, fs)) ==>
      NamedLoop(src, keys[i], fs, states) ==
        NamedLoop(src, AfterComma(src, ends[|rs| - 1]), fs, PushPairs(fs, states, ids[i..], rs[i..]))
    decreases |rs| - i
  {
    if PairsRead(src, fs, keys, ids, rs, ends) && StatesTyped(states, fs) {
      var j := ids[i];
      NamedStep(src, fs, keys, ids, rs, ends, i, states);
      var next := states[j := Push(fs[j].ty, states[j], rs[i]).0];
      assert ids[i..][1..] == ids[i + 1..] && rs[i..][1..] == rs[i + 1..];
      assert PushPairs(fs, states, ids[i..], rs[i..]) == PushPairs(fs, next, ids[i + 1..], rs[i + 1..]);
      if i + 1 < |rs| {
        NamedPairsFrom(src, fs, keys, ids, rs, ends, i + 1, next);
      } else {
        assert PushPairs(fs, next, ids[i + 1..], rs[i + 1..]) == next;
      }
    }
  }

  /** '}' ends the named field loop with the states as they are. */
  lemma NamedCloses(src: seq<Line>, c: Cursor, fs: seq<Field>, states: seq<FieldState>)
    requires Inv(src, c) && NamedWellFormed(fs) && StatesTyped(states, fs) && Peek(c) == Some('}')
    ensures NamedLoop(src, c, fs, states) == Step(Ok(states), Advance(src, c, 1).value)
  {
  }

  /** Where the named field loop stands after the pairs read: just after '{' when there is none. */
  function NextKey(src: seq<Line>, c: Cursor, ends: seq<Cursor>): Cursor
    requires c.pos <= |src| && c.column <= |c.text| && Peek(c) == Some('{')
    requires |ends| > 0 ==> Inv(src, ends[|ends| - 1])
  {
    if |ends| == 0 then AdvanceChar(src, c, '{').value else AfterComma(src, ends[|ends| - 1])
  }

  /** From '{' through the pairs read, the loop goes on at NextKey with every pair pushed. */
  lemma NamedFromOpen(src: seq<Line>, c: Cursor, fs: seq<Field>, keys: seq<Cursor>, ids: seq<nat>, rs: seq<Result<Value>>, ends: seq<Cursor>)
    requires Inv(src, c) && NamedWellFormed(fs) && Peek(c) == Some('{')
    requires PairsRead(src, fs, keys, ids, rs, ends)
    requires |rs| > 0 ==> AdvanceChar(src, c, '{') == Some(keys[0])
    ensures Inv(src, NextKey(src, c, ends))
    ensures NamedSpec(src, c, fs) ==
      var l := NamedLoop(src, NextKey(src, c, ends), fs, PushPairs(fs, InitStates(fs), ids, rs));
      if l.Panics? then Panics
      else match l.r
        case Err(x) => Step(Err(x), l.c)
        case Ok(states) => Step(ResolveFrom(fs, states, 0, []), l.c)
  {
    var init := InitStates(fs);
    if |rs| == 0 {
      assert PushPairs(fs, init, ids, rs) == init;
    } else {
      NamedPairsFrom(src, fs, keys, ids, rs, ends, 0, init);
      assert ids[0..] == ids && rs[0..] == rs;
    }
  }

  /**
   * '{', the pairs `name: value` read in any order (a name may come more
   * than once; each value may be followed by a ','), and '}' are read as
   * the struct's field values: every pair's outcome is pushed into its
   * field in the order the pairs come, and the fields then resolve in
   * declaration order (PairsPushedPerField says what each field holds).
   * The '}' is consumed.
   */
  lemma NamedReadsFields(src: seq<Line>, c: Cursor, fs: seq<Field>, keys: seq<Cursor>, ids: seq<nat>, rs: seq<Result<Value>>, ends: seq<Cursor>)
    requires Inv(src, c) && NamedWellFormed(fs) && Peek(c) == Some('{')
    requires PairsRead(src, fs, keys, ids, rs, ends)
    requires |rs| > 0 ==> AdvanceChar(src, c, '{') == Some(keys[0])
    requires Peek(NextKey(src, c, ends)) == Some('}')
    ensures Inv(src, NextKey(src, c, ends))
    ensures NamedSpec(src, c, fs) ==
      Step(ResolveFrom(fs, PushPairs(fs, InitStates(fs), ids, rs), 0, []), Advance(src, NextKey(src, c, ends), 1).value)
  {
    NamedFromOpen(src, c, fs, keys, ids, rs, ends);
    NamedCloses(src, NextKey(src, c, ends), fs, PushPairs(fs, InitStates(fs), ids, rs));
  }

  /** Named fields must open with '{': otherwise the parse is Final and consumes nothing. */
  lemma NamedNeedsOpen(src: seq<Line>, c: Cursor, fs: seq<Field>)
    requires Inv(src, c) && NamedWellFormed(fs) && Peek(c) != Some('{')
    ensures NamedSpec(src, c, fs) == Step(Err(Final), c)
  {
  }

  /**
   * After the pairs read, a key that is not '}' and that KeySpec refuses
   * (the input runs out before '}', no field name starts the text, or the
   * ':' is missing) ends the parse with Final where KeySpec stopped.
   */
  lemma NamedKeyFails(src: seq<Line>, c: Cursor, fs: seq<Field>, keys: seq<Cursor>, ids: seq<nat>, rs: seq<Result<Value>>, ends: seq<Cursor>)
    requires Inv(src, c) && NamedWellFormed(fs) && Peek(c) == Some('{')
    requires PairsRead(src, fs, keys, ids, rs, ends)
    requires |rs| > 0 ==> AdvanceChar(src, c, '{') == Some(keys[0])
    requires Peek(NextKey(src, c, ends)) != Some('}') && KeySpec(src, NextKey(src, c, ends), fs).r.Err?
    ensures NamedSpec(src, c, fs) == Step(Err(Final), KeySpec(src, NextKey(src, c, ends), fs).c)
    ensures Rest(NextKey(src, c, ends)).None? ==> NamedSpec(src, c, fs) == Step(Err(Final), NextKey(src, c, ends))
  {
    NamedFromOpen(src, c, fs, keys, ids, rs, ends);
  }

  /**
   * After the pairs read, a key whose value parse is Final ends the
   * parse with Final where that value's parse stopped (push_found hands a
   * Final error back).
   */
  lemma NamedValueFinal(src: seq<Line>, c: Cursor, fs: seq<Field>, keys: seq<Cursor>, ids: seq<nat>, rs: seq<Result<Value>>, ends: seq<Cursor>,
                        j: nat, at: Cursor, stop: Cursor)
    requires Inv(src, c) && NamedWellFormed(fs) && Peek(c) == Some('{')
    requires PairsRead(src, fs, keys, ids, rs, ends)
    requires |rs| > 0 ==> AdvanceChar(src, c, '{') == Some(keys[0])
    requires Peek(NextKey(src, c, ends)) != Some('}') && KeySpec(src, NextKey(src, c, ends), fs) == Step(Ok(j), at)
    requires WellFormed(fs[j].ty) && ParseSpec(src, at, fs[j].ty) == Step(Err(Final), stop)
    ensures NamedSpec(src, c, fs) == Step(Err(Final), stop)
  {
    NamedFromOpen(src, c, fs, keys, ids, rs, ends);
    var states := PushPairs(fs, InitStates(fs), ids, rs);
    assert FieldWellFormed(fs[j], NamedShape);
    assert NamedLoop(src, NextKey(src, c, ends), fs, states) == NamedValue(src, at, fs, states, j);
  }
}

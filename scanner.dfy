/**
 * The line-oriented configuration scanner (ConfigProvider).
 *
 * The provider holds the current line and a column into it, and pulls
 * further lines from a source of (line number, text) pairs.  After every
 * operation that moves it, it stands on the first character that is not
 * whitespace; blank lines and lines whose first non-blank character is '#'
 * are skipped as a whole.
 *
 * The state is described by a Cursor value; the functions on cursors below
 * are the specification the ConfigProvider methods are proved against.
 */
module Scanner {
  import opened Common

  /** One line of input: its line number and its text. */
  type Line = (nat, string)

  /**
   * Snapshot of a provider: current line number, current line text, column
   * into it, and how many lines of the source have been read so far.
   */
  datatype Cursor = Cursor(line: nat, text: string, column: nat, pos: nat)

  /** The first index at or after i that does not hold whitespace (|s| if none). */
  function SkipWs(s: string, i: nat): (j: nat)
    requires i <= |s|
    ensures i <= j <= |s|
    ensures forall k :: i <= k < j ==> IsWhitespace(s[k])
    ensures j < |s| ==> !IsWhitespace(s[j])
    decreases |s| - i
  {
    if i == |s| || !IsWhitespace(s[i]) then i else SkipWs(s, i + 1)
  }

  /** A line that holds content: neither blank nor a comment line. */
  predicate Meaningful(t: string)
  {
    var j := SkipWs(t, 0);
    j < |t| && t[j] != '#'
  }

  /** Total number of characters in the lines src[k..]. */
  function SumLen(src: seq<Line>, k: nat): nat
    requires k <= |src|
    decreases |src| - k
  {
    if k == |src| then 0 else |src[k].1| + SumLen(src, k + 1)
  }

  /** Characters not yet consumed: the rest of the current line plus all unread lines. */
  function Unread(src: seq<Line>, c: Cursor): nat
    requires c.pos <= |src| && c.column <= |c.text|
  {
    |c.text| - c.column + SumLen(src, c.pos)
  }

  /** The cursor agrees with the source it reads from. */
  predicate Consistent(src: seq<Line>, c: Cursor)
  {
    c.pos <= |src| && c.column <= |c.text| &&
    (c.pos == 0 ==> c.text == "" && c.line == 1) &&
    (c.pos > 0 ==> c.text == src[c.pos - 1].1 && c.line == src[c.pos - 1].0)
  }

  /**
   * The scanner's resting state: it stands on a character that is not
   * whitespace, or it has reached the end of the last line.
   */
  predicate Clean(src: seq<Line>, c: Cursor)
  {
    (c.column < |c.text| && !IsWhitespace(c.text[c.column])) ||
    (c.column == |c.text| && c.pos == |src|)
  }

  predicate Inv(src: seq<Line>, c: Cursor)
  {
    Consistent(src, c) && Clean(src, c)
  }

  /**
   * Reading the next line: if the source is exhausted nothing changes;
   * otherwise lines are read until one with content, and the cursor stands
   * on its first non-blank character.  If no line has content, the cursor
   * ends at the end of the last line.
   */
  function NextLine(src: seq<Line>, c: Cursor): (r: Cursor)
    requires c.pos <= |src|
    ensures c.pos == |src| ==> r == c
    ensures c.pos < |src| ==>
      c.pos < r.pos <= |src| && r.text == src[r.pos - 1].1 && r.line == src[r.pos - 1].0
    ensures c.pos < |src| ==>
      (Meaningful(r.text) && r.column == SkipWs(r.text, 0)) ||
      (!Meaningful(r.text) && r.pos == |src| && r.column == |r.text|)
    ensures c.pos < |src| ==> forall k :: c.pos <= k < r.pos - 1 ==> !Meaningful(src[k].1)
    ensures c.pos < |src| ==> r.column <= |r.text| && Unread(src, r) <= SumLen(src, c.pos)
    decreases |src| - c.pos
  {
    if c.pos == |src| then c
    else
      var (n, t) := src[c.pos];
      var j := SkipWs(t, 0);
      if j < |t| && t[j] != '#' then Cursor(n, t, j, c.pos + 1)
      else NextLine(src, Cursor(n, t, |t|, c.pos + 1))
  }

  /**
   * skip_whitespace followed by the end-of-line check of consume: move to the
   * next non-blank character of the line, or on to the next line with content.
   */
  function Settle(src: seq<Line>, c: Cursor): (r: Cursor)
    requires c.pos <= |src| && c.column <= |c.text|
    ensures Clean(src, r)
    ensures r.pos >= c.pos
    ensures Consistent(src, c) ==> Consistent(src, r)
    ensures r.pos <= |src| && r.column <= |r.text|
    ensures Unread(src, r) <= Unread(src, c)
  {
    var j := SkipWs(c.text, c.column);
    if j < |c.text| then c.(column := j)
    else NextLine(src, c.(column := |c.text|))
  }

  /**
   * consume(count): fails when fewer than count characters are left on the
   * current line; otherwise advances the column and settles.
   */
  function Advance(src: seq<Line>, c: Cursor, count: nat): (r: Option<Cursor>)
    requires c.pos <= |src| && c.column <= |c.text|
    ensures r.None? <==> c.column + count > |c.text|
    ensures r.Some? ==> Clean(src, r.value) && r.value.pos >= c.pos
    ensures r.Some? && Consistent(src, c) ==> Consistent(src, r.value)
    ensures r.Some? ==> r.value.pos <= |src| && r.value.column <= |r.value.text|
    ensures r.Some? ==> Unread(src, r.value) + count <= Unread(src, c)
  {
    if c.column + count > |c.text| then None
    else Some(Settle(src, c.(column := c.column + count)))
  }

  /** The upcoming character, if the current line has one. */
  function Peek(c: Cursor): Option<char>
  {
    if c.column < |c.text| then Some(c.text[c.column]) else None
  }

  /** consume_char(ch): consume one character if it is ch, fail otherwise. */
  function AdvanceChar(src: seq<Line>, c: Cursor, ch: char): (r: Option<Cursor>)
    requires c.pos <= |src| && c.column <= |c.text|
    ensures r.Some? <==> Peek(c) == Some(ch)
    ensures r.Some? ==> Clean(src, r.value) && r.value.pos >= c.pos
    ensures r.Some? && Consistent(src, c) ==> Consistent(src, r.value)
    ensures r.Some? ==> r.value.pos <= |src| && r.value.column <= |r.value.text|
    ensures r.Some? ==> Unread(src, r.value) < Unread(src, c)
  {
    if Peek(c) == Some(ch) then Advance(src, c, 1) else None
  }

  /** get_next: the rest of the current line, if there is any. */
  function Rest(c: Cursor): Option<string>
  {
    if c.column < |c.text| then Some(c.text[c.column..]) else None
  }

  /** The state of a freshly created provider over the given lines. */
  function Start(src: seq<Line>): (r: Cursor)
    ensures Inv(src, r)
  {
    NextLine(src, Cursor(1, "", 0, 0))
  }

  /** The first line at or after k that has content (|src| if none). */
  function FirstMeaningful(src: seq<Line>, k: nat): (m: nat)
    requires k <= |src|
    ensures k <= m <= |src|
    ensures m < |src| ==> Meaningful(src[m].1)
    ensures forall i :: k <= i < m ==> !Meaningful(src[i].1)
    decreases |src| - k
  {
    if k == |src| || Meaningful(src[k].1) then k else FirstMeaningful(src, k + 1)
  }

  /**
   * Reading on from a line boundary lands on the first line with content,
   * on its first non-blank character; with no such line the provider ends
   * up at the end of the last line.
   */
  lemma {:induction false} NextLineFindsContent(src: seq<Line>, c: Cursor)
    requires c.pos < |src|
    ensures var m := FirstMeaningful(src, c.pos);
      var r := NextLine(src, c);
      if m < |src| then r == Cursor(src[m].0, src[m].1, SkipWs(src[m].1, 0), m + 1)
      else r == Cursor(src[|src| - 1].0, src[|src| - 1].1, |src[|src| - 1].1|, |src|)
  {
    var m := FirstMeaningful(src, c.pos);
    var r := NextLine(src, c);
    if r.pos - 1 < m {
      // r stops before the first meaningful line: only possible at the end
      assert r.pos == |src| && !Meaningful(r.text);
      assert m == |src|;
    }
  }

  /** With all input read, the cursor is at the end exactly when nothing is left. */
  lemma {:induction false} AtEndMeansExhausted(src: seq<Line>, c: Cursor)
    requires Inv(src, c)
    ensures Rest(c).None? <==> Unread(src, c) == 0
  {
    if Rest(c).None? {
      assert c.pos == |src|;
    }
  }

  /**
   * A '#' after content on a line is part of the content: consuming up to
   * it leaves the provider on the '#'.
   */
  lemma HashAfterContentIsKept(src: seq<Line>, c: Cursor, count: nat)
    requires Inv(src, c) && c.column + count < |c.text|
    requires c.text[c.column + count] == '#'
    ensures Advance(src, c, count) == Some(c.(column := c.column + count))
    ensures Rest(Advance(src, c, count).value) == Some(c.text[c.column + count..])
  {
  }

  /** A consume that stays within the line never changes the line. */
  lemma ConsumeWithinLine(src: seq<Line>, c: Cursor, count: nat)
    requires Inv(src, c) && c.column + count <= |c.text|
    requires SkipWs(c.text, c.column + count) < |c.text|
    ensures Advance(src, c, count) == Some(c.(column := SkipWs(c.text, c.column + count)))
  {
  }

  /**
   * The provider over a stream of lines.  `source` stands for the line
   * iterator: `pos` lines of it have been read.
   */
  class ConfigProvider {
    const file: string
    const source: seq<Line>
    var line: nat
    var column: nat
    var lineStr: string
    var pos: nat

    ghost function Cur(): Cursor
      reads this
    {
      Cursor(line, lineStr, column, pos)
    }

    ghost predicate WellFormed()
      reads this
    {
      Consistent(source, Cur())
    }

    ghost predicate Valid()
      reads this
    {
      Inv(source, Cur())
    }

    ghost function Remaining(): nat
      reads this
      requires WellFormed()
    {
      Unread(source, Cur())
    }

    /** new_with_provider: start on line 1, column 0, and read the first line with content. */
    constructor (it: seq<Line>, file: string)
      ensures Valid()
      ensures this.source == it && this.file == file
      ensures Cur() == Start(it)
    {
      this.file := file;
      this.source := it;
      line, column, lineStr, pos := 1, 0, "", 0;
      new;
      GetNextLine();
    }

    /** new_from_line / new_from_str: a single line numbered 0 from the file "memory". */
    constructor FromLine(text: string)
      ensures Valid()
      ensures source == [(0, text)] && file == "memory"
      ensures Cur() == Start([(0, text)])
    {
      file := "memory";
      source := [(0, text)];
      line, column, lineStr, pos := 1, 0, "", 0;
      new;
      GetNextLine();
    }

    /**
     * get_next: the unconsumed rest of the current line.  On a valid
     * provider it is absent only at the end of all input, and otherwise
     * starts with a non-blank character.
     */
    function GetNext(): (r: Option<string>)
      reads this
      ensures r == Rest(Cur())
      ensures Valid() ==> (r.None? <==> pos == |source| && column == |lineStr|)
      ensures Valid() && r.Some? ==> |r.value| > 0 && !IsWhitespace(r.value[0])
    {
      if column >= |lineStr| then None else Some(lineStr[column..])
    }

    /** peek_char: the character at the column, if any. */
    function PeekChar(): (r: Option<char>)
      reads this
      ensures r == Peek(Cur())
      ensures r.Some? <==> GetNext().Some?
      ensures r.Some? ==> r.value == GetNext().value[0]
    {
      if column < |lineStr| then Some(lineStr[column]) else None
    }

    /** is_at_end: true exactly when there is no more configuration to read. */
    function IsAtEnd(): (r: bool)
      reads this
      requires Valid()
      ensures r <==> GetNext().None?
      ensures r <==> Remaining() == 0
    {
      AtEndMeansExhausted(source, Cur());
      column == |lineStr|
    }

    /**
     * print_error: the message naming file, line and the 1-based column
     * `index` characters past the current one.
     */
    function ErrorMessage(index: nat): (r: string)
      reads this
      ensures exists l, col ::
        r == "Encountered error in " + file + ":" + l + "," + col &&
        |l| >= 1 && AllDigits(l) && DecimalValue(l) == line && (|l| > 1 ==> l[0] != '0') &&
        |col| >= 1 && AllDigits(col) && DecimalValue(col) == column + index + 1 && (|col| > 1 ==> col[0] != '0')
    {
      var l := NatToString(line);
      var col := NatToString(column + index + 1);
      "Encountered error in " + file + ":" + l + "," + col
    }

    /** skip_current: drop the rest of the line and read on. */
    method SkipCurrent()
      requires WellFormed()
      modifies this
      ensures WellFormed() && pos >= old(pos)
      ensures Cur() == NextLine(source, old(Cur()).(column := |old(lineStr)|))
      decreases |source| - pos, 0, 1
    {
      column := |lineStr|;
      GetNextLine();
    }

    /** skip_whitespace: move past blanks, or on to the next line when only blanks are left. */
    method SkipWhitespace()
      requires WellFormed()
      modifies this
      ensures WellFormed() && pos >= old(pos)
      ensures Cur() == Settle(source, old(Cur()))
      decreases |source| - pos, |lineStr| - column, 2
    {
      var j := SkipWs(lineStr, column);
      if j == |lineStr| {
        SkipCurrent();
      } else if j > column {
        var r := Consume(j - column);
        assert r.Ok?;
      }
    }

    /** get_next_line: read the next line if there is one, skipping blanks and a comment line. */
    method GetNextLine()
      requires WellFormed()
      modifies this
      ensures WellFormed() && pos >= old(pos)
      ensures Cur() == NextLine(source, old(Cur()))
      decreases |source| - pos, 0, 0
    {
      if pos < |source| {
        var (n, t) := source[pos];
        lineStr, line, column, pos := t, n, 0, pos + 1;
        SkipWhitespace();
        if PeekChar() == Some('#') {
          SkipCurrent();
        }
      }
    }

    /** consume(count): fails with Final, changing nothing, when the line is too short. */
    method Consume(count: nat) returns (r: Result<()>)
      requires WellFormed()
      modifies this
      ensures WellFormed() && pos >= old(pos)
      ensures Advance(source, old(Cur()), count).None? ==>
        r == Err(Final) && Cur() == old(Cur())
      ensures Advance(source, old(Cur()), count).Some? ==>
        r == Ok(()) && Cur() == Advance(source, old(Cur()), count).value
      decreases |source| - pos, (if column + count <= |lineStr| then |lineStr| - column - count else 0), 3
    {
      if column + count > |lineStr| {
        return Err(Final);
      }
      column := column + count;
      SkipWhitespace();
      if column == |lineStr| {
        GetNextLine();
      }
      return Ok(());
    }

    /** consume_char(ch): consume ch if it is the next character, otherwise fail with Final. */
    method ConsumeChar(ch: char) returns (r: Result<()>)
      requires WellFormed()
      modifies this
      ensures WellFormed()
      ensures AdvanceChar(source, old(Cur()), ch).None? ==> r == Err(Final) && Cur() == old(Cur())
      ensures AdvanceChar(source, old(Cur()), ch).Some? ==>
        r == Ok(()) && Cur() == AdvanceChar(source, old(Cur()), ch).value
    {
      if PeekChar() == Some(ch) {
        r := Consume(1);
        return;
      }
      return Err(Final);
    }
  }
}

/**
 * Facts about scanning a single line character by character, shared by the
 * scenarios that drive the ConfigProvider over concrete inputs.
 */
module LineScans {
  import opened Common
  import opened Scanner

  /** Blanks up to j, then a non-blank character at j: skipping whitespace from i stops at j. */
  lemma {:induction false} SkipTo(t: string, i: nat, j: nat)
    requires i <= j < |t| && !IsWhitespace(t[j])
    requires forall k :: i <= k < j ==> t[k] == ' '
    ensures SkipWs(t, i) == j
    decreases j - i
  {
    if i < j {
      SkipTo(t, i + 1, j);
    }
  }

  /** Only blanks from i on: skipping whitespace reaches the end of the text. */
  lemma {:induction false} SkipToEnd(t: string, i: nat)
    requires i <= |t|
    requires forall k :: i <= k < |t| ==> t[k] == ' '
    ensures SkipWs(t, i) == |t|
    decreases |t| - i
  {
    if i < |t| {
      SkipToEnd(t, i + 1);
    }
  }

  /** A one-line source whose first character is content starts on that character. */
  lemma StartAt(t: string)
    requires |t| > 0 && !IsWhitespace(t[0]) && t[0] != '#'
    ensures Start([(0, t)]) == Cursor(0, t, 0, 1)
  {
    SkipTo(t, 0, 0);
  }

  /** consume(count) within a line stops on the next non-blank character of that line. */
  lemma AdvanceTo(src: seq<Line>, c: Cursor, count: nat, j: nat)
    requires c.pos <= |src| && c.column + count <= j < |c.text| && !IsWhitespace(c.text[j])
    requires forall k :: c.column + count <= k < j ==> c.text[k] == ' '
    ensures Advance(src, c, count) == Some(c.(column := j))
  {
    SkipTo(c.text, c.column + count, j);
  }

  /** consume_char(ch) on ch, likewise. */
  lemma AdvanceCharTo(src: seq<Line>, c: Cursor, ch: char, j: nat)
    requires c.pos <= |src| && c.column < |c.text| && c.text[c.column] == ch
    requires c.column + 1 <= j < |c.text| && !IsWhitespace(c.text[j])
    requires forall k :: c.column + 1 <= k < j ==> c.text[k] == ' '
    ensures AdvanceChar(src, c, ch) == Some(c.(column := j))
  {
    AdvanceTo(src, c, 1, j);
  }

  /** consume(count) over the rest of the last line leaves the cursor at its end. */
  lemma AdvanceToEnd(src: seq<Line>, c: Cursor, count: nat)
    requires c.pos == |src| && c.column + count <= |c.text|
    requires forall k :: c.column + count <= k < |c.text| ==> c.text[k] == ' '
    ensures Advance(src, c, count) == Some(c.(column := |c.text|))
  {
    SkipToEnd(c.text, c.column + count);
  }
}

/**
 * The formatting and text engine: the table of markup per formatting tag,
 * splicing markup at a selection, the cursor's line and column, the current
 * line, inserting at the start of a line, and the status-bar counters.
 */
module Markdown {
  import opened JsStrings
  import opened EditorTypes

  /** The markup a tag wraps around its content, and the content used when nothing is selected. */
  datatype FormatSpec = FormatSpec(prefix: string, suffix: string, placeholder: string)

  /** The formatting table, keyed by tag name. */
  const FormatMap: map<string, FormatSpec> := map[
    "bold" := FormatSpec("**", "**", "粗体文字"),
    "italic" := FormatSpec("*", "*", "斜体文字"),
    "h1" := FormatSpec("# ", "", "一级标题"),
    "h2" := FormatSpec("## ", "", "二级标题"),
    "h3" := FormatSpec("### ", "", "三级标题"),
    "quote" := FormatSpec("> ", "", "引用内容"),
    "code" := FormatSpec("`", "`", "代码"),
    "codeBlock" := FormatSpec("```\n", "\n```", "代码块内容"),
    "link" := FormatSpec("[", "](url)", "链接文字"),
    "image" := FormatSpec("!\n[", "](url)\n", "图片描述"),
    "list" := FormatSpec("- ", "", "列表项"),
    "checkedList" := FormatSpec("- [ ] ", "", "任务项")
  ]

  /** Every formatting tag has an entry, and every entry has a non-empty placeholder. */
  lemma FormatMapCoversEveryTag(f: FormatType)
    ensures FormatTag(f) in FormatMap && FormatMap[FormatTag(f)].placeholder != []
  {
    match f
    case Bold =>
    case Italic =>
    case H1 =>
    case H2 =>
    case H3 =>
    case Quote =>
    case Code =>
    case CodeBlock =>
    case Link =>
    case Image =>
    case List =>
    case CheckedList =>
  }

  // ---------------------------------------------------------------------
  // insertAtCursor
  // ---------------------------------------------------------------------

  /** A selection in the text, as the editor reports it (any integers). */
  datatype Selection = Selection(start: int, end: int)

  /** The new text and the new selection. */
  datatype Insertion = Insertion(text: string, cursor: Selection)

  /** What goes between the markup: the selected text, or else the placeholder. */
  function Content(text: string, spec: FormatSpec, cursor: Selection): string
  {
    var selected := Substring(text, cursor.start, cursor.end);
    if selected != [] then selected else spec.placeholder
  }

  /**
   * Wraps the selection in the tag's markup and selects the content between
   * the markup. An unknown tag leaves text and selection as they were.
   */
  function InsertAtCursor(text: string, tag: string, cursor: Selection): (r: Insertion)
    ensures tag !in FormatMap ==> r == Insertion(text, cursor)
  {
    if tag !in FormatMap then Insertion(text, cursor)
    else
      var spec := FormatMap[tag];
      var content := Content(text, spec, cursor);
      var before := Substring(text, 0, cursor.start);
      var after := SubstringFrom(text, cursor.end);
      var newStart := cursor.start + |spec.prefix|;
      Insertion(before + spec.prefix + content + spec.suffix + after,
                Selection(newStart, newStart + |content|))
  }

  /**
   * For a well-ordered selection: the text before the selection and after it
   * is kept, the selection is replaced by prefix, content and suffix, the new
   * selection brackets exactly the content, and the length grows accordingly.
   */
  lemma InsertAtCursorSplices(text: string, tag: string, start: int, end: int)
    requires tag in FormatMap && 0 <= start <= end <= |text|
    ensures var spec := FormatMap[tag];
      var content := if start < end then text[start..end] else spec.placeholder;
      var r := InsertAtCursor(text, tag, Selection(start, end));
      && r.text == text[..start] + spec.prefix + content + spec.suffix + text[end..]
      && r.cursor == Selection(start + |spec.prefix|, start + |spec.prefix| + |content|)
      && r.text[r.cursor.start..r.cursor.end] == content
      && r.text[..start] == text[..start]
      && r.text[r.cursor.end + |spec.suffix|..] == text[end..]
      && CountCharacters(r.text) == CountCharacters(text) - (end - start) + |spec.prefix| + |content| + |spec.suffix|
  {
    var spec := FormatMap[tag];
    var content := if start < end then text[start..end] else spec.placeholder;
    assert Content(text, spec, Selection(start, end)) == content;
    var r := InsertAtCursor(text, tag, Selection(start, end));
    var a := text[..start] + spec.prefix;
    assert r.text == a + content + (spec.suffix + text[end..]);
    assert r.text[|a|..|a| + |content|] == content;
    assert r.text[..start] == text[..start];
    assert r.text[|a| + |content| + |spec.suffix|..] == text[end..];
  }

  /**
   * Formatting a non-empty selection is undone by dropping the markup around
   * the new selection.
   */
  lemma InsertAtCursorUndo(text: string, tag: string, start: int, end: int)
    requires tag in FormatMap && 0 <= start < end <= |text|
    ensures var r := InsertAtCursor(text, tag, Selection(start, end));
      r.cursor.end + |FormatMap[tag].suffix| <= |r.text| &&
      r.text[..start] + r.text[r.cursor.start..r.cursor.end] + r.text[r.cursor.end + |FormatMap[tag].suffix|..] == text
  {
    InsertAtCursorSplices(text, tag, start, end);
    assert text[..start] + text[start..end] + text[end..] == text;
  }

  /** Bold at the end of "hello" inserts the bold placeholder and selects it. */
  lemma InsertAtCursorBoldExample()
    ensures InsertAtCursor("hello world", "bold", Selection(5, 5))
         == Insertion("hello**粗体文字** world", Selection(7, 11))
  {
    var text := "hello world";
    BoldEntry();
    InsertAtCursorSplices(text, "bold", 5, 5);
    assert text[..5] == "hello" && text[5..] == " world";
    assert |"**"| == 2 && |"粗体文字"| == 4;
  }

  /** The bold entry of the format map. */
  lemma BoldEntry()
    ensures "bold" in FormatMap && FormatMap["bold"] == FormatSpec("**", "**", "粗体文字")
  {
  }

  // ---------------------------------------------------------------------
  // Lines
  // ---------------------------------------------------------------------

  /** The start of the line holding index `q`: just after the last newline before `q`, or 0. */
  function LineStart(text: string, q: nat): (r: nat)
    requires q <= |text|
    ensures r <= q
    ensures r > 0 ==> text[r - 1] == '\n'
    ensures forall j :: r <= j < q ==> text[j] != '\n'
  {
    LastIndexOf(text[..q], '\n') + 1
  }

  /** The end of the line holding index `q`: the next newline at or after `q`, or the end. */
  function LineEnd(text: string, q: nat): (r: nat)
    requires q <= |text|
    ensures q <= r <= |text|
    ensures r < |text| ==> text[r] == '\n'
    ensures forall j :: q <= j < r ==> text[j] != '\n'
    decreases |text| - q
  {
    if q == |text| || text[q] == '\n' then q else LineEnd(text, q + 1)
  }

  /** A line start is determined by the two facts that characterise it. */
  lemma LineStartUnique(text: string, q: nat, a: nat)
    requires a <= q <= |text|
    requires a > 0 ==> text[a - 1] == '\n'
    requires forall j :: a <= j < q ==> text[j] != '\n'
    ensures LineStart(text, q) == a
  {
  }

  /** A line end is determined by the two facts that characterise it. */
  lemma LineEndUnique(text: string, q: nat, e: nat)
    requires q <= e <= |text|
    requires e < |text| ==> text[e] == '\n'
    requires forall j :: q <= j < e ==> text[j] != '\n'
    ensures LineEnd(text, q) == e
  {
  }

  /** The line and column of a position: the number of pieces before it and the length of the last piece, plus one. */
  function GetLineAndColumn(text: string, position: int): (p: CursorPosition)
    ensures p.line >= 1 && p.column >= 1
  {
    var lines := Split(Substring(text, 0, position), '\n');
    CursorPosition(|lines|, |lines[|lines| - 1]| + 1)
  }

  /**
   * The line is one more than the newlines before the position, and also the
   * line count of the text before it; the column is one more than the number
   * of characters since the line's start.
   */
  lemma GetLineAndColumnCounts(text: string, position: int)
    ensures var q := ClampIndex(position, |text|);
      && GetLineAndColumn(text, position) == CursorPosition(1 + CountOf(text[..q], '\n'), q - LineStart(text, q) + 1)
      && GetLineAndColumn(text, position).line == CountLines(Substring(text, 0, position))
  {
    var q := ClampIndex(position, |text|);
    var before := text[..q];
    assert Substring(text, 0, position) == before;
    SplitCount(before, '\n');
    LastLineLength(text, q);
  }

  /** The last piece of the text before `q` runs from the line's start to `q`. */
  lemma LastLineLength(text: string, q: nat)
    requires q <= |text|
    ensures var lines := Split(text[..q], '\n');
      |lines[|lines| - 1]| == q - LineStart(text, q)
  {
    SplitLast(text[..q], '\n');
  }

  /**
   * The first piece of the text from a line start on is the line of every
   * position within it, up to and including its end.
   */
  lemma FirstPieceIsLine(text: string, cp: nat, q: nat)
    requires cp <= q && cp <= |text|
    requires cp == 0 || text[cp - 1] == '\n'
    requires q <= cp + |Split(text[cp..], '\n')[0]|
    ensures q <= |text|
    ensures text[LineStart(text, q)..LineEnd(text, q)] == Split(text[cp..], '\n')[0]
  {
    var s := text[cp..];
    SplitFirst(s, '\n');
    var p := Split(s, '\n')[0];
    var e := cp + |p|;
    assert forall j :: cp <= j < e ==> text[j] == p[j - cp];
    LineStartUnique(text, q, cp);
    LineEndUnique(text, q, e);
    assert text[cp..e] == p;
  }

  /** The pieces after the first are the pieces of the text after the first newline. */
  lemma NextLine(text: string, cp: nat, lines: seq<string>, i: nat)
    requires i < |lines| && cp <= |text| && Split(text[cp..], '\n') == lines[i..]
    ensures var np := cp + |lines[i]| + 1;
      && (i + 1 < |lines| ==> np <= |text| && text[np - 1] == '\n' && Split(text[np..], '\n') == lines[i + 1..])
      && (i + 1 == |lines| ==> np == |text| + 1)
  {
    var s := text[cp..];
    SplitFirst(s, '\n');
    assert lines[i] == Split(s, '\n')[0];
    var k := |lines[i]|;
    if k < |s| {
      assert s[k + 1..] == text[cp + k + 1..];
      assert lines[i + 1..] == lines[i..][1..];
    }
  }

  /**
   * The line holding the position, without its newline; a position on a
   * newline belongs to the line the newline ends. A negative position counts
   * as 0, and a position past the end gives the empty string.
   */
  method GetCurrentLine(text: string, position: int) returns (line: string)
    ensures var q := if position < 0 then 0 else position;
      && (q <= |text| ==> line == text[LineStart(text, q)..LineEnd(text, q)])
      && (q > |text| ==> line == "")
  {
    var lines := Split(text, '\n');
    var currentPos := 0;
    var i := 0;
    assert text[currentPos..] == text;
    while i < |lines|
      invariant 0 <= i <= |lines| && 0 <= currentPos
      invariant i == 0 ==> currentPos == 0
      invariant i < |lines| ==> currentPos <= |text| && Split(text[currentPos..], '\n') == lines[i..]
      invariant i < |lines| ==> currentPos == 0 || text[currentPos - 1] == '\n'
      invariant i == |lines| ==> currentPos == |text| + 1
      invariant i > 0 ==> currentPos <= position
      decreases |lines| - i
    {
      var lineLength := |lines[i]| + 1;
      if currentPos + lineLength > position {
        FirstPieceIsLine(text, currentPos, if position < 0 then 0 else position);
        return lines[i];
      }
      NextLine(text, currentPos, lines, i);
      currentPos := currentPos + lineLength;
      i := i + 1;
    }
    return "";
  }

  /**
   * Inserts the text at the start of the line holding the position: just
   * after the last newline before the position, or at 0.
   */
  function InsertAtLineStart(text: string, position: int, insertText: string): string
  {
    var before := Substring(text, 0, position);
    var lastNewline := LastIndexOf(before, '\n');
    var lineStart := if lastNewline == -1 then 0 else lastNewline + 1;
    Substring(text, 0, lineStart) + insertText + SubstringFrom(text, lineStart)
  }

  /**
   * The insertion lands at the line's start, and deleting the inserted
   * characters there gives back the original text.
   */
  lemma InsertAtLineStartAtLineStart(text: string, position: int, insertText: string)
    ensures var ls := LineStart(text, ClampIndex(position, |text|));
      var r := InsertAtLineStart(text, position, insertText);
      && r == text[..ls] + insertText + text[ls..]
      && r[ls..ls + |insertText|] == insertText
      && r[..ls] + r[ls + |insertText|..] == text
  {
    var q := ClampIndex(position, |text|);
    var ls := LineStart(text, q);
    assert Substring(text, 0, position) == text[..q];
    var r := InsertAtLineStart(text, position, insertText);
    assert r == text[..ls] + insertText + text[ls..];
    assert r[..ls] == text[..ls];
    assert r[ls + |insertText|..] == text[ls..];
    assert text[..ls] + text[ls..] == text;
  }

  // ---------------------------------------------------------------------
  // Counters
  // ---------------------------------------------------------------------

  /** The number of lines: the pieces between newlines. */
  function CountLines(text: string): nat
  {
    |Split(text, '\n')|
  }

  /** One line more than newlines; joining two texts with a newline adds their line counts. */
  lemma CountLinesCountsNewlines(a: string, b: string)
    ensures CountLines(a) == 1 + CountOf(a, '\n')
    ensures CountLines(a + "\n" + b) == CountLines(a) + CountLines(b)
  {
    SplitCount(a, '\n');
    SplitAround(a, b, '\n');
  }

  /** The number of characters: `text.length`, which agrees with JavaScript for text inside the Basic Multilingual Plane. */
  function CountCharacters(text: string): nat
  {
    |text|
  }

  /** A character of the CJK Unified Ideographs range the word counter matches. */
  predicate IsCjk(c: char)
  {
    '\U{4E00}' <= c <= '\U{9FA5}'
  }

  /** A character of an ASCII letter-or-digit run. */
  predicate IsWordChar(c: char)
  {
    'a' <= c <= 'z' || 'A' <= c <= 'Z' || '0' <= c <= '9'
  }

  /** The number of CJK characters. */
  function CountCjk(s: string): nat
  {
    if s == [] then 0 else (if IsCjk(s[0]) then 1 else 0) + CountCjk(s[1..])
  }

  /** The length of the run of word characters at the start. */
  function RunLength(s: string): (k: nat)
    ensures k <= |s|
    ensures forall j :: 0 <= j < k ==> IsWordChar(s[j])
    ensures k < |s| ==> !IsWordChar(s[k])
  {
    if s != [] && IsWordChar(s[0]) then 1 + RunLength(s[1..]) else 0
  }

  /** The matches of a global, greedy search for runs of word characters. */
  function CountRuns(s: string): nat
    decreases |s|
  {
    if s == [] then 0
    else if !IsWordChar(s[0]) then CountRuns(s[1..])
    else 1 + CountRuns(s[RunLength(s)..])
  }

  /** The word count: each CJK character is a word, and so is each run of ASCII letters and digits. */
  function CountWords(text: string): nat
  {
    CountCjk(text) + CountRuns(text)
  }

  /**
   * Reference count of runs: the positions holding a word character that do
   * not follow one (`afterWord` says whether the text is preceded by one).
   */
  function RunStarts(s: string, afterWord: bool): nat
  {
    if s == [] then 0
    else (if IsWordChar(s[0]) && !afterWord then 1 else 0) + RunStarts(s[1..], IsWordChar(s[0]))
  }

  /** Inside a run, the remaining run starts are those after the run. */
  lemma {:induction false} RunStartsInsideRun(s: string, j: nat)
    requires 1 <= j <= RunLength(s)
    ensures RunStarts(s[j..], true) == RunStarts(s[RunLength(s)..], false)
    decreases RunLength(s) - j
  {
    var k := RunLength(s);
    if j < k {
      assert s[j..][1..] == s[j + 1..];
      RunStartsInsideRun(s, j + 1);
    } else if j < |s| {
      assert !IsWordChar(s[j]);
      assert s[j..][1..] == s[j + 1..];
    }
  }

  /** The greedy matcher counts exactly the run starts. */
  lemma {:induction false} CountRunsIsRunStarts(s: string)
    ensures CountRuns(s) == RunStarts(s, false)
    decreases |s|
  {
    if s != [] {
      if !IsWordChar(s[0]) {
        CountRunsIsRunStarts(s[1..]);
      } else {
        var k := RunLength(s);
        CountRunsIsRunStarts(s[k..]);
        if k > 1 {
          RunStartsInsideRun(s, 1);
        } else {
          assert s[1..] == s[k..];
          if |s| > 1 {
            assert !IsWordChar(s[1]);
            assert s[1..][1..] == s[2..];
          }
        }
      }
    }
  }

  /** A word character never follows a non-word boundary twice: run starts and CJK characters fit in the text. */
  lemma {:induction false} RunStartsBound(s: string, afterWord: bool)
    ensures CountCjk(s) + RunStarts(s, afterWord) <= |s|
  {
    if s != [] {
      RunStartsBound(s[1..], IsWordChar(s[0]));
    }
  }

  /** There are never more words than characters. */
  lemma CountWordsBound(text: string)
    ensures CountWords(text) <= CountCharacters(text)
  {
    CountRunsIsRunStarts(text);
    RunStartsBound(text, false);
  }

  lemma {:induction false} CountCjkAppend(a: string, b: string)
    ensures CountCjk(a + b) == CountCjk(a) + CountCjk(b)
  {
    if a == [] {
      assert a + b == b;
    } else {
      assert (a + b)[1..] == a[1..] + b;
      CountCjkAppend(a[1..], b);
    }
  }

  lemma {:induction false} RunStartsAroundBreak(a: string, c: char, b: string, afterWord: bool)
    requires !IsWordChar(c)
    ensures RunStarts(a + [c] + b, afterWord) == RunStarts(a, afterWord) + RunStarts(b, false)
  {
    if a == [] {
      assert a + [c] + b == [c] + b;
      assert ([c] + b)[1..] == b;
    } else {
      assert (a + [c] + b)[1..] == a[1..] + [c] + b;
      RunStartsAroundBreak(a[1..], c, b, IsWordChar(a[0]));
    }
  }

  /** Texts joined by a space (or any other separator that is neither a letter, a digit nor CJK) add their word counts. */
  lemma CountWordsAdditive(a: string, c: char, b: string)
    requires !IsWordChar(c) && !IsCjk(c)
    ensures CountWords(a + [c] + b) == CountWords(a) + CountWords(b)
  {
    CountRunsIsRunStarts(a + [c] + b);
    CountRunsIsRunStarts(a);
    CountRunsIsRunStarts(b);
    RunStartsAroundBreak(a, c, b, false);
    CountCjkAppend(a, [c] + b);
    CountCjkAppend([c], b);
    assert a + [c] + b == a + ([c] + b);
  }
}

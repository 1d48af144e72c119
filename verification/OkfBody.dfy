/**
 Where the body of a file starts, for every input.
 */
module OkfBody {
  import opened Wrappers
  import opened Text
  import opened Okf

  /** A line of a text, with its newline if it has one. */
  predicate IsLine(line: string) {
    line != "" && NoNewline(line[..|line| - 1])
  }

  lemma FirstIsLine(s: string)
    requires s != ""
    ensures IsLine(FirstLine(s))
    ensures FirstLine(s) == s || FirstLine(s)[|FirstLine(s)| - 1] == '\n'
  {
    FirstLineShape(s);
    hide FirstLine;
    var line := FirstLine(s);
    if NoNewline(line) { assert forall c :: c in line[..|line| - 1] ==> c in line; }
  }

  lemma WholeLineFirst(line: string, rest: string)
    requires IsLine(line) && line[|line| - 1] == '\n'
    ensures FirstLine(line + rest) == line && (line + rest)[|line|..] == rest
  {
    var l := line[..|line| - 1];
    assert line == l + "\n";
    FirstLineOf(l, rest);
  }

  /** The closing delimiter is the first delimiter line: the text is the block, that line and the body. */
  lemma {:induction false} SplitShape(text: string)
    requires SplitAtClosing(text).Some?
    ensures var (block, body) := SplitAtClosing(text).value;
      && SplitAtClosing(block) == None
      && exists close :: IsLine(close) && IsDelimiter(close) && text == block + close + body
    decreases |text|
  {
    hide IsDelimiter, FirstLine, IsLine;
    var line := FirstLine(text);
    FirstIsLine(text);
    var rest := text[|line|..];
    assert text == line + rest;
    var (block, body) := SplitAtClosing(text).value;
    if IsDelimiter(line) {
      assert text == block + line + body;
    } else {
      SplitShape(rest);
      var (inner, _) := SplitAtClosing(rest).value;
      var close :| IsLine(close) && IsDelimiter(close) && rest == inner + close + body;
      assert text == block + close + body;
      assert line != text by { assert SplitAtClosing("") == None; }
      WholeLineFirst(line, inner);
      NoDelimiterAdded(line, inner);
    }
  }

  lemma NoDelimiterAdded(line: string, inner: string)
    requires FirstLine(line + inner) == line && (line + inner)[|line|..] == inner && !IsDelimiter(line)
    requires SplitAtClosing(inner) == None
    ensures SplitAtClosing(line + inner) == None
  {
    hide IsDelimiter, FirstLine;
  }

  /**
   For every input, however malformed: either there is frontmatter between two delimiter lines, the second of them the
   first one that follows, and the body is all that comes after it; or there is none, the whole input is the body, and a
   warning is given exactly if the first line was a delimiter.
   */
  lemma BodyIsKept(input: string)
    ensures var p := Parse(input);
      || (exists open, block, close ::
            && IsLine(open) && IsDelimiter(open) && IsLine(close) && IsDelimiter(close)
            && SplitAtClosing(block) == None && input == open + block + close + p.body)
      || (p.frontmatter == EMPTY && p.body == input
          && p.warnings == if input != "" && IsDelimiter(FirstLine(input)) then [Unterminated] else [])
  {
    hide IsDelimiter, FirstLine, IsLine, ParseLines, SplitAtClosing, LogicalLines;
    if StripOpening(input).Some? {
      var open := FirstLine(input);
      FirstIsLine(input);
      var rest := input[|open|..];
      assert input == open + rest;
      if SplitAtClosing(rest).Some? {
        SplitShape(rest);
        var (block, body) := SplitAtClosing(rest).value;
        var close :| IsLine(close) && IsDelimiter(close) && rest == block + close + body;
        assert input == open + block + close + body;
      }
    }
  }
}

/**
 Lists that are written with one item to a line, below their key.
 */
module OkfBlocks {
  import opened Wrappers
  import opened Text
  import opened Okf
  import opened OkfLines
  import opened OkfRoundTrip
  import opened OkfCanonical

  /** A line below the key: an item as it is or in quotes, or something else that is no item. */
  datatype Child = Bare(text: string) | Quoted(text: string) | Other(text: string)

  /** The line without its indentation. */
  function Shown(c: Child): string {
    match c
    case Bare(text) => "- " + text
    case Quoted(text) => "- \"" + text + "\""
    case Other(text) => text
  }

  predicate ValidChild(c: Child) {
    && c.text != "" && NoNewline(c.text)
    && match c
       case Bare(text) => Trimmed(text) && !QuoteWrapped(text)
       case Quoted(_) => true
       case Other(text) => Trimmed(text) && text[0] != '-' && text[0] != '#'
  }

  function ChildLines(children: seq<Child>): seq<string> {
    if children == [] then [] else ["  " + Shown(children[0])] + ChildLines(children[1..])
  }

  /** The items, in order. */
  function Texts(children: seq<Child>): seq<string> {
    if children == [] then []
    else (if children[0].Other? then [] else [children[0].text]) + Texts(children[1..])
  }

  function ListFile(name: string, children: seq<Child>, body: string): string {
    "---\n" + Unlines([name + ":"] + ChildLines(children)) + "---\n" + body
  }

  // One line

  lemma ShownShape(c: Child)
    requires ValidChild(c)
    ensures var s := Shown(c);
      && s != "" && !IsSpace(s[0]) && s[0] != '#' && !IsSpace(s[|s| - 1]) && s[|s| - 1] != '\r' && NoNewline(s)
      && (s[0] == '-' <==> !c.Other?) && (s[0] == '-' ==> |s| > 1 && s[1] == ' ')
  {
    hide QuoteWrapped;
    assert forall x :: x in Shown(c) ==> x in c.text || x in "- \"";
  }

  lemma SolidLineRead(s: string)
    requires s != "" && !IsSpace(s[0]) && s[0] != '#' && !IsSpace(s[|s| - 1]) && s[|s| - 1] != '\r'
    ensures LogicalLine(StripCr("  " + s)) == Some(Line(2, s))
  {
    var raw := "  " + s;
    assert StripCr(raw) == raw && raw[|raw| - 1] == s[|s| - 1];
    assert StripCrs(raw) == raw by {
      StripCrsConcat(raw, "");
      assert raw + "" == raw;
    }
    assert TrimEnd(s) == s by { TrimEndLast(s); }
    hide StripCrs, TrimEnd, LogicalLine;
    LogicalLineOf(raw, "  ", s);
  }

  lemma ChildRead(c: Child)
    requires ValidChild(c)
    ensures ReadLines(["  " + Shown(c)]) == [Line(2, Shown(c))]
    ensures GoodLine("  " + Shown(c))
  {
    hide *;
    ShownShape(c);
    SolidLineRead(Shown(c));
    OneLineRead("  " + Shown(c), Line(2, Shown(c)));
    ChildIsGood(Shown(c));
  }

  lemma ChildIsGood(s: string)
    requires s != "" && !IsSpace(s[0]) && !IsSpace(s[|s| - 1]) && NoNewline(s)
    requires s[0] == '-' ==> |s| > 1 && s[1] == ' '
    ensures GoodLine("  " + s)
  {
    assert "  " + s + "\n" == "  " + (s + "\n");
    assert Trim("  " + (s + "\n")) == s by { TrimmedLine(s); }
    hide Trim;
    assert s != "---";
  }

  lemma TrimmedLine(s: string)
    requires s != "" && !IsSpace(s[0]) && !IsSpace(s[|s| - 1])
    ensures Trim("  " + (s + "\n")) == s
  {
    assert AllSpace("  ") && AllSpace("\n");
    assert TrimStart(s + "\n") == s + "\n";
    hide TrimStart, TrimEnd, IsSpace;
    TrimStartSpaces("  ", s + "\n");
    TrimEndConcat(s, "\n");
    TrimEndLast("\n");
    TrimEndLast(s);
  }

  /** What stands behind the dash and its space. */
  function Behind(c: Child): string { if c.Bare? then c.text else "\"" + c.text + "\"" }

  lemma ItemShown(c: Child)
    requires ValidChild(c) && !c.Other?
    ensures Shown(c)[1..] == " " + Behind(c) && c.text != ""
  {
  }

  lemma ItemRead(c: Child)
    requires ValidChild(c) && !c.Other?
    ensures CleanItems([Shown(c)[1..]]) == [c.text]
  {
    hide *;
    var x := Behind(c);
    ItemShown(c);
    ItemUnquoted(c);
    OneGap();
    CleanPadded(" ", x);
    CleanCons(" " + x, []);
    NothingClean();
    assert [" " + x] + [] == [" " + x];
  }

  lemma OneGap()
    ensures Gap(" ")
  {
  }

  lemma ItemUnquoted(c: Child)
    requires ValidChild(c) && !c.Other?
    ensures Unquote(Behind(c)) == c.text
  {
    hide Trim, IsSpace;
    var x := Behind(c);
    if c.Bare? {
      UnquoteFixpoint(x);
    } else {
      QuoteIsNoSpace();
      TrimFixpoint(x);
      assert x[1..|x| - 1] == c.text;
    }
  }

  lemma QuoteIsNoSpace()
    ensures !IsSpace('"')
  {
  }

  // The whole block

  lemma {:induction false} ChildrenRead(children: seq<Child>)
    requires forall c :: c in children ==> ValidChild(c)
    ensures GoodLines(ChildLines(children))
    ensures var lines := ReadLines(ChildLines(children));
      BlockItems(lines) == Texts(children) && forall l :: l in lines ==> l.indent > 0
  {
    hide ValidChild, Shown, GoodLine, CleanItems, ReadLines;
    if children == [] {
      NothingRead();
    } else {
      var c, rest := children[0], ChildLines(children[1..]);
      assert c in children && forall d :: d in children[1..] ==> d in children;
      ChildRead(c);
      ShownShape(c);
      ChildrenRead(children[1..]);
      ReadLinesConcat(["  " + Shown(c)], rest);
      var lines := [Line(2, Shown(c))] + ReadLines(rest);
      assert lines[1..] == ReadLines(rest);
      if !c.Other? { ItemRead(c); }
    }
  }

  lemma BlockParsed(header: Line, key: string, children: seq<Line>, p: Progress)
    requires header.indent == 0 && SplitKeyValue(header.content) == Some((key, ""))
    requires forall l :: l in children ==> l.indent > 0
    ensures ParseLines([header] + children, p) == ApplyBlock(p, key, children)
  {
    hide ParseLines, ApplyBlock, SplitKeyValue, IndentedPrefix;
    var lines := [header] + children;
    assert lines[1..] == children + [];
    IndentedPrefixOf(children, []);
    StepBlock(lines, key, p, |children|);
    assert lines[1 + |children|..] == [] && lines[1..1 + |children|] == children;
    NothingParsed(ApplyBlock(p, key, children));
  }

  lemma HeadRead(name: string)
    requires PlainKey(name) && NoNewline(":")
    ensures GoodLine(name + ":") && ReadLines([name + ":"]) == [Line(0, name + ":")]
    ensures SplitKeyValue(name + ":") == Some((name, ""))
  {
    hide LogicalLine, SplitKeyValue, PlainKey, GoodLine, NoNewline, StripCr;
    BareKeyReads(name);
    FieldLineGood("", name, ":");
    assert "" + name + ":" == name + ":" && [name + ":"][1..] == [];
  }

  /**
   A list with an item to a line is parsed to exactly those items, in order, commas and all; lines without a dash do not
   matter.
   */
  lemma BlockListParses(name: string, children: seq<Child>, body: string)
    requires name == "tags" || name == "refs"
    requires forall c :: c in children ==> ValidChild(c)
    ensures Parse(ListFile(name, children, body))
         == Parsed(if name == "tags" then EMPTY.(tags := Texts(children)) else EMPTY.(refs := Texts(children)), body,
                   [])
  {
    hide *;
    var ls, p := [name + ":"] + ChildLines(children), Progress(EMPTY, []);
    NamesArePlain();
    HeadRead(name);
    ChildrenRead(children);
    ReadLinesConcat([name + ":"], ChildLines(children));
    GoodConcat([name + ":"], ChildLines(children));
    LinesParse(ls, body);
    FileIs(name, children, body);
    BlockParsed(Line(0, name + ":"), name, ReadLines(ChildLines(children)), p);
    ItemsApplied(name, ReadLines(ChildLines(children)), Texts(children));
  }

  lemma NamesArePlain()
    ensures PlainKey("tags") && PlainKey("refs") && NoNewline(":")
  {
    LettersArePlain("tags");
    LettersArePlain("refs");
  }

  lemma GoodConcat(a: seq<string>, b: seq<string>)
    requires GoodLines(b) && |a| == 1 && GoodLine(a[0])
    ensures GoodLines(a + b)
  {
    hide GoodLine;
  }

  lemma FileIs(name: string, children: seq<Child>, body: string)
    ensures ListFile(name, children, body) == LinesFile([name + ":"] + ChildLines(children), body)
  {
  }

  lemma ItemsApplied(name: string, lines: seq<Line>, items: seq<string>)
    requires BlockItems(lines) == items && (name == "tags" || name == "refs")
    ensures ApplyBlock(Progress(EMPTY, []), name, lines)
         == Progress(if name == "tags" then EMPTY.(tags := items) else EMPTY.(refs := items), [])
  {
    hide KeyOf, BlockItems;
    KeyNames();
  }

  // Files of given lines

  function LinesFile(ls: seq<string>, body: string): string { "---\n" + Unlines(ls) + "---\n" + body }

  lemma LinesParse(ls: seq<string>, body: string)
    requires GoodLines(ls)
    ensures var p := ParseLines(ReadLines(ls), Progress(EMPTY, []));
      Parse(LinesFile(ls, body)) == Parsed(p.fm, body, p.warnings)
  {
    hide ParseLines, ReadLines, Unlines, GoodLine, LogicalLines, Lines, SplitAtClosing, StripOpening;
    var rest := Unlines(ls) + "---\n" + body;
    assert LinesFile(ls, body) == "---\n" + rest;
    OpeningStripped(rest);
    ClosingFound(ls, body);
    UnlinesRead(ls);
  }
}

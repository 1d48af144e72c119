/**
 How one printed frontmatter line is read back: the string lemmas under the round trip.
 */
module OkfLines {
  import opened Wrappers
  import opened Text
  import opened Okf

  /** A key as `Render` writes it. */
  predicate PlainKey(key: string) {
    key != "" && Trimmed(key) && ':' !in key && '\n' !in key && key[0] != '#' && key[0] != '-'
  }

  lemma LettersArePlain(key: string)
    requires key != "" && forall i :: 0 <= i < |key| ==> 'a' <= key[i] <= 'z'
    ensures PlainKey(key)
  {
  }

  predicate Pad(pad: string) { pad == "" || pad == "  " }

  predicate GoodLine(l: string) {
    NoNewline(l) && !IsDelimiter(l + "\n")
  }

  predicate GoodLines(ls: seq<string>) {
    forall l :: l in ls ==> GoodLine(l)
  }

  /** The logical lines of a block whose raw lines are `ls`. */
  function ReadLines(ls: seq<string>): seq<Line> {
    if ls == [] then [] else ReadLine(ls[0]) + ReadLines(ls[1..])
  }

  function ReadLine(l: string): seq<Line> {
    match LogicalLine(StripCr(l))
    case None => []
    case Some(line) => [line]
  }

  lemma OneLineRead(l: string, line: Line)
    requires LogicalLine(StripCr(l)) == Some(line)
    ensures ReadLines([l]) == [line]
  {
    hide LogicalLine, StripCr;
    assert [l][1..] == [];
  }

  /** What is left of the line `key: v` once it is trimmed. */
  function LineFor(key: string, v: string): string {
    key + ":" + TrimEnd(" " + StripCrs(v))
  }

  // Carriage returns

  lemma {:induction false} StripCrsTrimEnd(s: string)
    ensures TrimEnd(StripCrs(s)) == TrimEnd(s)
    ensures StripCrs(s) == "" ==> TrimEnd(s) == ""
  {
    if s != "" {
      StripCrsTrimEnd(s[1..]);
      var t := StripCrs(s[1..]);
      if !(t == "" && s[0] == '\r') {
        assert ([s[0]] + t)[1..] == t;
      }
    }
  }

  lemma StripCrsCons(c: char, s: string)
    ensures StripCrs([c] + s) == if StripCrs(s) == "" && c == '\r' then "" else [c] + StripCrs(s)
  {
    assert ([c] + s)[1..] == s;
  }

  lemma {:induction false} StripCrsConcat(a: string, b: string)
    requires a != "" && a[|a| - 1] != '\r'
    ensures StripCrs(a + b) == a + StripCrs(b)
  {
    hide StripCrs;
    StripCrsCons(a[0], a[1..] + b);
    assert a + b == [a[0]] + (a[1..] + b);
    if |a| > 1 {
      StripCrsConcat(a[1..], b);
      assert [a[0]] + (a[1..] + StripCrs(b)) == a + StripCrs(b);
    } else {
      assert a[1..] + b == b && [a[0]] == a;
    }
  }

  lemma {:induction false} StripCrsAll(a: string, b: string)
    requires StripCrs(b) == ""
    ensures StripCrs(a + b) == StripCrs(a)
  {
    if a == "" {
      assert a + b == b;
    } else {
      assert (a + b)[1..] == a[1..] + b;
      StripCrsAll(a[1..], b);
    }
  }

  lemma StripCrsStripCr(s: string)
    ensures StripCrs(StripCr(s)) == StripCrs(s)
  {
    if s != "" && s[|s| - 1] == '\r' {
      assert s == s[..|s| - 1] + "\r";
      assert StripCrs("\r") == "" by { assert "\r"[1..] == ""; }
      StripCrsAll(s[..|s| - 1], "\r");
    }
  }

  // One line

  lemma TrimBlanksPad(pad: string, s: string)
    requires Pad(pad) && s != "" && s[0] != ' '
    ensures TrimBlanks(pad + s) == s
  {
    if pad == "" {
      assert pad + s == s;
    } else {
      var t := pad + s;
      assert t[1..][1..] == s;
      assert TrimBlanks(t[1..][1..]) == s;
      assert TrimBlanks(t[1..]) == s;
    }
  }

  lemma TrimEndKey(key: string, x: string)
    requires PlainKey(key)
    ensures TrimEnd(key + ":" + x) == key + ":" + TrimEnd(x)
  {
    TrimEndConcat(key + ":", x);
    TrimEndLast(key + ":");
    assert key + ":" + "" == key + ":";
  }

  lemma KeyLineSplits(key: string, v: string)
    requires PlainKey(key)
    ensures SplitKeyValue(LineFor(key, v)) == Some((key, Trim(v)))
  {
    hide Trim, StripCrs;
    var w := StripCrs(v);
    var rest := TrimEnd(" " + w);
    assert LineFor(key, v) == key + [':'] + rest;
    SplitOnceAt(key, ':', rest);
    TrimFixpoint(key);
    assert Trim(rest) == Trim(v) by {
      TrimAfterSpace(w);
      StripCrsTrimEnd(v);
      TrimOfTrimEnd(v);
      TrimOfTrimEnd(w);
    }
  }

  lemma KeyLineContent(pad: string, key: string, v: string)
    ensures StripCrs(StripCr(pad + key + ": " + v)) == pad + (key + ": " + StripCrs(v))
  {
    var a := pad + key + ": ";
    assert a[|a| - 1] == ' ';
    StripCrsStripCr(a + v);
    StripCrsConcat(a, v);
    Regroup(pad, key, ": ", StripCrs(v));
  }

  lemma Regroup(a: string, b: string, c: string, d: string)
    ensures a + b + c + d == a + (b + c + d)
  {
  }

  lemma KeyLineText(key: string, v: string)
    requires PlainKey(key)
    ensures TrimEnd(key + ": " + StripCrs(v)) == LineFor(key, v)
  {
    var w := StripCrs(v);
    assert key + ": " + w == key + ":" + (" " + w);
    TrimEndKey(key, " " + w);
  }

  lemma LogicalLineOf(raw: string, pad: string, s: string)
    requires StripCrs(raw) == pad + s && Pad(pad)
    requires s != "" && s[0] != ' ' && TrimEnd(s) != "" && s[0] != '#'
    ensures LogicalLine(raw) == Some(Line(|pad|, TrimEnd(s)))
  {
    TrimBlanksPad(pad, s);
  }

  /** The printed line `key: v`, with any carriage returns, is read as the key and the value trimmed. */
  lemma FieldLineReads(pad: string, key: string, v: string)
    requires Pad(pad) && PlainKey(key)
    ensures LogicalLine(StripCr(pad + key + ": " + v)) == Some(Line(|pad|, LineFor(key, v)))
    ensures SplitKeyValue(LineFor(key, v)) == Some((key, Trim(v)))
  {
    KeyLineSplits(key, v);
    KeyLineContent(pad, key, v);
    KeyLineText(key, v);
    LogicalLineOf(StripCr(pad + key + ": " + v), pad, key + ": " + StripCrs(v));
  }

  lemma PadIsSpace(pad: string)
    requires Pad(pad)
    ensures AllSpace(pad)
  {
  }

  lemma KeptFirst(s: string)
    requires s != "" && !IsSpace(s[0])
    ensures Trim(s) != "" && Trim(s)[0] == s[0]
  {
    assert TrimStart(s) == s;
  }

  lemma NotDelimiter(pad: string, s: string)
    requires Pad(pad) && s != "" && !IsSpace(s[0]) && s[0] != '-'
    ensures !IsDelimiter(pad + s)
  {
    PadIsSpace(pad);
    TrimStartSpaces(pad, s);
    KeptFirst(s);
    assert Trim(pad + s)[0] == s[0];
  }

  lemma FieldLineGood(pad: string, key: string, x: string)
    requires Pad(pad) && PlainKey(key) && NoNewline(x)
    ensures GoodLine(pad + key + x)
  {
    hide IsDelimiter;
    NotDelimiter(pad, key + x + "\n");
    assert pad + key + x + "\n" == pad + (key + x + "\n");
    assert NoNewline(pad);
  }

  lemma HeaderLineReads()
    ensures GoodLine("provenance:")
    ensures LogicalLine(StripCr("provenance:")) == Some(Line(0, "provenance:"))
    ensures SplitKeyValue("provenance:") == Some(("provenance", ""))
  {
    hide LogicalLine, SplitKeyValue, GoodLine, PlainKey;
    LettersArePlain("provenance");
    assert "" + "provenance" + ":" == "provenance:";
    FieldLineGood("", "provenance", ":");
    BareKeyReads("provenance");
    assert "provenance" + ":" == "provenance:";
  }

  lemma BareKeyReads(key: string)
    requires PlainKey(key)
    ensures LogicalLine(StripCr(key + ":")) == Some(Line(0, key + ":"))
    ensures SplitKeyValue(key + ":") == Some((key, ""))
  {
    assert LogicalLine(StripCr(key + ":")) == Some(Line(0, key + ":")) by { BareKeyLine(key + ":"); }
    BareKeySplits(key);
  }

  lemma BareKeyLine(s: string)
    requires s != "" && s[0] != ' ' && s[0] != '#' && s[|s| - 1] == ':'
    ensures LogicalLine(StripCr(s)) == Some(Line(0, s))
  {
    assert StripCrs(s) == "" + s by {
      StripCrsConcat(s, "");
      assert s + "" == s;
    }
    assert TrimEnd(s) == s by { TrimEndLast(s); }
    assert StripCr(s) == s;
    LogicalLineOf(s, "", s);
  }

  lemma BareKeySplits(key: string)
    requires PlainKey(key)
    ensures SplitKeyValue(key + ":") == Some((key, ""))
  {
    hide Trim;
    assert key + ":" == key + [':'] + "";
    SplitOnceAt(key, ':', "");
    TrimFixpoint(key);
    TrimFixpoint("");
  }

  // Several lines

  lemma {:induction false} ReadLinesConcat(a: seq<string>, b: seq<string>)
    ensures ReadLines(a + b) == ReadLines(a) + ReadLines(b)
  {
    if a == [] {
      assert a + b == b;
    } else {
      hide ReadLine;
      assert (a + b)[1..] == a[1..] + b && (a + b)[0] == a[0];
      ReadLinesConcat(a[1..], b);
      assert ReadLine(a[0]) + (ReadLines(a[1..]) + ReadLines(b)) == ReadLine(a[0]) + ReadLines(a[1..]) + ReadLines(b);
    }
  }

  lemma {:induction false} UnlinesRead(ls: seq<string>)
    requires GoodLines(ls)
    ensures LogicalLines(Lines(Unlines(ls))) == ReadLines(ls)
  {
    if ls != [] {
      assert GoodLine(ls[0]);
      LinesCons(ls[0], Unlines(ls[1..]));
      UnlinesRead(ls[1..]);
      assert ([StripCr(ls[0])] + Lines(Unlines(ls[1..])))[1..] == Lines(Unlines(ls[1..]));
    }
  }

  /** The closing delimiter that is found is the printed one, whatever the body holds. */
  lemma {:induction false} ClosingFound(ls: seq<string>, body: string)
    requires GoodLines(ls)
    ensures SplitAtClosing(Unlines(ls) + "---\n" + body) == Some((Unlines(ls), body))
  {
    if ls == [] {
      var text := "" + "---\n" + body;
      assert text == "---" + "\n" + body;
      FirstLineOf("---", body);
      DelimiterIsDelimiter();
    } else {
      var l, rest := ls[0], Unlines(ls[1..]) + "---\n" + body;
      assert Unlines(ls) + "---\n" + body == l + "\n" + rest;
      assert GoodLine(ls[0]);
      FirstLineOf(l, rest);
      ClosingFound(ls[1..], body);
    }
  }

  lemma DelimiterIsDelimiter()
    ensures IsDelimiter("---\n")
  {
    var s := "---\n";
    assert TrimStart(s) == s;
    assert s == "---" + "\n";
    TrimEndLast("\n");
    assert AllSpace("\n");
    TrimEndConcat("---", "\n");
    TrimEndLast("---");
  }

  lemma OpeningStripped(rest: string)
    ensures StripOpening("---\n" + rest) == Some(rest)
  {
    assert "---\n" + rest == "---" + "\n" + rest;
    FirstLineOf("---", rest);
    DelimiterIsDelimiter();
  }

  // Single steps of the block parser

  /** One step of `ParseLines` at a key with nothing after its colon. */
  lemma StepBlock(lines: seq<Line>, key: string, p: Progress, n: nat)
    requires lines != [] && lines[0].indent == 0 && SplitKeyValue(lines[0].content) == Some((key, ""))
    requires n == IndentedPrefix(lines[1..])
    ensures ParseLines(lines, p) == ParseLines(lines[1 + n..], ApplyBlock(p, key, lines[1..1 + n]))
  {
    hide ApplyBlock, ApplyScalar, SplitKeyValue, IndentedPrefix;
  }

  /** One step of `ParseLines` at a key with a value. */
  lemma StepScalar(lines: seq<Line>, key: string, value: string, p: Progress)
    requires lines != [] && lines[0].indent == 0 && SplitKeyValue(lines[0].content) == Some((key, value))
    requires value != ""
    ensures ParseLines(lines, p) == ParseLines(lines[1..], ApplyScalar(p, key, value))
  {
    hide ApplyBlock, ApplyScalar, SplitKeyValue, IndentedPrefix;
  }

  /** One step of `ParseLines` at a line that is skipped. */
  lemma StepSkipped(lines: seq<Line>, p: Progress)
    requires lines != []
    ensures lines[0].indent != 0
      ==> ParseLines(lines, p) == ParseLines(lines[1..], p.Warn(IndentedLine(lines[0].content)))
    ensures lines[0].indent == 0 && SplitKeyValue(lines[0].content) == None
      ==> ParseLines(lines, p) == ParseLines(lines[1..], p.Warn(NoKey(lines[0].content)))
  {
    hide ApplyBlock, ApplyScalar, SplitKeyValue, IndentedPrefix;
  }

  lemma NothingParsed(p: Progress)
    ensures ParseLines([], p) == p
  {
  }
}

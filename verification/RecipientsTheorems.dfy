/**
 What editing the recipients file does to the recipients.
 */
module RecipientsTheorems {
  import opened Wrappers
  import opened Text
  import opened Recipients

  // Lines

  lemma TrimStripCr(s: string)
    ensures Trim(StripCr(s)) == Trim(s)
  {
    if s != "" && s[|s| - 1] == '\r' {
      var a := s[..|s| - 1];
      assert s == a + "\r";
      assert TrimEnd("\r") == "" by { TrimEndLast("\r"); }
      TrimEndConcat(a, "\r");
      TrimCommutes(s);
      TrimCommutes(a);
    }
  }

  lemma SameLine(a: string, b: string, read: KeyReader)
    requires Trim(a) == Trim(b)
    ensures ParseLine(a, read) == ParseLine(b, read)
  {
  }

  lemma ParseSingle(line: string, read: KeyReader)
    requires NoNewline(line)
    ensures Parse(line, read) == ParseLine(line, read)
  {
    if line == "" {
      assert Trim("") == "";
    } else {
      FirstLineWhole(line);
      hide ParseLine;
      assert Lines(line) == [line] by { assert line[|line|..] == ""; }
      assert ParseLines([line], read) == ParseLine(line, read) + [];
    }
  }

  lemma ParseLinesCons(line: string, rest: seq<string>, read: KeyReader)
    ensures ParseLines([line] + rest, read) == ParseLine(line, read) + ParseLines(rest, read)
  {
    hide ParseLine;
    assert ([line] + rest)[1..] == rest;
  }

  /** Reading two texts one after the other. */
  lemma {:induction false} ParseConcat(a: string, b: string, read: KeyReader)
    ensures Parse(a + "\n" + b, read) == Parse(a, read) + Parse(b, read)
    decreases |a|
  {
    hide ParseLine, Trim, Lines, ParseLines, StripCr;
    if NoNewline(a) {
      LinesCons(a, b);
      ParseSingle(a, read);
      TrimStripCr(a);
      SameLine(StripCr(a), a, read);
      ParseLinesCons(StripCr(a), Lines(b), read);
    } else {
      var l, rest := FirstLineSplit(a);
      LinesCons(l, rest);
      LinesCons(l, rest + "\n" + b);
      assert a + "\n" + b == l + "\n" + (rest + "\n" + b);
      ParseConcat(rest, b, read);
      ParseLinesCons(StripCr(l), Lines(rest), read);
      ParseLinesCons(StripCr(l), Lines(rest + "\n" + b), read);
      assert ParseLine(StripCr(l), read) + (Parse(rest, read) + Parse(b, read))
          == ParseLine(StripCr(l), read) + Parse(rest, read) + Parse(b, read);
    }
  }

  lemma FirstLineSplit(a: string) returns (l: string, rest: string)
    requires !NoNewline(a)
    ensures NoNewline(l) && a == l + "\n" + rest && |rest| < |a|
  {
    hide FirstLine, NoNewline;
    NotEmpty(a);
    FirstLineShape(a);
    var line := FirstLine(a);
    l, rest := line[..|line| - 1], a[|line|..];
    assert line == l + [line[|line| - 1]];
    assert a == a[..|line|] + rest;
  }

  lemma NotEmpty(a: string)
    requires !NoNewline(a)
    ensures a != ""
  {
  }

  lemma {:induction false} LastLine(a: string, line: string)
    requires NoNewline(line)
    ensures StripCr(line) in Lines(a + "\n" + line + "\n")
    decreases |a|
  {
    hide Lines, StripCr;
    LinesCons(line, "");
    assert line + "\n" + "" == line + "\n";
    if NoNewline(a) {
      LinesCons(a, line + "\n");
      assert a + "\n" + line + "\n" == a + "\n" + (line + "\n");
    } else {
      var l, rest := FirstLineSplit(a);
      LinesCons(l, rest + "\n" + line + "\n");
      assert a + "\n" + line + "\n" == l + "\n" + (rest + "\n" + line + "\n");
      LastLine(rest, line);
    }
  }

  // Words

  lemma {:induction false} FirstWordOf(w: string, rest: string)
    requires forall c :: c in w ==> !IsSpace(c)
    requires rest != "" ==> IsSpace(rest[0])
    ensures FirstWord(w + rest) == w
  {
    if w == "" {
      assert w + rest == rest;
    } else {
      assert (w + rest)[1..] == w[1..] + rest;
      assert w[0] in w && forall c :: c in w[1..] ==> c in w;
      FirstWordOf(w[1..], rest);
    }
  }

  predicate IsWord(w: string) { w != "" && forall c :: c in w ==> !IsSpace(c) }

  lemma TwoWords(a: string, b: string)
    requires IsWord(a) && IsWord(b)
    ensures Words(a + " " + b) == [a, b]
  {
    var s := a + " " + b;
    assert s == a + (" " + b);
    FirstWordOf(a, " " + b);
    assert s[0] == a[0] && a[0] in a;
    assert s[|a|..] == " " + b && (" " + b)[1..] == b;
    assert b + "" == b;
    FirstWordOf(b, "");
    assert b[0] in b;
    assert Words(b) == [b] + Words(b[|b|..]) && b[|b|..] == "";
    assert Words(" " + b) == Words(b);
  }

  lemma FirstOfWords(s: string)
    requires s != "" && !IsSpace(s[0])
    ensures Words(s) != [] && Words(s)[0] != "" && Words(s)[0][0] == s[0]
  {
  }

  // Entries

  /** A label that a line can carry. */
  predicate GoodTag(tag: string) { IsWord(tag) && tag[0] != '#' }

  predicate ReadableKey(recipient: Recipient, read: KeyReader) {
    IsWord(recipient.key) && read(recipient.key) == Some(recipient)
  }

  predicate GoodEntry(e: Entry) { GoodTag(e.tag) && e.kind == KindOf(e.tag) }

  lemma RenderedLine(e: Entry, read: KeyReader)
    requires GoodEntry(e) && ReadableKey(e.recipient, read)
    ensures var line := RenderLine(e);
      && NoNewline(line) && line != "" && line[0] == e.tag[0] && Trimmed(line) && line[|line| - 1] != '\r'
  {
    var line := RenderLine(e);
    assert line[0] == e.tag[0] && e.tag[0] in e.tag;
    var last := e.recipient.key[|e.recipient.key| - 1];
    assert line[|line| - 1] == last && last in e.recipient.key;
    assert forall c :: c in line ==> c in e.tag || c == ' ' || c in e.recipient.key;
  }

  lemma RenderedIsRead(e: Entry, read: KeyReader)
    requires GoodEntry(e) && ReadableKey(e.recipient, read)
    ensures ParseLine(RenderLine(e), read) == [e]
    ensures NoNewline(RenderLine(e)) && Trim(RenderLine(e)) == RenderLine(e) && StripCr(RenderLine(e)) == RenderLine(e)
  {
    hide Words, Trim, Trimmed, KindOf, IsSpace;
    RenderedLine(e, read);
    TrimFixpoint(RenderLine(e));
    TwoWords(e.tag, e.recipient.key);
  }

  /** Whatever the text, every entry that is read has a label some line can carry, and the kind that label says. */
  lemma ParsedLineIsGood(line: string, read: KeyReader)
    ensures forall e :: e in ParseLine(line, read) ==> GoodEntry(e)
  {
    hide Words, Trim, IsSpace, KindOf;
    TrimFixpoint(line);
    var trimmed := Trim(line);
    if !IsComment(trimmed) {
      FirstOfWords(trimmed);
      assert Words(trimmed)[0] in Words(trimmed);
    }
  }

  lemma {:induction false} ParsedIsGood(lines: seq<string>, read: KeyReader)
    ensures forall e :: e in ParseLines(lines, read) ==> GoodEntry(e)
  {
    if lines != [] {
      ParsedLineIsGood(lines[0], read);
      ParsedIsGood(lines[1..], read);
    }
  }

  // Append

  lemma NothingParses(read: KeyReader)
    ensures Parse("", read) == []
  {
  }

  lemma EndedParses(text: string, rest: string, read: KeyReader)
    ensures Parse(EndLine(text) + rest, read) == Parse(text, read) + Parse(rest, read)
  {
    hide Parse;
    if text != "" && text[|text| - 1] == '\n' {
      var a := text[..|text| - 1];
      assert text == a + "\n" && text == a + "\n" + "" && text + rest == a + "\n" + rest;
      ParseConcat(a, rest, read);
      ParseConcat(a, "", read);
      NothingParses(read);
    } else {
      ParseConcat(text, rest, read);
      assert EndLine(text) + rest == text + "\n" + rest;
    }
  }

  lemma AppendedParses(text: string, e: Entry, header: string, read: KeyReader)
    requires Parse(header, read) == [] && !HasLine(text, RenderLine(e))
    ensures Parse(Append(text, e, header), read) == Parse(text, read) + Parse(RenderLine(e), read)
  {
    hide ParseLine, ParseLines, Lines;
    var base := if text == "" then header else text;
    NothingParses(read);
    EndedParses(base, RenderLine(e) + "\n", read);
    ParseConcat(RenderLine(e), "", read);
    assert RenderLine(e) + "\n" + "" == RenderLine(e) + "\n";
    assert EndLine(base) + (RenderLine(e) + "\n") == EndLine(base) + RenderLine(e) + "\n";
  }

  /**
   Appending an entry that is not there yet adds exactly that entry at the end, if and only if its label is one word
   that does not start a comment and its kind is what the label says.
   */
  lemma AppendAddsIff(text: string, e: Entry, header: string, read: KeyReader)
    requires Parse(header, read) == [] && !HasLine(text, RenderLine(e)) && ReadableKey(e.recipient, read)
    ensures Parse(Append(text, e, header), read) == Parse(text, read) + [e] <==> GoodEntry(e)
  {
    hide ParseLine, ParseLines, Lines, Append, GoodEntry;
    AppendedParses(text, e, header, read);
    if GoodEntry(e) {
      RenderedIsRead(e, read);
      ParseSingle(RenderLine(e), read);
    }
    if Parse(Append(text, e, header), read) == Parse(text, read) + [e] {
      assert e in Parse(Append(text, e, header), read);
      ParsedIsGood(Lines(Append(text, e, header)), read);
    }
  }

  /** Either way the entry is there afterwards. */
  lemma AppendedIsThere(text: string, e: Entry, header: string, read: KeyReader)
    requires Parse(header, read) == [] && ReadableKey(e.recipient, read) && GoodEntry(e)
    ensures e in Parse(Append(text, e, header), read)
    ensures HasLine(text, RenderLine(e)) ==> Append(text, e, header) == text
  {
    hide ParseLine, ParseLines, Lines, GoodEntry;
    RenderedIsRead(e, read);
    if HasLine(text, RenderLine(e)) {
      var l :| l in Lines(text) && Trim(l) == RenderLine(e);
      SameLine(l, RenderLine(e), read);
      LineIsParsed(Lines(text), l, read);
    } else {
      AppendAddsIff(text, e, header, read);
    }
  }

  lemma {:induction false} LineIsParsed(lines: seq<string>, l: string, read: KeyReader)
    requires l in lines
    ensures forall e :: e in ParseLine(l, read) ==> e in ParseLines(lines, read)
  {
    hide ParseLine;
    if l != lines[0] { LineIsParsed(lines[1..], l, read); }
  }

  lemma OnceHasLine(text: string, e: Entry, header: string)
    requires !HasLine(text, RenderLine(e)) && NoNewline(RenderLine(e)) && Trimmed(RenderLine(e))
    ensures HasLine(Append(text, e, header), RenderLine(e))
  {
    hide Lines, HasLine, RenderLine, Trim;
    var line, base := RenderLine(e), EndLine(if text == "" then header else text);
    var a := base[..|base| - 1];
    assert base == a + "\n" && Append(text, e, header) == a + "\n" + line + "\n";
    LastLine(a, line);
    TrimFixpoint(line);
    assert IsSpace('\r') && StripCr(line) == line;
    LineIsThere(Append(text, e, header), line, line);
  }

  lemma LineIsThere(text: string, l: string, line: string)
    requires l in Lines(text) && Trim(l) == line
    ensures HasLine(text, line)
  {
  }

  lemma OnlySuchLines(text: string, line: string)
    requires HasLine(text, line)
    ensures NoNewline(line) && Trimmed(line)
  {
    hide Lines, Trim;
    var l :| l in Lines(text) && Trim(l) == line;
    LinesAreLines(text);
    TrimFixpoint(l);
  }

  /** Appending twice is appending once, if and only if the line of the entry is a single line without outer spaces. */
  lemma AppendTwiceIff(text: string, e: Entry, header: string)
    requires !HasLine(text, RenderLine(e))
    ensures Append(Append(text, e, header), e, header) == Append(text, e, header)
       <==> NoNewline(RenderLine(e)) && Trimmed(RenderLine(e))
  {
    hide Lines, HasLine, RenderLine, Trimmed;
    var line, once := RenderLine(e), Append(text, e, header);
    if NoNewline(line) && Trimmed(line) { OnceHasLine(text, e, header); }
    if HasLine(once, line) {
      OnlySuchLines(once, line);
    } else {
      assert |Append(once, e, header)| > |once|;
    }
  }

  /** A text of comments, such as the header of a new file, names no recipient. */
  lemma {:induction false} CommentsParse(lines: seq<string>, read: KeyReader)
    requires forall l :: l in lines ==> NoNewline(l) && l != "" && l[0] == '#'
    ensures Parse(Unlines(lines), read) == []
  {
    if lines == [] {
    } else {
      assert lines[0] in lines && forall l :: l in lines[1..] ==> l in lines;
      hide Parse, Unlines;
      CommentsParse(lines[1..], read);
      UnlinesFirst(lines);
      ParseConcat(lines[0], Unlines(lines[1..]), read);
      ParseSingle(lines[0], read);
      CommentIsNothing(lines[0], read);
    }
  }

  lemma UnlinesFirst(lines: seq<string>)
    requires lines != []
    ensures Unlines(lines) == lines[0] + "\n" + Unlines(lines[1..])
  {
  }

  lemma CommentIsNothing(line: string, read: KeyReader)
    requires line != "" && line[0] == '#'
    ensures ParseLine(line, read) == []
  {
    assert TrimStart(line) == line;
    TrimEndLast(line);
    assert TrimEnd(line) <= line;
  }

  // Remove

  function Others(entries: seq<Entry>, tag: string): (rest: seq<Entry>)
    ensures forall e :: e in rest <==> e in entries && e.tag != tag
  {
    if entries == [] then []
    else (if entries[0].tag == tag then [] else [entries[0]]) + Others(entries[1..], tag)
  }

  lemma {:induction false} OthersConcat(a: seq<Entry>, b: seq<Entry>, tag: string)
    ensures Others(a + b, tag) == Others(a, tag) + Others(b, tag)
  {
    if a == [] {
      assert a + b == b;
    } else {
      assert (a + b)[1..] == a[1..] + b;
      OthersConcat(a[1..], b, tag);
    }
  }

  lemma OthersOnLine(line: string, tag: string, read: KeyReader)
    ensures Others(ParseLine(line, read), tag) == if Matches(line, tag) then [] else ParseLine(line, read)
  {
    var entries := ParseLine(line, read);
    if entries != [] {
      assert |entries| == 1 && entries[1..] == [];
      assert Others([], tag) == [];
    }
  }

  lemma KeptCons(line: string, rest: seq<string>, tag: string)
    ensures Kept([line] + rest, tag) == (if Matches(line, tag) then [] else [line]) + Kept(rest, tag)
  {
    hide Matches;
    assert ([line] + rest)[1..] == rest;
  }

  lemma {:induction false} KeptParses(lines: seq<string>, tag: string, read: KeyReader)
    ensures ParseLines(Kept(lines, tag), read) == Others(ParseLines(lines, read), tag)
  {
    if lines == [] {
      assert Others([], tag) == [];
    } else {
      var line, rest := lines[0], lines[1..];
      hide ParseLine, Matches, Others, ParseLines, Kept;
      assert lines == [line] + rest;
      KeptParses(rest, tag, read);
      KeptCons(line, rest, tag);
      ParseLinesCons(line, rest, read);
      ParseLinesCons(line, Kept(rest, tag), read);
      OthersConcat(ParseLine(line, read), ParseLines(rest, read), tag);
      OthersOnLine(line, tag, read);
      assert [] + Kept(rest, tag) == Kept(rest, tag)
        && [] + Others(ParseLines(rest, read), tag) == Others(ParseLines(rest, read), tag);
    }
  }

  lemma {:induction false} JoinParses(lines: seq<string>, read: KeyReader)
    requires forall l :: l in lines ==> NoNewline(l)
    ensures Parse(JoinLines(lines), read) == ParseLines(lines, read)
  {
    if lines != [] {
      assert lines[0] in lines && forall l :: l in lines[1..] ==> l in lines;
      hide ParseLine, Parse;
      ParseSingle(lines[0], read);
      if |lines| == 1 {
        assert lines[1..] == [];
        assert ParseLine(lines[0], read) + [] == ParseLine(lines[0], read);
      } else {
        JoinParses(lines[1..], read);
        ParseConcat(lines[0], JoinLines(lines[1..]), read);
      }
    }
  }

  lemma {:induction false} KeptAreLines(lines: seq<string>, tag: string)
    ensures forall l :: l in Kept(lines, tag) ==> l in lines
  {
    hide Matches;
    if lines != [] { KeptAreLines(lines[1..], tag); }
  }

  lemma {:induction false} NoneMatches(lines: seq<string>, tag: string)
    requires !AnyMatches(lines, tag)
    ensures Kept(lines, tag) == lines
  {
    hide Matches;
    if lines != [] {
      assert !Matches(lines[0], tag) && forall l :: l in lines[1..] ==> l in lines;
      NoneMatches(lines[1..], tag);
    }
  }

  /** Removing a label removes exactly its entries and leaves the others as they were, in order. */
  lemma RemoveKeepsOthers(text: string, tag: string, read: KeyReader)
    ensures Parse(Remove(text, tag).0, read) == Others(Parse(text, read), tag)
  {
    hide ParseLine, Others, Matches, AnyMatches, Lines, ParseLines, Kept, JoinLines;
    var lines := Lines(text);
    KeptParses(lines, tag, read);
    if AnyMatches(lines, tag) {
      var kept := Kept(lines, tag);
      KeptAreLines(lines, tag);
      LinesAreLines(text);
      JoinParses(kept, read);
      var rest := JoinLines(kept);
      if rest != "" {
        ParseConcat(rest, "", read);
        assert rest + "\n" + "" == rest + "\n";
        NothingParses(read);
      }
    } else {
      NoneMatches(lines, tag);
    }
  }

  /** It reports a removal whenever an entry went. */
  lemma RemovalIsReported(text: string, tag: string, read: KeyReader)
    requires exists e :: e in Parse(text, read) && e.tag == tag
    ensures Remove(text, tag).1
  {
    hide ParseLine, Matches, Lines, ParseLines;
    if !AnyMatches(Lines(text), tag) {
      NoneMatches(Lines(text), tag);
      KeptParses(Lines(text), tag, read);
      assert false;
    }
  }

  /** The text begins with this word, and it is no comment. */
  predicate BeginsWithWord(s: string, word: string) {
    && word != "" && word[0] != '#' && (forall c :: c in word ==> !IsSpace(c))
    && word <= s && (|s| > |word| ==> IsSpace(s[|word|]))
  }

  lemma {:induction false} FirstWordEnds(s: string)
    ensures |FirstWord(s)| < |s| ==> IsSpace(s[|FirstWord(s)|])
  {
    if s != "" && !IsSpace(s[0]) {
      FirstWordEnds(s[1..]);
      assert FirstWord(s) == [s[0]] + FirstWord(s[1..]);
    }
  }

  lemma MatchesIff(line: string, tag: string)
    ensures Matches(line, tag) <==> BeginsWithWord(Trim(line), tag)
  {
    var s := Trim(line);
    TrimFixpoint(line);
    hide Trim, IsSpace, FirstWord;
    if s != "" && s[0] != '#' {
      assert !IsSpace(s[0]);
      FirstWordEnds(s);
      assert Words(s)[0] == FirstWord(s) && FirstWord(s) != "" && FirstWord(s) <= s;
      if BeginsWithWord(s, tag) {
        FirstWordOf(tag, s[|tag|..]);
        assert s == tag + s[|tag|..];
      }
    }
  }

  /** Exactly the lines that begin with the label are removed, and that is reported exactly if there is one. */
  lemma {:induction false} KeptIff(lines: seq<string>, tag: string, l: string)
    ensures l in Kept(lines, tag) <==> l in lines && !BeginsWithWord(Trim(l), tag)
  {
    hide Matches, BeginsWithWord, Trim;
    MatchesIff(l, tag);
    if lines != [] {
      KeptIff(lines[1..], tag, l);
      assert l in lines <==> l == lines[0] || l in lines[1..];
    }
  }

  lemma RemovalReportedIff(text: string, tag: string)
    ensures Remove(text, tag).1 <==> exists l :: l in Lines(text) && BeginsWithWord(Trim(l), tag)
    ensures !Remove(text, tag).1 ==> Remove(text, tag).0 == text
    ensures var left := Remove(text, tag).0; Remove(text, tag).1 && left != "" ==> left[|left| - 1] == '\n'
  {
    hide Matches, BeginsWithWord, Trim, Lines, Kept;
    forall l ensures Matches(l, tag) <==> BeginsWithWord(Trim(l), tag) { MatchesIff(l, tag); }
  }

  /** Adding an entry keeps the text there is. */
  lemma AppendKeepsText(text: string, e: Entry, header: string)
    ensures text <= Append(text, e, header)
  {
    hide HasLine, RenderLine;
  }

  lemma ThreeWords(a: string, b: string, rest: string)
    requires IsWord(a) && IsWord(b) && IsWord(rest)
    ensures Words(a + " " + b + " " + rest) == [a, b, rest]
  {
    var s, t := a + " " + b + " " + rest, b + " " + rest;
    assert s == a + (" " + t);
    FirstWordOf(a, " " + t);
    assert s[0] == a[0] && a[0] in a;
    assert s[|a|..] == " " + t && (" " + t)[1..] == t;
    TwoWords(b, rest);
    assert Words(" " + t) == Words(t);
  }

  /** A line is an entry only if it has two words, the first no comment and the second a key that can be read. */
  lemma OtherLinesAreSkipped(a: string, b: string, rest: string, read: KeyReader)
    requires IsWord(a) && IsWord(b) && IsWord(rest)
    ensures ParseLine(a, read) == []
    ensures ParseLine(a + " " + b + " " + rest, read) == []
    ensures a[0] == '#' || read(b) == None ==> ParseLine(a + " " + b, read) == []
    ensures a[0] != '#' ==>
      forall key :: read(b) == Some(key) ==> ParseLine(a + " " + b, read) == [Entry(a, KindOf(a), key)]
  {
    EndsInWords(a, b);
    EndsInWords(a + " " + b, rest);
    OneWord(a);
    hide Trim, Words, IsSpace;
    ThreeWords(a, b, rest);
    TwoWords(a, b);
  }

  lemma OneWord(a: string)
    requires IsWord(a)
    ensures Trim(a) == a && Words(a) == [a]
  {
    FirstWordOf(a, "");
    assert a + "" == a && a[0] in a && a[|a|..] == "" && a[|a| - 1] in a;
    assert Words(a) == [a] + Words("");
    hide Trim, Words;
    TrimFixpoint(a);
  }

  lemma EndsInWords(a: string, b: string)
    requires a != "" && !IsSpace(a[0]) && IsWord(b)
    ensures Trim(a + " " + b) == a + " " + b && (a + " " + b)[0] == a[0]
  {
    var s := a + " " + b;
    assert s[0] == a[0] && s[|s| - 1] == b[|b| - 1] && b[|b| - 1] in b;
    hide Trim;
    TrimFixpoint(s);
  }

  /** What the kind of a label is. */
  lemma KindMeans(rest: string, tag: string)
    ensures KindOf("device:" + rest) == Device && KindOf("recovery:" + rest) == Recovery
    ensures KindOf(tag) == OtherKind <==> !("device:" <= tag) && !("recovery:" <= tag)
  {
    assert ("device:" + rest)[0] == 'd' && ("recovery:" + rest)[0] == 'r';
    assert "device:"[0] == 'd' && "recovery:"[0] == 'r';
  }

  /** Removing again changes nothing. */
  lemma RemoveTwice(text: string, tag: string, read: KeyReader)
    ensures Parse(Remove(Remove(text, tag).0, tag).0, read) == Parse(Remove(text, tag).0, read)
  {
    hide Parse, Remove;
    RemoveKeepsOthers(text, tag, read);
    RemoveKeepsOthers(Remove(text, tag).0, tag, read);
    OthersTwice(Parse(text, read), tag);
  }

  lemma {:induction false} OthersTwice(entries: seq<Entry>, tag: string)
    ensures Others(Others(entries, tag), tag) == Others(entries, tag)
  {
    if entries != [] {
      var rest := Others(entries[1..], tag);
      OthersTwice(entries[1..], tag);
      if entries[0].tag == tag {
        assert Others(entries, tag) == rest;
      } else {
        OthersConcat([entries[0]], rest, tag);
        assert [entries[0]][1..] == [] && Others([entries[0]], tag) == [entries[0]];
      }
    }
  }
}

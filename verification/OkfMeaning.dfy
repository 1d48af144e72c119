/**
 What a written field means, key by key and word by word, and what is warned about.
 */
module OkfMeaning {
  import opened Wrappers
  import opened Text
  import opened Okf
  import opened OkfLines
  import opened OkfRoundTrip
  import opened OkfCanonical
  import opened OkfBlocks

  /** A file whose frontmatter is the one line `name: value`. */
  function OneField(name: string, value: string, body: string): string {
    FileOf([Field(name, Some(value))], body)
  }

  /** Text as it may stand behind a colon. */
  predicate PlainText(v: string) {
    NoNewline(v) && Trimmed(v) && !QuoteWrapped(v) && v != "" && v != "null" && v != "~"
  }

  lemma FieldParses(name: string, value: string, body: string)
    requires ValidField(Field(name, Some(value))) && Trim(value) != ""
    ensures Parse(OneField(name, value, body))
         == Parsed(ApplyScalarField(EMPTY, KeyOf(name), Unquote(value)), body, [])
  {
    hide Parse, FileOf, KeyOf, Trim, Unquote, ApplyScalarField, ValidField;
    var fields := [Field(name, Some(value))];
    WrittenFileParses(fields, body);
    assert fields[1..] == [];
  }

  predicate ScalarName(name: string) {
    name in ["title", "type", "scope", "workspace", "visibility", "confidence", "expires", "updated", "tokens", "tags",
             "refs"]
  }

  lemma NamedFieldParses(name: string, value: string, body: string)
    requires ScalarName(name) && NoNewline(value) && Trim(value) != ""
    ensures Parse(OneField(name, value, body))
         == Parsed(ApplyScalarField(EMPTY, KeyOf(name), Unquote(value)), body, [])
  {
    hide Trim, Unquote, ApplyScalarField, Parse, FileOf, KeyOf;
    NameIsPlain(name);
    NamedKey(name);
    FieldParses(name, value, body);
  }

  lemma NamedKey(name: string)
    requires ScalarName(name)
    ensures ScalarKey(KeyOf(name))
  {
    hide KeyOf;
    KeyNames();
  }

  lemma NameIsPlain(name: string)
    requires ScalarName(name)
    ensures PlainKey(name)
  {
    hide PlainKey;
    LettersArePlain(name);
  }

  lemma PlainTextIsKept(v: string)
    requires PlainText(v)
    ensures Trim(v) == v && Unquote(v) == v && OptString(v) == Some(v)
  {
    hide Trim, Trimmed, QuoteWrapped;
    TrimFixpoint(v);
    UnquoteFixpoint(v);
  }

  /** Plain text behind a key, once it is known what it does to nothing. */
  lemma PlainFieldParses(name: string, v: string, body: string, fm: Frontmatter)
    requires ScalarName(name) && PlainText(v) && ApplyScalarField(EMPTY, KeyOf(name), v) == fm
    ensures Parse(OneField(name, v, body)) == Parsed(fm, body, [])
  {
    hide *;
    PlainTextIsKept(v);
    PlainIsOneLine(v);
    NamedFieldParses(name, v, body);
  }

  lemma Names()
    ensures ScalarName("title") && ScalarName("type") && ScalarName("scope") && ScalarName("workspace")
    ensures ScalarName("visibility") && ScalarName("confidence") && ScalarName("expires") && ScalarName("updated")
    ensures ScalarName("tokens") && ScalarName("tags") && ScalarName("refs")
  {
  }

  // Text

  /** Plain text, in quotes of either kind or in none, is read as itself into the field of its key. */
  lemma TextMeans(v: string, body: string)
    requires PlainText(v)
    ensures Parse(OneField("title", v, body)) == Parsed(EMPTY.(title := Some(v)), body, [])
    ensures Parse(OneField("workspace", v, body)) == Parsed(EMPTY.(workspace := Some(v)), body, [])
    ensures Parse(OneField("expires", v, body)) == Parsed(EMPTY.(expires := Some(v)), body, [])
    ensures Parse(OneField("updated", v, body)) == Parsed(EMPTY.(updated := Some(v)), body, [])
  {
    hide *;
    Names();
    TextApplied(v);
    PlainFieldParses("title", v, body, EMPTY.(title := Some(v)));
    PlainFieldParses("workspace", v, body, EMPTY.(workspace := Some(v)));
    PlainFieldParses("expires", v, body, EMPTY.(expires := Some(v)));
    PlainFieldParses("updated", v, body, EMPTY.(updated := Some(v)));
  }

  lemma TextApplied(v: string)
    requires PlainText(v)
    ensures ApplyScalarField(EMPTY, KeyOf("title"), v) == EMPTY.(title := Some(v))
    ensures ApplyScalarField(EMPTY, KeyOf("workspace"), v) == EMPTY.(workspace := Some(v))
    ensures ApplyScalarField(EMPTY, KeyOf("expires"), v) == EMPTY.(expires := Some(v))
    ensures ApplyScalarField(EMPTY, KeyOf("updated"), v) == EMPTY.(updated := Some(v))
  {
    PlainTextIsKept(v);
    KeyNames();
    hide KeyOf, Unquote, Trim, OptString, PlainText, ListOf, ParseTokens;
  }

  lemma PlainIsOneLine(v: string)
    requires PlainText(v)
    ensures NoNewline(v) && v != ""
  {
  }

  lemma QuotesMean(v: string, quote: char, body: string)
    requires NoNewline(v) && v != "" && v != "null" && v != "~" && (quote == '"' || quote == '\'')
    ensures Parse(OneField("title", [quote] + v + [quote], body)) == Parsed(EMPTY.(title := Some(v)), body, [])
  {
    var quoted := [quote] + v + [quote];
    assert NoNewline(quoted) && quoted != "" && ScalarName("title");
    TitleRead(v);
    hide *;
    Unquoted(v, quote);
    NamedFieldParses("title", quoted, body);
  }

  lemma TitleRead(v: string)
    requires v != "" && v != "null" && v != "~"
    ensures ApplyScalarField(EMPTY, KeyOf("title"), v) == EMPTY.(title := Some(v))
  {
    hide KeyOf, ListOf, ParseTokens;
    KeyNames();
  }

  lemma Unquoted(v: string, quote: char)
    requires quote == '"' || quote == '\''
    ensures var quoted := [quote] + v + [quote]; Trim(quoted) == quoted && Unquote(quoted) == v
  {
    var quoted := [quote] + v + [quote];
    assert quoted[0] == quote && quoted[|quoted| - 1] == quote && quoted[1..|quoted| - 1] == v;
    hide Trim;
    TrimFixpoint(quoted);
  }

  /** `null`, `~` and an empty string in quotes mean that there is no value, whatever the key. */
  lemma NullMeans(name: string, value: string, body: string)
    requires ScalarName(name) && (value == "null" || value == "~" || value == "\"\"" || value == "''")
    ensures Parse(OneField(name, value, body)) == Parsed(EMPTY, body, [])
  {
    hide *;
    NullUnquoted(value);
    NamedFieldParses(name, value, body);
    NamedKey(name);
    NullApplied(KeyOf(name), Unquote(value));
  }

  lemma NullUnquoted(value: string)
    requires value == "null" || value == "~" || value == "\"\"" || value == "''"
    ensures NoNewline(value) && Trim(value) != ""
    ensures Unquote(value) == "null" || Unquote(value) == "~" || Unquote(value) == ""
  {
    if value == "null" || value == "~" {
      assert Trimmed(value) && !QuoteWrapped(value) && NoNewline(value);
      hide Trim, Trimmed, QuoteWrapped, Unquote, NoNewline;
      TrimFixpoint(value);
      UnquoteFixpoint(value);
    } else {
      assert value == [value[0]] + "" + [value[0]] && NoNewline(value);
      hide Trim, Unquote, NoNewline;
      Unquoted("", value[0]);
    }
  }

  lemma NullApplied(key: Key, v: string)
    requires (v == "null" || v == "~" || v == "") && ScalarKey(key)
    ensures ApplyScalarField(EMPTY, key, v) == EMPTY
  {
    assert ListOf(v) == [] by { NullList(v); }
    hide ListOf, ParseTokens;
  }

  lemma NullList(v: string)
    requires v == "null" || v == "~" || v == ""
    ensures ListOf(v) == []
  {
    hide CleanItems, SplitCommas, Trim;
    assert "null"[0] == 'n' && "~"[0] == '~';
  }

  /** White space between the key and its colon does not matter, nor does any in front of the value. */
  lemma SpacedFieldParses(ws: string, gap: string, v: string, body: string)
    requires AllSpace(ws) && NoNewline(ws) && AllSpace(gap) && NoNewline(gap) && PlainText(v) && v[|v| - 1] != '\r'
    ensures Parse(LinesFile(["title" + ws + ":" + gap + v], body)) == Parsed(EMPTY.(title := Some(v)), body, [])
  {
    hide *;
    SpacedSplit(ws, gap, v);
    SpacedIsSolid(ws, gap, v);
    TitleLineParses("title" + ws + ":" + gap + v, v, body);
  }

  lemma TitleLineParses(l: string, v: string, body: string)
    requires SolidLine(l) && SplitKeyValue(l) == Some(("title", v)) && PlainText(v)
    ensures Parse(LinesFile([l], body)) == Parsed(EMPTY.(title := Some(v)), body, [])
  {
    hide *;
    TitleSet(v);
    FlushLineRead(l);
    OneGoodLine(l);
    LinesParse([l], body);
    var p, lines := Progress(EMPTY, []), [Line(0, l)];
    StepScalar(lines, "title", v, p);
    assert lines[1..] == [];
    NothingParsed(ApplyScalar(p, "title", v));
  }

  lemma OneGoodLine(l: string)
    requires GoodLine(l)
    ensures GoodLines([l])
  {
  }

  lemma TitleSet(v: string)
    requires PlainText(v)
    ensures ApplyScalar(Progress(EMPTY, []), "title", v) == Progress(EMPTY.(title := Some(v)), []) && v != ""
  {
    PlainTextIsKept(v);
    TitleRead(v);
    KeyNames();
    hide KeyOf, Unquote, Trim, ApplyScalarField, Trimmed, QuoteWrapped;
  }

  lemma KeyedLine(key: string, rest: string)
    requires ':' !in key && Trim(key) != ""
    ensures SplitKeyValue(key + ":" + rest) == Some((Trim(key), Trim(rest)))
  {
    hide Trim;
    assert key + ":" + rest == key + [':'] + rest;
    SplitOnceAt(key, ':', rest);
  }

  lemma SpacedSplit(ws: string, gap: string, v: string)
    requires AllSpace(ws) && AllSpace(gap) && PlainText(v)
    ensures SplitKeyValue("title" + ws + ":" + gap + v) == Some(("title", v))
  {
    var key := "title" + ws;
    assert ':' !in key;
    assert Trimmed("title");
    hide Trim, SplitKeyValue, Trimmed, AllSpace;
    assert key + ":" + gap + v == key + ":" + (gap + v);
    PlainIsTrimmed(v);
    TrimmedBefore(gap, v);
    TrimmedAfter("title", ws);
    KeyedLine(key, gap + v);
  }

  lemma PlainIsTrimmed(v: string)
    requires PlainText(v)
    ensures Trimmed(v) && v != ""
  {
  }

  lemma TrimmedBefore(gap: string, v: string)
    requires AllSpace(gap) && Trimmed(v) && v != ""
    ensures Trim(gap + v) == v
  {
    TrimStartSpaces(gap, v);
    assert Trim(v) == v by { TrimFixpoint(v); }
  }

  lemma TrimmedAfter(key: string, ws: string)
    requires AllSpace(ws) && Trimmed(key) && key != ""
    ensures Trim(key + ws) == key
  {
    assert TrimStart(key + ws) == key + ws;
    TrimEndConcat(key, ws);
    TrimEndLast(ws);
    TrimEndLast(key);
  }

  lemma SpacedIsSolid(ws: string, gap: string, v: string)
    requires NoNewline(ws) && NoNewline(gap) && PlainText(v) && v[|v| - 1] != '\r'
    ensures SolidLine("title" + ws + ":" + gap + v)
  {
    var l := "title" + ws + ":" + gap + v;
    assert l[0] == 't' && l[|l| - 1] == v[|v| - 1];
    assert forall c :: c in l ==> c in "title" || c in ws || c == ':' || c in gap || c in v;
  }

  // Words

  /** The fields with words of their own. */
  lemma WordsMean(v: string, body: string)
    requires PlainText(v)
    ensures Parse(OneField("type", v, body)) == Parsed(EMPTY.(itemType := Some(ItemTypeOf(v))), body, [])
    ensures Parse(OneField("scope", v, body)) == Parsed(EMPTY.(scope := Some(ScopeOf(v))), body, [])
    ensures Parse(OneField("visibility", v, body)) == Parsed(EMPTY.(visibility := Some(VisibilityOf(v))), body, [])
    ensures Parse(OneField("confidence", v, body)) == Parsed(EMPTY.(confidence := Some(ConfidenceOf(v))), body, [])
  {
    hide *;
    Names();
    WordsApplied(v);
    PlainFieldParses("type", v, body, EMPTY.(itemType := Some(ItemTypeOf(v))));
    PlainFieldParses("scope", v, body, EMPTY.(scope := Some(ScopeOf(v))));
    PlainFieldParses("visibility", v, body, EMPTY.(visibility := Some(VisibilityOf(v))));
    PlainFieldParses("confidence", v, body, EMPTY.(confidence := Some(ConfidenceOf(v))));
  }

  lemma WordsApplied(v: string)
    requires PlainText(v)
    ensures ApplyScalarField(EMPTY, KeyOf("type"), v) == EMPTY.(itemType := Some(ItemTypeOf(v)))
    ensures ApplyScalarField(EMPTY, KeyOf("scope"), v) == EMPTY.(scope := Some(ScopeOf(v)))
    ensures ApplyScalarField(EMPTY, KeyOf("visibility"), v) == EMPTY.(visibility := Some(VisibilityOf(v)))
    ensures ApplyScalarField(EMPTY, KeyOf("confidence"), v) == EMPTY.(confidence := Some(ConfidenceOf(v)))
  {
    PlainTextIsKept(v);
    KeyNames();
    hide KeyOf, Unquote, Trim, OptString, PlainText, ListOf, ParseTokens;
    hide ItemTypeOf, ScopeOf, VisibilityOf, ConfidenceOf;
  }

  lemma TypeWords(v: string)
    ensures ItemTypeOf("project-state") == ProjectState && ItemTypeOf("knowledge") == Knowledge
    ensures ItemTypeOf("reference") == Reference && ItemTypeOf("feedback") == Feedback
    ensures ItemTypeOf("skill") == Skill && ItemTypeOf("instruction") == Instruction && ItemTypeOf("memory") == Memory
    ensures v !in ["project-state", "knowledge", "reference", "feedback", "skill", "instruction", "memory"] ==>
      ItemTypeOf(v) == OtherType(v)
  {
    assert "reference"[0] == 'r' && "project-state"[0] == 'p' && "knowledge"[0] == 'k' && "feedback"[0] == 'f';
    assert "skill"[0] == 's' && "instruction"[0] == 'i' && "memory"[0] == 'm';
  }

  lemma OtherWords(v: string)
    ensures ScopeOf("user") == User && ScopeOf("project") == Project && ScopeOf("org") == Org
    ensures v !in ["user", "project", "org"] ==> ScopeOf(v) == OtherScope(v)
    ensures VisibilityOf("shared") == Shared && VisibilityOf("private") == Private
    ensures v !in ["shared", "private"] ==> VisibilityOf(v) == OtherVisibility(v)
    ensures ConfidenceOf("stated") == Stated && ConfidenceOf("inferred") == Inferred
    ensures ConfidenceOf("proposed") == Proposed
    ensures v !in ["stated", "inferred", "proposed"] ==> ConfidenceOf(v) == OtherConfidence(v)
    ensures SourceOf("conversation") == Conversation && SourceOf("file") == File && SourceOf("tool") == Tool
    ensures SourceOf("import") == Import
    ensures v !in ["conversation", "file", "tool", "import"] ==> SourceOf(v) == OtherSource(v)
  {
    assert "user"[0] == 'u' && "project"[0] == 'p' && "org"[0] == 'o' && "shared"[0] == 's' && "private"[0] == 'p';
    assert "stated"[0] == 's' && "inferred"[0] == 'i' && "proposed"[0] == 'p';
    assert "conversation"[0] == 'c' && "file"[0] == 'f' && "tool"[0] == 't' && "import"[0] == 'i';
  }

  // Numbers

  /** Tokens keep their text, and are the number that its digits make. */
  lemma TokensMean(v: string, body: string)
    requires PlainText(v)
    ensures Parse(OneField("tokens", v, body))
         == Parsed(EMPTY.(tokensRaw := Some(v), tokens := ParseTokens(v)), body, [])
  {
    hide *;
    Names();
    TokensApplied(v);
    PlainFieldParses("tokens", v, body, EMPTY.(tokensRaw := Some(v), tokens := ParseTokens(v)));
  }

  lemma TokensApplied(v: string)
    requires PlainText(v)
    ensures ApplyScalarField(EMPTY, KeyOf("tokens"), v) == EMPTY.(tokensRaw := Some(v), tokens := ParseTokens(v))
  {
    KeyNames();
    hide KeyOf, Unquote, Trim, ListOf, ParseTokens;
  }

  lemma {:induction false} DigitsOfDecimal(n: nat)
    ensures Digits(Decimal(n)) == Decimal(n) && Decimal(n) != "" && forall c :: c in Decimal(n) ==> IsDigit(c)
  {
    if n >= 10 {
      DigitsOfDecimal(n / 10);
      DigitsConcat(Decimal(n / 10), ['0' + (n % 10) as char]);
    }
    assert ['0' + (n % 10) as char][1..] == "";
  }

  lemma DigitsCons(c: char, s: string)
    ensures Digits([c] + s) == (if IsDigit(c) then [c] else "") + Digits(s)
    ensures Digits("") == ""
  {
    assert ([c] + s)[1..] == s;
  }

  lemma {:induction false} DigitsConcat(a: string, b: string)
    ensures Digits(a + b) == Digits(a) + Digits(b)
  {
    hide Digits, IsDigit;
    DigitsCons('0', "");
    if a == "" {
      assert a + b == b;
    } else {
      var c, rest := a[0], a[1..];
      DigitsCons(c, rest);
      DigitsCons(c, rest + b);
      assert a == [c] + rest && a + b == [c] + (rest + b);
      DigitsConcat(rest, b);
    }
  }

  lemma {:induction false} DecimalIsValue(n: nat)
    ensures (forall c :: c in Decimal(n) ==> IsDigit(c)) && DecimalValue(Decimal(n)) == n
  {
    DigitsOfDecimal(n);
    var d := Decimal(n);
    assert d[|d| - 1] == '0' + (n % 10) as char;
    if n < 10 {
      assert d[..|d| - 1] == "";
    } else {
      DecimalIsValue(n / 10);
      assert d[..|d| - 1] == Decimal(n / 10);
    }
  }

  /** A number is read as itself if it fits 32 bits, and whatever is no digit may stand in between. */
  lemma NumbersRead(n: nat, a: string, c: char, b: string)
    ensures ParseTokens(Decimal(n)) == if n < 0x1_0000_0000 then Some(n) else None
    ensures !('0' <= c <= '9') ==> ParseTokens(a + [c] + b) == ParseTokens(a + b)
    ensures ParseTokens("") == None
  {
    DigitsOfDecimal(n);
    DecimalIsValue(n);
    DigitsConcat(a + [c], b);
    DigitsConcat(a, [c]);
    DigitsConcat(a, b);
    assert [c][1..] == "";
    if !IsDigit(c) {
      assert Digits([c]) == "";
      assert Digits(a) + "" == Digits(a);
    }
  }

  /** A number of tokens without a text of its own is printed as the number and read back. */
  lemma CountIsPrinted(fm: Frontmatter, body: string, printable: Printable)
    requires SingleLine(fm) && fm.tokensRaw == None && fm.tokens.Some?
    ensures var read := Parse(Render(fm, printable) + body).frontmatter;
      read.tokens == fm.tokens && read.tokensRaw == Some(Decimal(fm.tokens.value))
  {
    hide Parse, Render, SingleLine, ReadBack, ParseTokens;
    var d := Decimal(fm.tokens.value);
    RenderThenParse(fm, body, printable);
    DecimalReadBack(fm.tokens.value);
    NumbersRead(fm.tokens.value, "", 'x', "");
    assert TokensValue(fm) == Some(d);
    hide TokensValue;
    TokensNormalize(fm, printable);
  }

  lemma TokensNormalize(fm: Frontmatter, printable: Printable)
    ensures Normalize(fm, printable).tokensRaw == ReadBack(TokensValue(fm))
    ensures Normalize(fm, printable).tokens == ReadBackTokens(TokensValue(fm))
  {
  }

  lemma DecimalReadBack(n: nat)
    ensures ReadBack(Some(Decimal(n))) == Some(Decimal(n))
  {
    DigitsOfDecimal(n);
    var s := Decimal(n);
    assert s[0] in s && s[|s| - 1] in s;
    hide *;
    DigitsAreBare(s);
    BareReadBack(s);
  }

  lemma DigitsAreBare(s: string)
    requires s != "" && IsDigit(s[0]) && IsDigit(s[|s| - 1])
    ensures BareKept(s)
  {
    assert "null"[0] == 'n' && "~"[0] == '~';
  }

  lemma BareReadBack(s: string)
    requires BareKept(s)
    ensures ReadBack(Some(s)) == Some(s)
  {
    hide BareKept, Unquote, OptString;
    BareIff(s);
  }

  // Lists on one line

  /** One word is a list of one item, and a printed list is its items. */
  lemma ListsMean(v: string, items: seq<string>, body: string)
    requires PlainText(v) && v[0] != '[' && ListCanonical(items) && items != []
    ensures Parse(OneField("tags", v, body)) == Parsed(EMPTY.(tags := [v]), body, [])
    ensures Parse(OneField("refs", v, body)) == Parsed(EMPTY.(refs := [v]), body, [])
    ensures var list := "[" + Join(items) + "]";
      && Parse(OneField("tags", list, body)) == Parsed(EMPTY.(tags := items), body, [])
      && Parse(OneField("refs", list, body)) == Parsed(EMPTY.(refs := items), body, [])
  {
    hide *;
    Names();
    var list := "[" + Join(items) + "]";
    PlainTextIsKept(v);
    assert ListOf(v) == [v] by { OneWordList(v); }
    ListApplied(v);
    PlainFieldParses("tags", v, body, EMPTY.(tags := [v]));
    PlainFieldParses("refs", v, body, EMPTY.(refs := [v]));
    CanonicalListRead(items);
    ListApplied(Unquote(list));
    NamedFieldParses("tags", list, body);
    NamedFieldParses("refs", list, body);
  }

  lemma OneWordList(v: string)
    requires PlainText(v) && v[0] != '['
    ensures ListOf(v) == [v]
  {
  }

  lemma ListApplied(v: string)
    ensures ApplyScalarField(EMPTY, KeyOf("tags"), v) == EMPTY.(tags := ListOf(v))
    ensures ApplyScalarField(EMPTY, KeyOf("refs"), v) == EMPTY.(refs := ListOf(v))
  {
    KeyNames();
    hide KeyOf, ListOf;
  }

  lemma CanonicalListRead(items: seq<string>)
    requires ListCanonical(items) && items != []
    ensures var list := "[" + Join(items) + "]"; NoNewline(list) && Trim(list) != "" && ListOf(Unquote(list)) == items
  {
    hide ListOf, Unquote, Trim, Join, ItemKept;
    assert SingleLineItems(items) by {
      forall s | s in items ensures NoNewline(s) {
        var i :| 0 <= i < |items| && items[i] == s;
        assert ItemCanonical(items[i]);
      }
    }
    ListIff(items);
    JoinLine(items);
    BracketsKept(Join(items));
  }

  // Warnings

  /** A line that begins and ends with something that trimming keeps. */
  predicate SolidLine(s: string) {
    && s != "" && NoNewline(s)
    && !IsSpace(s[0]) && s[0] != '#' && s[0] != '-' && !IsSpace(s[|s| - 1]) && s[|s| - 1] != '\r'
  }

  lemma FlushLineRead(s: string)
    requires SolidLine(s)
    ensures ReadLines([s]) == [Line(0, s)] && GoodLine(s)
    ensures ReadLines(["  " + s]) == [Line(2, s)] && GoodLine("  " + s)
  {
    hide *;
    SolidShape(s);
    FlushLine(s);
    SolidLineRead(s);
    SolidIsGood(s);
    OneLineRead(s, Line(0, s));
    OneLineRead("  " + s, Line(2, s));
  }

  lemma SolidShape(s: string)
    requires SolidLine(s)
    ensures s != "" && NoNewline(s)
    ensures !IsSpace(s[0]) && s[0] != '#' && s[0] != '-' && !IsSpace(s[|s| - 1]) && s[|s| - 1] != '\r'
  {
  }

  lemma FlushLine(s: string)
    requires s != "" && !IsSpace(s[0]) && s[0] != '#' && !IsSpace(s[|s| - 1]) && s[|s| - 1] != '\r'
    ensures LogicalLine(StripCr(s)) == Some(Line(0, s))
  {
    assert StripCr(s) == s && "" + s == s;
    assert StripCrs(s) == s by {
      StripCrsConcat(s, "");
      assert s + "" == s;
    }
    assert TrimEnd(s) == s by { TrimEndLast(s); }
    assert s[0] != ' ';
    hide StripCrs, TrimEnd, LogicalLine;
    LogicalLineOf(s, "", s);
  }

  lemma SolidIsGood(s: string)
    requires s != "" && !IsSpace(s[0]) && s[0] != '-' && NoNewline(s)
    ensures GoodLine(s) && GoodLine("  " + s)
  {
    hide IsDelimiter, IsSpace;
    NotDelimiter("", s + "\n");
    NotDelimiter("  ", s + "\n");
    assert "" + (s + "\n") == s + "\n" && "  " + (s + "\n") == "  " + s + "\n";
    assert NoNewline("  " + s);
  }

  /** A line without a key, an indented line with nothing above it, and a line without a key below `provenance:`. */
  lemma StrayLinesWarn(s: string, body: string)
    requires SolidLine(s)
    ensures Parse(LinesFile(["  " + s], body)) == Parsed(EMPTY, body, [IndentedLine(s)])
    ensures ':' !in s ==> Parse(LinesFile([s], body)) == Parsed(EMPTY, body, [NoKey(s)])
    ensures ':' !in s ==>
      Parse(LinesFile(["provenance:", "  " + s], body)) == Parsed(EMPTY, body, [MalformedProvenance(s)])
  {
    hide SolidLine, Parse, LinesFile, GoodLine, ReadLines, ParseLines, SplitKeyValue;
    var p := Progress(EMPTY, []);
    FlushLineRead(s);
    LinesParse(["  " + s], body);
    StepSkipped([Line(2, s)], p);
    assert [Line(2, s)][1..] == [] && [Line(0, s)][1..] == [];
    NothingParsed(p.Warn(IndentedLine(s)));
    if ':' !in s {
      assert SplitKeyValue(s) == None by { KeylessLine(s); }
      LinesParse([s], body);
      StepSkipped([Line(0, s)], p);
      NothingParsed(p.Warn(NoKey(s)));
      MalformedChild(s, body);
    }
  }

  function Complaints(ss: seq<string>): seq<Warning> {
    if ss == [] then [] else [NoKey(ss[0])] + Complaints(ss[1..])
  }

  lemma {:induction false} StrayLinesParsed(ss: seq<string>, p: Progress)
    requires forall s :: s in ss ==> SolidLine(s) && ':' !in s
    ensures GoodLines(ss)
    ensures ParseLines(ReadLines(ss), p) == p.(warnings := p.warnings + Complaints(ss))
    decreases |ss|
  {
    hide SolidLine, GoodLine, ReadLines, ParseLines, SplitKeyValue;
    if ss == [] {
      NothingRead();
      NothingParsed(p);
      assert p.warnings + [] == p.warnings;
    } else {
      var s, rest := ss[0], ss[1..];
      assert s in ss && forall t :: t in rest ==> t in ss;
      FlushLineRead(s);
      KeylessLine(s);
      assert ss == [s] + rest;
      ReadLinesConcat([s], rest);
      var lines := [Line(0, s)] + ReadLines(rest);
      StepSkipped(lines, p);
      assert lines[1..] == ReadLines(rest);
      StrayLinesParsed(rest, p.Warn(NoKey(s)));
      assert p.warnings + [NoKey(s)] + Complaints(rest) == p.warnings + Complaints(ss);
    }
  }

  /** There is one warning for each such line, in the order of the lines. */
  lemma EveryStrayLineWarns(ss: seq<string>, body: string)
    requires forall s :: s in ss ==> SolidLine(s) && ':' !in s
    ensures Parse(LinesFile(ss, body)) == Parsed(EMPTY, body, Complaints(ss))
  {
    hide SolidLine, Parse, LinesFile, GoodLine, ReadLines, ParseLines;
    StrayLinesParsed(ss, Progress(EMPTY, []));
    LinesParse(ss, body);
    assert [] + Complaints(ss) == Complaints(ss);
  }

  lemma KeylessLine(s: string)
    requires ':' !in s
    ensures SplitKeyValue(s) == None
  {
    SplitOnceMissing(s, ':');
  }

  lemma MalformedChild(s: string, body: string)
    requires SolidLine(s) && SplitKeyValue(s) == None
    ensures Parse(LinesFile(["provenance:", "  " + s], body)) == Parsed(EMPTY, body, [MalformedProvenance(s)])
  {
    hide SolidLine, Parse, LinesFile, GoodLine, ReadLines, ParseLines, SplitKeyValue;
    FlushLineRead(s);
    HeaderRead();
    ReadLinesConcat(["provenance:"], ["  " + s]);
    assert ["provenance:"] + ["  " + s] == ["provenance:", "  " + s];
    LinesParse(["provenance:", "  " + s], body);
    BlockParsed(Line(0, "provenance:"), "provenance", [Line(2, s)], Progress(EMPTY, []));
    OneMalformed(s);
  }

  lemma OneMalformed(s: string)
    requires SplitKeyValue(s) == None
    ensures ApplyBlock(Progress(EMPTY, []), "provenance", [Line(2, s)])
         == Progress(EMPTY, [MalformedProvenance(s)])
  {
    hide SplitKeyValue, KeyOf;
    ProvenanceKeyNames();
    var p, q := Progress(EMPTY, []), Progress(EMPTY, [MalformedProvenance(s)]);
    assert [Line(2, s)][1..] == [] && p.Warn(MalformedProvenance(s)) == q;
    assert ApplyProvenanceLines(q, []) == q;
    assert ApplyProvenanceLines(p, [Line(2, s)]) == q;
  }

  /** A provenance field without indentation is used all the same, with a warning. */
  lemma TopLevelWarns(v: string, body: string)
    requires PlainText(v)
    ensures Parse(LinesFile(["actor: " + v], body))
         == Parsed(EMPTY.(provenance := Provenance(Some(v), None, None)), body, [TopLevelProvenance("actor")])
    ensures Parse(LinesFile(["session: " + v], body))
         == Parsed(EMPTY.(provenance := Provenance(None, Some(v), None)), body, [TopLevelProvenance("session")])
    ensures Parse(LinesFile(["source: " + v], body))
         == Parsed(EMPTY.(provenance := Provenance(None, None, Some(SourceOf(v)))), body,
                   [TopLevelProvenance("source")])
  {
    hide *;
    TopLevelNames();
    TopLevelParses("actor", v, body);
    TopLevelParses("session", v, body);
    TopLevelParses("source", v, body);
    TopLevelFields(v);
  }

  lemma TopLevelNames()
    ensures "actor" + ": " == "actor: " && "session" + ": " == "session: " && "source" + ": " == "source: "
  {
  }

  lemma TopLevelFields(v: string)
    requires PlainText(v)
    ensures ApplyScalarField(EMPTY, KeyOf("actor"), v) == EMPTY.(provenance := Provenance(Some(v), None, None))
    ensures ApplyScalarField(EMPTY, KeyOf("session"), v) == EMPTY.(provenance := Provenance(None, Some(v), None))
    ensures ApplyScalarField(EMPTY, KeyOf("source"), v)
         == EMPTY.(provenance := Provenance(None, None, Some(SourceOf(v))))
  {
    PlainTextIsKept(v);
    ProvenanceKeyNames();
    hide KeyOf, Unquote, Trim, OptString, PlainText, SourceOf;
  }

  lemma TopLevelParses(name: string, v: string, body: string)
    requires PlainText(v) && (name == "actor" || name == "session" || name == "source")
    ensures Parse(LinesFile([name + ": " + v], body))
         == Parsed(ApplyScalarField(EMPTY, KeyOf(name), v), body, [TopLevelProvenance(name)])
  {
    hide PlainText, Parse, LinesFile, ParseLines, ReadLines, SplitKeyValue, GoodLine, LineFor, KeyOf;
    TopLevelLine(name, v);
    LinesParse([name + ": " + v], body);
    var line, p := Line(0, LineFor(name, v)), Progress(EMPTY, []);
    StepScalar([line], name, v, p);
    assert [line][1..] == [];
    NothingParsed(ApplyScalar(p, name, v));
    TopLevelApplied(name, v);
  }

  lemma TopLevelLine(name: string, v: string)
    requires PlainText(v) && (name == "actor" || name == "session" || name == "source")
    ensures ReadLines([name + ": " + v]) == [Line(0, LineFor(name, v))] && GoodLine(name + ": " + v)
    ensures SplitKeyValue(LineFor(name, v)) == Some((name, v)) && v != ""
  {
    LettersArePlain(name);
    hide *;
    PlainTextIsKept(v);
    PlainIsOneLine(v);
    Spelled(name, v);
    NoPad();
    FieldLineLines("", name, v);
    FieldLineReads("", name, v);
    ColonLine(v);
    FieldLineGood("", name, ": " + v);
  }

  lemma NoPad()
    ensures Pad("")
  {
  }

  lemma Spelled(name: string, v: string)
    ensures "" + name == name && "" + name + (": " + v) == name + ": " + v
    ensures FieldLine("" + name, Some(v)) == [name + ": " + v] && |""| == 0
  {
  }

  lemma TopLevelApplied(name: string, v: string)
    requires PlainText(v) && (name == "actor" || name == "session" || name == "source")
    ensures ApplyScalar(Progress(EMPTY, []), name, v)
         == Progress(ApplyScalarField(EMPTY, KeyOf(name), v), [TopLevelProvenance(name)])
  {
    PlainTextIsKept(v);
    ProvenanceKeyNames();
    hide KeyOf, Unquote, Trim, PlainText, ApplyScalarField;
  }

  lemma ColonLine(v: string)
    requires NoNewline(v)
    ensures NoNewline(": " + v)
  {
  }
}

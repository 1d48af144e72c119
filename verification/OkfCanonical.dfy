/**
 Exactly which frontmatter survives printing and parsing unchanged.
 */
module OkfCanonical {
  import opened Wrappers
  import opened Text
  import opened Okf
  import OkfLines
  import opened OkfRoundTrip

  // What a value must look like

  /** A value printed with `{:?}`: no character is escaped and the parser does not read it as null. */
  predicate QuotedCanonical(v: Option<string>, printable: Printable) {
    v.Some? ==> !IsNull(v.value) && AllPlain(v.value, printable)
  }

  predicate AllPlain(s: string, printable: Printable) {
    forall i :: 0 <= i < |s| ==> Plain(s[i], printable)
  }

  /** A value printed as it is: one line, trimmed, not quoted, not null. */
  predicate BareCanonical(s: string) {
    NoNewline(s) && BareKept(s)
  }

  predicate BareKept(s: string) {
    Trimmed(s) && !QuoteWrapped(s) && !IsNull(s)
  }

  predicate ListCanonical(items: seq<string>) {
    forall i :: 0 <= i < |items| ==> ItemCanonical(items[i])
  }

  predicate ItemCanonical(s: string) {
    NoNewline(s) && s != "" && ItemKept(s)
  }

  predicate ItemKept(s: string) {
    Trimmed(s) && !QuoteWrapped(s) && ',' !in s
  }

  predicate TypeCanonical(t: Option<ItemType>) {
    t.Some? && t.value.OtherType? ==> BareCanonical(t.value.text) && ItemTypeOf(t.value.text).OtherType?
  }

  predicate ScopeCanonical(t: Option<Scope>) {
    t.Some? && t.value.OtherScope? ==> BareCanonical(t.value.text) && ScopeOf(t.value.text).OtherScope?
  }

  predicate VisibilityCanonical(t: Option<Visibility>) {
    t.Some? && t.value.OtherVisibility? ==> BareCanonical(t.value.text) && VisibilityOf(t.value.text).OtherVisibility?
  }

  predicate ConfidenceCanonical(t: Option<Confidence>) {
    t.Some? && t.value.OtherConfidence? ==> BareCanonical(t.value.text) && ConfidenceOf(t.value.text).OtherConfidence?
  }

  predicate SourceCanonical(t: Option<SourceKind>) {
    t.Some? && t.value.OtherSource? ==> BareCanonical(t.value.text) && SourceOf(t.value.text).OtherSource?
  }

  predicate TokensCanonical(raw: Option<string>, tokens: Option<u32>) {
    match raw
    case None => tokens == None
    case Some(r) => BareCanonical(r) && tokens == ParseTokens(r)
  }

  predicate Canonical(fm: Frontmatter, printable: Printable) {
    && QuotedCanonical(fm.title, printable)
    && TypeCanonical(fm.itemType)
    && ScopeCanonical(fm.scope)
    && (fm.workspace.Some? ==> BareCanonical(fm.workspace.value))
    && VisibilityCanonical(fm.visibility)
    && QuotedCanonical(fm.provenance.actor, printable)
    && QuotedCanonical(fm.provenance.session, printable)
    && SourceCanonical(fm.provenance.source)
    && ConfidenceCanonical(fm.confidence)
    && QuotedCanonical(fm.expires, printable)
    && TokensCanonical(fm.tokensRaw, fm.tokens)
    && ListCanonical(fm.tags)
    && ListCanonical(fm.refs)
    && QuotedCanonical(fm.updated, printable)
  }

  // Quoted values

  lemma {:induction false} EscapedFixpoint(s: string, printable: Printable)
    ensures Escaped(s, printable) == s <==> AllPlain(s, printable)
  {
    if s != "" {
      var rest := s[1..];
      EscapedFixpoint(rest, printable);
      EscapedLine(rest, printable);
      DebugCharLine(s[0], printable);
      var head := DebugChar(s[0], printable);
      if AllPlain(s, printable) {
        assert AllPlain(rest, printable) by {
          forall i | 0 <= i < |rest| ensures Plain(rest[i], printable) { assert rest[i] == s[i + 1]; }
        }
        assert [s[0]] + rest == s;
      } else if Plain(s[0], printable) {
        assert !AllPlain(rest, printable) by {
          var i :| 0 <= i < |s| && !Plain(s[i], printable);
          assert s[i] == rest[i - 1];
        }
        assert Escaped(s, printable)[1..] == Escaped(rest, printable);
      }
    }
  }

  lemma UnquoteDebug(s: string, printable: Printable)
    ensures Unquote(Debug(s, printable)) == Escaped(s, printable)
  {
    hide Trim;
    var v := Debug(s, printable);
    assert v[0] == '"' && v[|v| - 1] == '"';
    TrimFixpoint(v);
    assert v[1..|v| - 1] == Escaped(s, printable);
  }

  lemma QuotedIff(v: Option<string>, printable: Printable)
    ensures ReadBack(QuotedValue(v, printable)) == v <==> QuotedCanonical(v, printable)
  {
    if v.Some? {
      UnquoteDebug(v.value, printable);
      EscapedFixpoint(v.value, printable);
    }
  }

  // Bare values

  lemma UnquoteFixpoint(s: string)
    ensures Unquote(s) == s <==> Trimmed(s) && !QuoteWrapped(s)
  {
    hide Trim, Trimmed;
    TrimFixpoint(s);
  }

  lemma BareIff(s: string)
    ensures OptString(Unquote(s)) == Some(s) <==> BareKept(s)
  {
    UnquoteFixpoint(s);
  }

  /** A keyword is written as itself: lower-case letters and hyphens. */
  predicate KeywordText(s: string) {
    |s| >= 3 && (forall i :: 0 <= i < |s| ==> 'a' <= s[i] <= 'z' || s[i] == '-') && s != "null"
  }

  lemma KeywordKept(s: string)
    requires KeywordText(s)
    ensures BareCanonical(s)
  {
    assert !IsSpace(s[0]) && !IsSpace(s[|s| - 1]);
    assert |"~"| == 1;
  }

  lemma TypeInverse(x: string, t: ItemType)
    ensures ShowItemType(ItemTypeOf(x)) == x
    ensures ItemTypeOf(ShowItemType(t)) == t <==> t.OtherType? ==> ItemTypeOf(t.text).OtherType?
    ensures !t.OtherType? ==> BareKept(ShowItemType(t))
  {
    hide BareKept;
    if !t.OtherType? { TypeWordKept(t); }
  }

  lemma TypeWordKept(t: ItemType)
    requires !t.OtherType?
    ensures BareKept(ShowItemType(t))
  {
    assert KeywordText(ShowItemType(t));
    KeywordKept(ShowItemType(t));
  }

  lemma TypeIff(t: Option<ItemType>)
    requires SingleLineValue(MapOption(t, ShowItemType))
    ensures MapOption(ReadBack(MapOption(t, ShowItemType)), ItemTypeOf) == t <==> TypeCanonical(t)
  {
    hide ItemTypeOf, ShowItemType, BareKept, Unquote, OptString, NoNewline;
    if t.Some? {
      var s := ShowItemType(t.value);
      BareIff(s);
      TypeInverse(s, t.value);
      var read := OptString(Unquote(s));
      if read.Some? { TypeInverse(read.value, t.value); }
      if t.value.OtherType? { TypeShown(t.value); }
    }
  }

  lemma TypeShown(t: ItemType)
    requires t.OtherType?
    ensures ShowItemType(t) == t.text
  {
  }

  lemma ScopeInverse(x: string, t: Scope)
    ensures ShowScope(ScopeOf(x)) == x
    ensures ScopeOf(ShowScope(t)) == t <==> t.OtherScope? ==> ScopeOf(t.text).OtherScope?
    ensures !t.OtherScope? ==> BareKept(ShowScope(t))
  {
    if !t.OtherScope? { assert KeywordText(ShowScope(t)); KeywordKept(ShowScope(t)); }
  }

  lemma ScopeIff(t: Option<Scope>)
    requires SingleLineValue(MapOption(t, ShowScope))
    ensures MapOption(ReadBack(MapOption(t, ShowScope)), ScopeOf) == t <==> ScopeCanonical(t)
  {
    hide ScopeOf, ShowScope, BareKept, Unquote, OptString, NoNewline;
    if t.Some? {
      var s := ShowScope(t.value);
      BareIff(s);
      ScopeInverse(s, t.value);
      var read := OptString(Unquote(s));
      if read.Some? { ScopeInverse(read.value, t.value); }
      if t.value.OtherScope? { ScopeShown(t.value); }
    }
  }

  lemma ScopeShown(t: Scope)
    requires t.OtherScope?
    ensures ShowScope(t) == t.text
  {
  }

  lemma VisibilityInverse(x: string, t: Visibility)
    ensures ShowVisibility(VisibilityOf(x)) == x
    ensures VisibilityOf(ShowVisibility(t)) == t <==> t.OtherVisibility? ==> VisibilityOf(t.text).OtherVisibility?
    ensures !t.OtherVisibility? ==> BareKept(ShowVisibility(t))
  {
    if !t.OtherVisibility? { assert KeywordText(ShowVisibility(t)); KeywordKept(ShowVisibility(t)); }
  }

  lemma VisibilityIff(t: Option<Visibility>)
    requires SingleLineValue(MapOption(t, ShowVisibility))
    ensures MapOption(ReadBack(MapOption(t, ShowVisibility)), VisibilityOf) == t <==> VisibilityCanonical(t)
  {
    hide VisibilityOf, ShowVisibility, BareKept, Unquote, OptString, NoNewline;
    if t.Some? {
      var s := ShowVisibility(t.value);
      BareIff(s);
      VisibilityInverse(s, t.value);
      var read := OptString(Unquote(s));
      if read.Some? { VisibilityInverse(read.value, t.value); }
      if t.value.OtherVisibility? { VisibilityShown(t.value); }
    }
  }

  lemma VisibilityShown(t: Visibility)
    requires t.OtherVisibility?
    ensures ShowVisibility(t) == t.text
  {
  }

  lemma ConfidenceInverse(x: string, t: Confidence)
    ensures ShowConfidence(ConfidenceOf(x)) == x
    ensures ConfidenceOf(ShowConfidence(t)) == t <==> t.OtherConfidence? ==> ConfidenceOf(t.text).OtherConfidence?
    ensures !t.OtherConfidence? ==> BareKept(ShowConfidence(t))
  {
    if !t.OtherConfidence? { assert KeywordText(ShowConfidence(t)); KeywordKept(ShowConfidence(t)); }
  }

  lemma ConfidenceIff(t: Option<Confidence>)
    requires SingleLineValue(MapOption(t, ShowConfidence))
    ensures MapOption(ReadBack(MapOption(t, ShowConfidence)), ConfidenceOf) == t <==> ConfidenceCanonical(t)
  {
    hide ConfidenceOf, ShowConfidence, BareKept, Unquote, OptString, NoNewline;
    if t.Some? {
      var s := ShowConfidence(t.value);
      BareIff(s);
      ConfidenceInverse(s, t.value);
      var read := OptString(Unquote(s));
      if read.Some? { ConfidenceInverse(read.value, t.value); }
      if t.value.OtherConfidence? { ConfidenceShown(t.value); }
    }
  }

  lemma ConfidenceShown(t: Confidence)
    requires t.OtherConfidence?
    ensures ShowConfidence(t) == t.text
  {
  }

  lemma SourceInverse(x: string, t: SourceKind)
    ensures ShowSource(SourceOf(x)) == x
    ensures SourceOf(ShowSource(t)) == t <==> t.OtherSource? ==> SourceOf(t.text).OtherSource?
    ensures !t.OtherSource? ==> BareKept(ShowSource(t))
  {
    if !t.OtherSource? { assert KeywordText(ShowSource(t)); KeywordKept(ShowSource(t)); }
  }

  lemma SourceIff(t: Option<SourceKind>)
    requires SingleLineValue(MapOption(t, ShowSource))
    ensures MapOption(ReadBack(MapOption(t, ShowSource)), SourceOf) == t <==> SourceCanonical(t)
  {
    hide SourceOf, ShowSource, BareKept, Unquote, OptString, NoNewline;
    if t.Some? {
      var s := ShowSource(t.value);
      BareIff(s);
      SourceInverse(s, t.value);
      var read := OptString(Unquote(s));
      if read.Some? { SourceInverse(read.value, t.value); }
      if t.value.OtherSource? { SourceShown(t.value); }
    }
  }

  lemma SourceShown(t: SourceKind)
    requires t.OtherSource?
    ensures ShowSource(t) == t.text
  {
  }

  lemma {:induction false} DecimalKept(n: nat)
    ensures Decimal(n) != "" && forall i :: 0 <= i < |Decimal(n)| ==> IsDigit(Decimal(n)[i])
  {
    if n >= 10 { DecimalKept(n / 10); }
  }

  lemma TokensIff(fm: Frontmatter)
    requires SingleLineValue(fm.tokensRaw)
    ensures ReadBack(TokensValue(fm)) == fm.tokensRaw && ReadBackTokens(TokensValue(fm)) == fm.tokens
       <==> TokensCanonical(fm.tokensRaw, fm.tokens)
  {
    if fm.tokensRaw.Some? {
      BareIff(fm.tokensRaw.value);
    } else if fm.tokens.Some? {
      var s := Decimal(fm.tokens.value);
      DecimalKept(fm.tokens.value);
      assert IsDigit(s[0]) && IsDigit(s[|s| - 1]);
      assert "null"[0] == 'n' && "~"[0] == '~';
      BareIff(s);
    }
  }

  // Lists

  lemma {:induction false} SplitCommasClean(s: string)
    ensures forall x :: x in SplitCommas(s) ==> ',' !in x && PartOf(x, s)
    decreases |s|
  {
    match SplitOnce(s, ',')
    case None =>
    case Some((a, b)) => SplitCommasClean(b);
  }

  /** Every character of `x` occurs in `s`. */
  predicate PartOf(x: string, s: string) {
    forall c :: c in x ==> c in s
  }

  predicate PartOfSome(x: string, items: seq<string>) {
    exists i :: 0 <= i < |items| && PartOf(x, items[i])
  }

  lemma {:induction false} CleanItemsFrom(items: seq<string>)
    ensures |CleanItems(items)| <= |items|
    ensures forall x :: x in CleanItems(items) ==> x != "" && PartOfSome(x, items)
  {
    hide Unquote, Trim;
    if items != [] {
      CleanItemsFrom(items[1..]);
      var head, tail := Unquote(Trim(items[0])), CleanItems(items[1..]);
      assert CleanItems(items) == (if head == "" then [] else [head]) + tail;
      forall x | x in CleanItems(items)
        ensures x != "" && PartOfSome(x, items)
      {
        if x == head && head != "" {
          assert PartOf(x, items[0]);
        } else {
          assert x in tail;
          var i :| 0 <= i < |items[1..]| && PartOf(x, items[1..][i]);
          assert items[1..][i] == items[i + 1];
        }
      }
    }
  }

  lemma SplitAtComma(a: string, b: string)
    requires ',' !in a
    ensures SplitCommas(a + "," + b) == [a] + SplitCommas(b)
  {
    SplitOnceAt(a, ',', b);
    assert a + [','] + b == a + "," + b;
  }

  lemma OneItem(s: string)
    requires ',' !in s
    ensures SplitCommas(s) == [s]
  {
    SplitOnceMissing(s, ',');
  }

  predicate CommaFree(items: seq<string>) {
    forall i :: 0 <= i < |items| ==> ',' !in items[i]
  }

  predicate Gap(pad: string) { pad == "" || pad == " " }

  lemma JoinCons(items: seq<string>)
    requires items != []
    ensures |items| == 1 ==> Join(items) == items[0]
    ensures |items| > 1 ==> Join(items) == items[0] + "," + (" " + Join(items[1..]))
  {
    if |items| > 1 { CommaSpace(items[0], Join(items[1..])); }
  }

  lemma CommaSpace(x: string, rest: string)
    ensures x + ", " + rest == x + "," + (" " + rest)
  {
    assert ", " == "," + " ";
    var comma, space := ",", " ";
    assert x + (comma + space) + rest == x + comma + (space + rest);
  }

  lemma SplitJoin(pad: string, items: seq<string>)
    requires Gap(pad) && items != [] && CommaFree(items)
    ensures |items| == 1 ==> SplitCommas(pad + Join(items)) == [pad + items[0]]
    ensures |items| > 1 ==>
      SplitCommas(pad + Join(items)) == [pad + items[0]] + SplitCommas(" " + Join(items[1..]))
  {
    hide *;
    JoinCons(items);
    NoCommaBehind(pad, items);
    if |items| == 1 {
      OneItem(pad + items[0]);
    } else {
      var rest := " " + Join(items[1..]);
      Shifted(pad, items[0], rest);
      SplitAtComma(pad + items[0], rest);
    }
  }

  lemma NoCommaBehind(pad: string, items: seq<string>)
    requires Gap(pad) && items != [] && CommaFree(items)
    ensures ',' !in pad + items[0]
  {
  }

  lemma Shifted(pad: string, x: string, rest: string)
    ensures pad + (x + "," + rest) == (pad + x) + "," + rest
  {
  }

  lemma CleanPadded(pad: string, item: string)
    requires Gap(pad)
    ensures Unquote(Trim(pad + item)) == Unquote(item)
  {
    assert AllSpace(pad);
    TrimStartSpaces(pad, item);
    UnquoteTrim(item);
  }

  lemma CleanCons(x: string, rest: seq<string>)
    ensures CleanItems([x] + rest) == (if Unquote(Trim(x)) == "" then [] else [Unquote(Trim(x))]) + CleanItems(rest)
  {
    assert ([x] + rest)[1..] == rest;
  }

  predicate ItemsKept(items: seq<string>) {
    forall i :: 0 <= i < |items| ==> items[i] != "" && Trimmed(items[i]) && !QuoteWrapped(items[i])
  }

  /** For comma-free items, the printed list is read back as the same items exactly when each is kept. */
  lemma {:induction false} JoinedItemsIff(pad: string, items: seq<string>)
    requires Gap(pad) && items != [] && CommaFree(items)
    ensures CleanItems(SplitCommas(pad + Join(items))) == items <==> ItemsKept(items)
    ensures |CleanItems(SplitCommas(pad + Join(items)))| <= |items|
    decreases |items|
  {
    hide CleanItems, SplitCommas, Join, Unquote, Trim, Trimmed, QuoteWrapped;
    var head, rest := items[0], items[1..];
    SplitJoin(pad, items);
    CleanPadded(pad, head);
    UnquoteFixpoint(head);
    assert items == [head] + rest;
    if |items| == 1 {
      assert [pad + head] + [] == [pad + head];
      CleanCons(pad + head, []);
      assert CleanItems([]) == [] by { NothingClean(); }
    } else {
      var tail := SplitCommas(" " + Join(rest));
      CleanCons(pad + head, tail);
      JoinedItemsIff(" ", rest);
      KeptCons(head, rest);
      var result := CleanItems(SplitCommas(pad + Join(items)));
      if result == items {
        assert Unquote(head) != "";
        assert result[0] == Unquote(head) && result[1..] == CleanItems(tail);
      }
    }
  }

  lemma NothingClean()
    ensures CleanItems([]) == []
  {
  }

  lemma KeptCons(head: string, rest: seq<string>)
    ensures ItemsKept([head] + rest)
       <==> head != "" && Trimmed(head) && !QuoteWrapped(head) && ItemsKept(rest)
  {
    hide Trimmed, QuoteWrapped;
    var items := [head] + rest;
    if ItemsKept(items) {
      assert items[0] == head;
      forall i | 0 <= i < |rest| ensures rest[i] != "" && Trimmed(rest[i]) && !QuoteWrapped(rest[i]) {
        assert items[i + 1] == rest[i];
      }
    }
  }

  lemma ReadBackListOf(items: seq<string>)
    requires items != []
    ensures ReadBackList(items)
         == if Trim(Join(items)) == "" then [] else CleanItems(SplitCommas(Join(items)))
  {
    hide CleanItems, SplitCommas, Join, Trim, Unquote;
    var inner := Join(items);
    BracketsKept(inner);
    var v := "[" + inner + "]";
    assert v[1..|v| - 1] == inner;
  }

  /** A list comes back unchanged exactly when every item is non-empty, trimmed, unquoted and free of commas. */
  lemma ListIff(items: seq<string>)
    requires SingleLineItems(items)
    ensures ReadBackList(items) == items <==> ListCanonical(items)
  {
    hide CleanItems, SplitCommas, Join, Trim, Unquote, ReadBackList, QuoteWrapped, Trimmed, NoNewline;
    if items != [] {
      ReadBackListOf(items);
      assert "" + Join(items) == Join(items);
      if CommaFree(items) {
        JoinedItemsIff("", items);
        if ItemsKept(items) { JoinNotBlank(items); }
        assert ItemsKept(items) <==> ListCanonical(items) by {
          assert forall i :: 0 <= i < |items| ==> items[i] in items;
        }
      } else {
        if ReadBackList(items) == items { CleanHasNoComma(items); }
      }
    } else {
      assert ReadBackList(items) == [] by { EmptyListReadBack(); }
    }
  }

  lemma EmptyListReadBack()
    ensures ReadBackList([]) == []
  {
  }

  lemma CleanHasNoComma(items: seq<string>)
    requires items == CleanItems(SplitCommas(Join(items))) || items == []
    ensures CommaFree(items)
  {
    if items != [] {
      var pieces := SplitCommas(Join(items));
      SplitCommasClean(Join(items));
      CleanItemsFrom(pieces);
      forall i | 0 <= i < |items| ensures ',' !in items[i] {
        assert items[i] in CleanItems(pieces);
        var j :| 0 <= j < |pieces| && PartOf(items[i], pieces[j]);
        assert pieces[j] in pieces;
      }
    }
  }

  lemma JoinNotBlank(items: seq<string>)
    requires items != [] && ItemsKept(items)
    ensures Trim(Join(items)) != ""
  {
    var s := Join(items);
    assert Trimmed(items[0]) && items[0] != "";
    assert s[0] == items[0][0];
    OkfLines.KeptFirst(s);
  }

  // Whatever is parsed fits on single lines

  predicate PlainLines(lines: seq<Line>) {
    forall l :: l in lines ==> NoNewline(l.content)
  }

  lemma {:induction false} TrimBlanksLine(s: string)
    requires NoNewline(s)
    ensures NoNewline(TrimBlanks(s))
  {
  }

  lemma {:induction false} LogicalLinesPlain(raws: seq<string>)
    requires forall r :: r in raws ==> NoNewline(r)
    ensures PlainLines(LogicalLines(raws))
  {
    hide LogicalLine, NoNewline;
    if raws != [] {
      LogicalLinesPlain(raws[1..]);
      assert raws[0] in raws;
      LogicalLinePlain(raws[0]);
    }
  }

  lemma LogicalLinePlain(raw: string)
    requires NoNewline(raw)
    ensures LogicalLine(raw).Some? ==> NoNewline(LogicalLine(raw).value.content)
  {
    var content := StripCrs(raw);
    assert NoNewline(content);
    TrimBlanksLine(content);
    assert NoNewline(TrimEnd(TrimBlanks(content)));
  }

  lemma ListOfLine(value: string)
    requires NoNewline(value)
    ensures SingleLineItems(ListOf(value))
  {
    if |value| >= 2 {
      var inner := value[1..|value| - 1];
      SplitCommasClean(inner);
      CleanItemsLine(SplitCommas(inner));
    }
  }

  lemma CleanItemsLine(items: seq<string>)
    requires SingleLineItems(items)
    ensures SingleLineItems(CleanItems(items))
  {
    hide CleanItems;
    CleanItemsFrom(items);
    forall x | x in CleanItems(items) ensures NoNewline(x) {
      var i :| 0 <= i < |items| && PartOf(x, items[i]);
      assert items[i] in items;
    }
  }

  lemma {:induction false} BlockItemsLine(children: seq<Line>)
    requires PlainLines(children)
    ensures SingleLineItems(BlockItems(children))
  {
    hide CleanItems;
    if children != [] {
      BlockItemsLine(children[1..]);
      var content := children[0].content;
      assert children[0] in children;
      if content != "" { CleanItemsLine([content[1..]]); }
    }
  }

  /** Every field read from a single line prints as a single line. */
  lemma OptLine(value: string)
    requires NoNewline(value)
    ensures SingleLineValue(OptString(value)) && SingleLineValue(Some(value)) && SingleLineValue(None)
    ensures SingleLineValue(MapOption(MapOption(OptString(value), ItemTypeOf), ShowItemType))
    ensures SingleLineValue(MapOption(MapOption(OptString(value), ScopeOf), ShowScope))
    ensures SingleLineValue(MapOption(MapOption(OptString(value), VisibilityOf), ShowVisibility))
    ensures SingleLineValue(MapOption(MapOption(OptString(value), ConfidenceOf), ShowConfidence))
    ensures SingleLineValue(MapOption(MapOption(OptString(value), SourceOf), ShowSource))
  {
    hide ItemTypeOf, ShowItemType, ScopeOf, ShowScope, VisibilityOf, ShowVisibility, ConfidenceOf, ShowConfidence;
    hide SourceOf, ShowSource, NoNewline, IsNull;
    TypeInverse(value, Memory);
    ScopeInverse(value, User);
    VisibilityInverse(value, Shared);
    ConfidenceInverse(value, Stated);
    SourceInverse(value, File);
  }

  lemma ScalarKeepsLine(fm: Frontmatter, key: Key, value: string)
    requires SingleLine(fm) && NoNewline(value)
    ensures SingleLine(ApplyScalarField(fm, key, value))
  {
    hide ItemTypeOf, ShowItemType, ScopeOf, ShowScope, VisibilityOf, ShowVisibility, ConfidenceOf, ShowConfidence;
    hide SourceOf, ShowSource, ListOf, NoNewline, ParseTokens, IsNull, SingleLineItems, OptString, SingleLineValue;
    ListOfLine(value);
    OptLine(value);
  }

  lemma SplitKeyValueLine(content: string)
    requires NoNewline(content)
    ensures SplitKeyValue(content).Some? ==> NoNewline(SplitKeyValue(content).value.1)
  {
    hide Trim;
  }

  lemma ProvenanceKeepsLine(prov: Provenance, key: Key, value: string)
    requires SingleLineValue(MapOption(prov.source, ShowSource)) && NoNewline(value)
    ensures SingleLineValue(MapOption(ApplyProvenanceField(prov, key, value).source, ShowSource))
  {
    hide SourceOf, ShowSource, NoNewline;
    SourceInverse(value, File);
  }

  lemma {:induction false} ProvenanceBlockKeepsLine(p: Progress, children: seq<Line>)
    requires SingleLine(p.fm) && PlainLines(children)
    ensures SingleLine(ApplyProvenanceLines(p, children).fm)
    decreases |children|
  {
    hide SplitKeyValue, Unquote, ApplyProvenanceField, NoNewline, KeyOf;
    if children != [] {
      assert children[0] in children;
      SplitKeyValueLine(children[0].content);
      var q := match SplitKeyValue(children[0].content)
               case Some((k, v)) =>
                 p.(fm := p.fm.(provenance := ApplyProvenanceField(p.fm.provenance, KeyOf(k), Unquote(v))))
               case None => p.Warn(MalformedProvenance(children[0].content));
      if SplitKeyValue(children[0].content).Some? {
        var (k, v) := SplitKeyValue(children[0].content).value;
        UnquoteLine(v);
        ProvenanceKeepsLine(p.fm.provenance, KeyOf(k), Unquote(v));
      }
      ProvenanceBlockKeepsLine(q, children[1..]);
    }
  }

  lemma UnquoteLine(v: string)
    requires NoNewline(v)
    ensures NoNewline(Unquote(v))
  {
  }

  lemma BlockKeepsLine(p: Progress, name: string, children: seq<Line>)
    requires SingleLine(p.fm) && PlainLines(children)
    ensures SingleLine(ApplyBlock(p, name, children).fm)
  {
    hide BlockItems, ApplyProvenanceLines, KeyOf, SingleLineItems, SingleLineValue, PlainLines;
    BlockItemsLine(children);
    ProvenanceBlockKeepsLine(p, children);
  }

  lemma ApplyScalarKeepsLine(p: Progress, name: string, value: string)
    requires SingleLine(p.fm) && NoNewline(value)
    ensures SingleLine(ApplyScalar(p, name, value).fm)
  {
    hide ApplyScalarField, SingleLine, KeyOf, Unquote;
    UnquoteLine(value);
    ScalarKeepsLine(p.fm, KeyOf(name), Unquote(value));
  }

  lemma {:induction false} ParseLinesKeepsLine(lines: seq<Line>, p: Progress)
    requires SingleLine(p.fm) && PlainLines(lines)
    ensures SingleLine(ParseLines(lines, p).fm)
    decreases |lines|
  {
    hide SplitKeyValue, ApplyBlock, ApplyScalar, SingleLine, NoNewline;
    if lines != [] {
      assert lines[0] in lines;
      if lines[0].indent != 0 {
        ParseLinesKeepsLine(lines[1..], p.Warn(IndentedLine(lines[0].content)));
      } else {
        SplitKeyValueLine(lines[0].content);
        match SplitKeyValue(lines[0].content)
        case None => ParseLinesKeepsLine(lines[1..], p.Warn(NoKey(lines[0].content)));
        case Some((key, rest)) =>
          if rest == "" {
            var n := IndentedPrefix(lines[1..]);
            BlockKeepsLine(p, key, lines[1..1 + n]);
            ParseLinesKeepsLine(lines[1 + n..], ApplyBlock(p, key, lines[1..1 + n]));
          } else {
            ApplyScalarKeepsLine(p, key, rest);
            ParseLinesKeepsLine(lines[1..], ApplyScalar(p, key, rest));
          }
      }
    }
  }

  /** No input, however malformed, yields a bare field with a newline in it. */
  lemma ParsedIsSingleLine(input: string)
    ensures SingleLine(Parse(input).frontmatter)
  {
    hide ParseLines, SplitAtClosing, LogicalLines, Lines, StripOpening;
    assert SingleLine(EMPTY);
    match StripOpening(input)
    case None =>
    case Some(afterOpen) =>
      match SplitAtClosing(afterOpen)
      case None =>
      case Some((block, body)) =>
        LinesAreLines(block);
        LogicalLinesPlain(Lines(block));
        ParseLinesKeepsLine(LogicalLines(Lines(block)), Progress(EMPTY, []));
  }

  // The round trip

  /** `Normalize` changes nothing exactly on canonical frontmatter. */
  lemma NormalizeIff(fm: Frontmatter, printable: Printable)
    requires SingleLine(fm)
    ensures Normalize(fm, printable) == fm <==> Canonical(fm, printable)
  {
    hide ReadBack, ReadBackTokens, ReadBackList, QuotedValue, TokensValue, QuotedCanonical, NoNewline, BareKept;
    hide ShowItemType, ShowScope, ShowVisibility, ShowConfidence, ShowSource, TokensCanonical, ListCanonical;
    hide ItemTypeOf, ScopeOf, VisibilityOf, ConfidenceOf, SourceOf;
    hide TypeCanonical, ScopeCanonical, VisibilityCanonical, ConfidenceCanonical, SourceCanonical;
    QuotedIff(fm.title, printable);
    QuotedIff(fm.expires, printable);
    QuotedIff(fm.updated, printable);
    QuotedIff(fm.provenance.actor, printable);
    QuotedIff(fm.provenance.session, printable);
    TypeIff(fm.itemType);
    ScopeIff(fm.scope);
    VisibilityIff(fm.visibility);
    ConfidenceIff(fm.confidence);
    SourceIff(fm.provenance.source);
    TokensIff(fm);
    ListIff(fm.tags);
    ListIff(fm.refs);
    WorkspaceIff(fm.workspace);
  }

  lemma WorkspaceIff(v: Option<string>)
    requires SingleLineValue(v)
    ensures ReadBack(v) == v <==> (v.Some? ==> BareCanonical(v.value))
  {
    if v.Some? { BareIff(v.value); }
  }

  lemma CanonicalIsSingleLine(fm: Frontmatter, printable: Printable)
    requires Canonical(fm, printable)
    ensures SingleLine(fm)
  {
    hide QuotedCanonical, BareKept, ItemKept, ItemTypeOf, ScopeOf, VisibilityOf, ConfidenceOf, SourceOf, ParseTokens;
    hide ShowItemType, ShowScope, ShowVisibility, ShowConfidence, ShowSource, NoNewline;
    if fm.itemType.Some? { TypeOneLine(fm.itemType.value); }
    if fm.scope.Some? { ScopeOneLine(fm.scope.value); }
    if fm.visibility.Some? { VisibilityOneLine(fm.visibility.value); }
    if fm.confidence.Some? { ConfidenceOneLine(fm.confidence.value); }
    if fm.provenance.source.Some? { SourceOneLine(fm.provenance.source.value); }
  }

  lemma TypeOneLine(t: ItemType)
    requires t.OtherType? ==> NoNewline(t.text)
    ensures NoNewline(ShowItemType(t))
  {
  }

  lemma ScopeOneLine(t: Scope)
    requires t.OtherScope? ==> NoNewline(t.text)
    ensures NoNewline(ShowScope(t))
  {
  }

  lemma VisibilityOneLine(t: Visibility)
    requires t.OtherVisibility? ==> NoNewline(t.text)
    ensures NoNewline(ShowVisibility(t))
  {
  }

  lemma ConfidenceOneLine(t: Confidence)
    requires t.OtherConfidence? ==> NoNewline(t.text)
    ensures NoNewline(ShowConfidence(t))
  {
  }

  lemma SourceOneLine(t: SourceKind)
    requires t.OtherSource? ==> NoNewline(t.text)
    ensures NoNewline(ShowSource(t))
  {
  }

  /**
   Parsing what was printed gives back exactly the frontmatter and body, with no warning, if and only if canonical.
   */
  lemma RoundTripIff(fm: Frontmatter, body: string, printable: Printable)
    ensures Parse(Render(fm, printable) + body) == Parsed(fm, body, []) <==> Canonical(fm, printable)
  {
    hide Parse, Render, SingleLine, Canonical, Normalize;
    ParsedIsSingleLine(Render(fm, printable) + body);
    if Canonical(fm, printable) { CanonicalIsSingleLine(fm, printable); }
    if SingleLine(fm) {
      RenderThenParse(fm, body, printable);
      NormalizeIff(fm, printable);
    }
  }
}

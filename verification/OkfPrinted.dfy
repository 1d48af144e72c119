/**
 Which lines of printed frontmatter are read: all but those of blank values.
 */
module OkfPrinted {
  import opened Wrappers
  import opened Text
  import opened Okf
  import opened OkfLines
  import opened OkfRoundTrip
  import opened OkfCanonical
  import opened OkfUnread

  // Fields of one line each

  /** A blank value: its key is taken for the start of a block. */
  predicate Blank(v: Option<string>) { v.Some? && Trim(v.value) == "" }

  /** What a printed field does: under `provenance:` a blank value still sets its field. */
  function FieldSetting(f: Field, top: bool): seq<Setting> {
    match f.value
    case None => []
    case Some(v) =>
      var line := LineFor(f.name, v);
      [if top && Blank(f.value) then Nothing([line]) else ScalarSetting(KeyOf(f.name), v, line)]
  }

  function FieldSettings(fs: seq<Field>, top: bool): seq<Setting> {
    if fs == [] then [] else FieldSetting(fs[0], top) + FieldSettings(fs[1..], top)
  }

  function BlankLine(f: Field): seq<string> { if Blank(f.value) then [LineFor(f.name, f.value.value)] else [] }

  /** The lines of blank values. */
  function BlankLines(fs: seq<Field>): seq<string> {
    if fs == [] then [] else BlankLine(fs[0]) + BlankLines(fs[1..])
  }

  /** No printed line is a comment or blank. */
  predicate AllLogical(ls: seq<string>) {
    forall l :: l in ls ==> LogicalLine(StripCr(l)).Some?
  }

  lemma ScalarSettingTrim(key: Key, v: string, line: string)
    ensures ScalarSetting(key, Trim(v), line) == ScalarSetting(key, v, line)
  {
    hide Trim, Unquote;
    UnquoteTrim(v);
  }

  lemma FieldIsSetting(f: Field, rest: seq<Line>)
    requires ValidField(f) && Flush(rest)
    ensures var ls := FieldLine(f.name, f.value);
      && AllLogical(ls)
      && Settings(ReadLines(ls) + rest) == FieldSetting(f, true) + Settings(rest)
  {
    hide KeyOf, PlainKey, LogicalLine, SplitKeyValue, Trim, LineFor, ScalarSetting, Settings;
    match f.value
    case None =>
      assert ReadLines([]) + rest == rest by { NothingRead(); }
      assert [] + Settings(rest) == Settings(rest);
    case Some(v) =>
      assert "" + f.name == f.name;
      FieldLineLines("", f.name, v);
      FieldLineReads("", f.name, v);
      var line := Line(0, LineFor(f.name, v));
      ScalarFirst(line, f.name, Trim(v), rest);
      ScalarSettingTrim(KeyOf(f.name), v, line.content);
  }

  lemma ScalarFirst(line: Line, key: string, value: string, rest: seq<Line>)
    requires line.indent == 0 && SplitKeyValue(line.content) == Some((key, value)) && Flush(rest)
    requires value == "" ==> ScalarKey(KeyOf(key)) && !KeyOf(key).TagsKey? && !KeyOf(key).RefsKey?
    ensures Settings([line] + rest)
         == [if value == "" then Nothing([line.content]) else ScalarSetting(KeyOf(key), value, line.content)]
            + Settings(rest)
  {
    hide KeyOf, SplitKeyValue, ScalarSetting, ProvenanceSettings, ItemLines, BlockItems, Settings;
    var lines := [line] + rest;
    assert lines[1..] == rest;
    SettingsUnfold(lines);
    assert Taken(lines) == 1;
    if value == "" {
      assert lines[1..1] == [] && Contents([]) == [];
      assert [line.content] + [] == [line.content];
      assert FirstSettings(lines) == [Nothing([line.content])];
    }
  }

  lemma {:induction false} FieldsAreSettings(fs: seq<Field>, rest: seq<Line>)
    requires ValidFields(fs) && Flush(rest)
    ensures AllLogical(FieldLines(fs)) && Flush(ReadLines(FieldLines(fs)) + rest)
    ensures Settings(ReadLines(FieldLines(fs)) + rest) == FieldSettings(fs, true) + Settings(rest)
    decreases |fs|
  {
    hide ValidField, LogicalLine, Settings, ReadLines, FieldLine, FieldSetting;
    if fs == [] {
      assert ReadLines([]) + rest == rest by { NothingRead(); }
      assert [] + Settings(rest) == Settings(rest);
    } else {
      var f, line, lines := fs[0], FieldLine(fs[0].name, fs[0].value), FieldLines(fs[1..]);
      assert ValidField(f);
      FieldsAreSettings(fs[1..], rest);
      ReadLinesConcat(line, lines);
      assert ReadLines(line) + ReadLines(lines) + rest == ReadLines(line) + (ReadLines(lines) + rest);
      FieldIsSetting(f, ReadLines(lines) + rest);
      ReadValidField(f, ReadLines(lines) + rest, Progress(EMPTY, []));
      assert FieldSetting(f, true) + (FieldSettings(fs[1..], true) + Settings(rest))
        == FieldSettings(fs, true) + Settings(rest);
    }
  }

  function FieldKeys(fs: seq<Field>): set<Key> { set f | f in fs :: KeyOf(f.name) }

  /** Different known keys. */
  predicate DifferentKeys(fs: seq<Field>) {
    && (forall i :: 0 <= i < |fs| ==> KeyOf(fs[i].name) != UnknownKey && KeyOf(fs[i].name) != ProvenanceKey)
    && (forall i, j :: 0 <= i < j < |fs| ==> KeyOf(fs[i].name) != KeyOf(fs[j].name))
  }

  lemma FieldStands(f: Field, top: bool, later: seq<Setting>)
    requires KeyOf(f.name) != UnknownKey && KeyOf(f.name) != ProvenanceKey && KeyOf(f.name) !in Keys(later)
    ensures LostLines(FieldSetting(f, top) + later) == (if top then BlankLine(f) else []) + LostLines(later)
    ensures Keys(FieldSetting(f, top) + later) <= {KeyOf(f.name)} + Keys(later)
  {
    hide Keys, KeyOf, Unquote, LineFor, Trim;
    if f.value.Some? {
      var all := FieldSetting(f, top) + later;
      assert all[0] == FieldSetting(f, top)[0] && all[1..] == later;
      KeysCons(all);
    } else {
      assert [] + later == later && [] + LostLines(later) == LostLines(later);
    }
  }

  /** Fields of different keys all stand, unless they are blank, before any settings of other keys. */
  lemma {:induction false} FieldsStand(fs: seq<Field>, top: bool, rest: seq<Setting>)
    requires DifferentKeys(fs) && FieldKeys(fs) !! Keys(rest)
    ensures LostLines(FieldSettings(fs, top) + rest) == (if top then BlankLines(fs) else []) + LostLines(rest)
    ensures Keys(FieldSettings(fs, top) + rest) <= FieldKeys(fs) + Keys(rest)
    decreases |fs|
  {
    hide Keys, KeyOf, FieldSetting, BlankLine, LostLines;
    if fs == [] {
      assert [] + rest == rest && [] + LostLines(rest) == LostLines(rest);
    } else {
      var f, later := fs[0], FieldSettings(fs[1..], top) + rest;
      assert f in fs && forall g :: g in fs[1..] ==> g in fs;
      assert KeyOf(f.name) !in FieldKeys(fs[1..]);
      FieldsStand(fs[1..], top, rest);
      assert FieldSettings(fs, top) + rest == FieldSetting(f, top) + later;
      FieldStands(f, top, later);
    }
  }

  // The provenance block

  /** The same fields, without their indentation. */
  function InnerFields(prov: Provenance, printable: Printable): seq<Field> {
    var fs := ProvenanceFields(prov, printable);
    [Field("actor", fs[0].value), Field("session", fs[1].value), Field("source", fs[2].value)]
  }

  lemma {:induction false} ProvenanceSettingsConcat(a: seq<Line>, b: seq<Line>)
    ensures ProvenanceSettings(a + b) == ProvenanceSettings(a) + ProvenanceSettings(b)
  {
    hide ProvenanceSetting;
    if a == [] {
      assert a + b == b;
    } else {
      assert (a + b)[0] == a[0] && (a + b)[1..] == a[1..] + b;
      ProvenanceSettingsConcat(a[1..], b);
    }
  }

  lemma InnerFieldIsSetting(f: Field, key: string)
    requires ProvenanceField(f, key) && !ScalarKey(KeyOf(key))
    ensures var ls := FieldLine(f.name, f.value);
      && AllLogical(ls)
      && ProvenanceSettings(ReadLines(ls)) == FieldSetting(Field(key, f.value), false)
      && forall l :: l in ReadLines(ls) ==> l.indent > 0
  {
    hide KeyOf, PlainKey, LogicalLine, SplitKeyValue, Trim, LineFor, ScalarSetting, ScalarKey;
    match f.value
    case None =>
      NothingRead();
    case Some(v) =>
      FieldLineLines("  ", key, v);
      FieldLineReads("  ", key, v);
      ScalarSettingTrim(KeyOf(key), v, LineFor(key, v));
      assert [Line(2, LineFor(key, v))][1..] == [];
  }

  lemma HeadingFirst(header: Line, key: string, children: seq<Line>, rest: seq<Line>)
    requires header.indent == 0 && SplitKeyValue(header.content) == Some((key, "")) && KeyOf(key).ProvenanceKey?
    requires (forall l :: l in children ==> l.indent > 0) && Flush(rest)
    requires Keys(ProvenanceSettings(children)) != {}
    ensures Settings([header] + (children + rest))
         == [Heading([header.content])] + ProvenanceSettings(children) + Settings(rest)
  {
    hide KeyOf, SplitKeyValue, IndentedPrefix, Settings, Keys, ProvenanceSettings, BlockSettings;
    var lines := [header] + (children + rest);
    assert lines[1..] == children + rest;
    IndentedPrefixOf(children, rest);
    SettingsUnfold(lines);
    assert lines[1..1 + |children|] == children && lines[1 + |children|..] == rest;
    HeadingSettings(header.content, KeyOf(key), children);
  }

  lemma HeadingSettings(head: string, key: Key, children: seq<Line>)
    requires key.ProvenanceKey? && Keys(ProvenanceSettings(children)) != {}
    ensures BlockSettings(head, key, children) == [Heading([head])] + ProvenanceSettings(children)
  {
    hide ProvenanceSettings, Keys;
  }

  lemma SettingsUnfold(lines: seq<Line>)
    requires lines != []
    ensures Settings(lines) == FirstSettings(lines) + Settings(lines[Taken(lines)..])
  {
  }

  lemma InnerFieldsAreSettings(prov: Provenance, printable: Printable)
    requires SingleLineValue(MapOption(prov.source, ShowSource))
    ensures var ls := FieldLines(ProvenanceFields(prov, printable));
      && AllLogical(ls)
      && ProvenanceSettings(ReadLines(ls)) == FieldSettings(InnerFields(prov, printable), false)
      && forall l :: l in ReadLines(ls) ==> l.indent > 0
  {
    hide KeyOf, LogicalLine, ReadLines, ProvenanceSettings, FieldSetting, FieldLine, ProvenanceField, Trim;
    var fs, inner := ProvenanceFields(prov, printable), InnerFields(prov, printable);
    ProvenanceFieldsValid(prov, printable);
    ProvenanceKeyNames();
    InnerFieldIsSetting(fs[0], "actor");
    InnerFieldIsSetting(fs[1], "session");
    InnerFieldIsSetting(fs[2], "source");
    assert fs == [fs[0], fs[1], fs[2]];
    FieldLinesOf3(fs[0], fs[1], fs[2]);
    var a, b, c := FieldLine(fs[0].name, fs[0].value), FieldLine(fs[1].name, fs[1].value),
      FieldLine(fs[2].name, fs[2].value);
    ProvenanceSettingsConcat(ReadLines(a), ReadLines(b) + ReadLines(c));
    ProvenanceSettingsConcat(ReadLines(b), ReadLines(c));
    ThreeSettings(inner[0], inner[1], inner[2]);
    ThreeLines(fs[0], fs[1], fs[2]);
  }

  lemma ThreeSettings(a: Field, b: Field, c: Field)
    ensures FieldSettings([a, b, c], false)
         == FieldSetting(a, false) + (FieldSetting(b, false) + FieldSetting(c, false))
  {
    hide FieldSetting;
    assert [a, b, c][1..] == [b, c] && [b, c][1..] == [c] && [c][1..] == [];
    assert FieldSettings([c], false) == FieldSetting(c, false);
  }

  lemma ThreeLines(a: Field, b: Field, c: Field)
    ensures FieldLines([a, b, c])
         == FieldLine(a.name, a.value) + (FieldLine(b.name, b.value) + FieldLine(c.name, c.value))
  {
    hide FieldLine;
    assert [a, b, c][1..] == [b, c] && [b, c][1..] == [c] && [c][1..] == [];
    assert FieldLines([c]) == FieldLine(c.name, c.value);
  }

  lemma SomeInnerField(prov: Provenance, printable: Printable)
    requires prov != EMPTY_PROVENANCE
    ensures Keys(FieldSettings(InnerFields(prov, printable), false)) != {}
    ensures DifferentKeys(InnerFields(prov, printable))
    ensures FieldKeys(InnerFields(prov, printable)) == {ActorKey, SessionKey, SourceKey}
  {
    hide KeyOf, Unquote, LineFor, Debug, ShowSource, Blank;
    ProvenanceKeyNames();
    var fs := InnerFields(prov, printable);
    ThreeSettings(fs[0], fs[1], fs[2]);
    assert fs == [fs[0], fs[1], fs[2]];
    var i := if prov.actor.Some? then 0 else if prov.session.Some? then 1 else 2;
    var s := FieldSetting(fs[i], false)[0];
    assert s in FieldSettings(fs, false) && Keyed(s);
    assert s.key in Keys(FieldSettings(fs, false));
  }

  /** The provenance block loses nothing, whatever follows that has other keys. */
  lemma ProvenanceStands(prov: Provenance, printable: Printable, rest: seq<Line>)
    requires SingleLineValue(MapOption(prov.source, ShowSource)) && Flush(rest)
    requires Keys(Settings(rest)) !! {ActorKey, SessionKey, SourceKey}
    ensures var ls := ProvenanceLines(prov, printable);
      && AllLogical(ls)
      && LostLines(Settings(ReadLines(ls) + rest)) == LostLines(Settings(rest))
      && Keys(Settings(ReadLines(ls) + rest)) <= {ActorKey, SessionKey, SourceKey} + Keys(Settings(rest))
      && Flush(ReadLines(ls) + rest)
  {
    hide KeyOf, LogicalLine, ReadLines, ProvenanceSettings, FieldSettings, FieldLines, Settings, Keys, LostLines;
    hide SplitKeyValue, FieldKeys, InnerFields, DifferentKeys, ProvenanceFields, GoodLine;
    if prov == EMPTY_PROVENANCE {
      assert ReadLines([]) + rest == rest by { NothingRead(); }
    } else {
      var ls, inner := FieldLines(ProvenanceFields(prov, printable)), InnerFields(prov, printable);
      var header := Line(0, "provenance:");
      HeaderLineReads();
      ProvenanceKeyNames();
      InnerFieldsAreSettings(prov, printable);
      SomeInnerField(prov, printable);
      HeaderRead();
      ReadLinesConcat(["provenance:"], ls);
      assert [header] + ReadLines(ls) + rest == [header] + (ReadLines(ls) + rest);
      HeadingFirst(header, "provenance", ReadLines(ls), rest);
      FieldsStand(inner, false, Settings(rest));
      HeadingStands(header.content, FieldSettings(inner, false) + Settings(rest));
      assert [Heading([header.content])] + FieldSettings(inner, false) + Settings(rest)
          == [Heading([header.content])] + (FieldSettings(inner, false) + Settings(rest));
    }
  }

  lemma HeadingStands(head: string, rest: seq<Setting>)
    ensures LostLines([Heading([head])] + rest) == LostLines(rest)
    ensures Keys([Heading([head])] + rest) == Keys(rest)
  {
    var all := [Heading([head])] + rest;
    assert all[1..] == rest;
    KeysCons(all);
    hide Keys;
    assert [] + LostLines(rest) == LostLines(rest);
  }

  // Whole printed files

  /** Begins with something that trimming keeps. */
  predicate Solid(v: Option<string>) {
    v.Some? ==> v.value != "" && !IsSpace(v.value[0])
  }

  lemma SolidIsNotBlank(v: Option<string>)
    requires Solid(v)
    ensures !Blank(v)
  {
    hide IsSpace, Trim;
    if v.Some? { KeptFirst(v.value); }
  }

  lemma {:induction false} SolidFields(fs: seq<Field>)
    requires forall i :: 0 <= i < |fs| ==> Solid(fs[i].value)
    ensures BlankLines(fs) == []
  {
    hide Solid, Blank;
    if fs != [] {
      SolidIsNotBlank(fs[0].value);
      SolidFields(fs[1..]);
    }
  }

  lemma QuotedIsSolid(v: Option<string>, printable: Printable)
    ensures Solid(QuotedValue(v, printable))
  {
  }

  lemma BareIsSolid(s: string)
    requires BareKept(s)
    ensures Solid(Some(s))
  {
  }

  lemma WordsAreSolid(fm: Frontmatter)
    requires TypeCanonical(fm.itemType) && ScopeCanonical(fm.scope) && VisibilityCanonical(fm.visibility)
    requires ConfidenceCanonical(fm.confidence)
    ensures Solid(MapOption(fm.itemType, ShowItemType)) && Solid(MapOption(fm.scope, ShowScope))
    ensures Solid(MapOption(fm.visibility, ShowVisibility)) && Solid(MapOption(fm.confidence, ShowConfidence))
  {
    hide ItemTypeOf, ScopeOf, VisibilityOf, ConfidenceOf, QuoteWrapped, NoNewline;
  }

  lemma TokensAreSolid(fm: Frontmatter)
    requires TokensCanonical(fm.tokensRaw, fm.tokens)
    ensures Solid(TokensValue(fm))
  {
    hide ParseTokens;
  }

  lemma ListIsSolid(items: seq<string>)
    ensures Solid(ListValue(items))
  {
    hide Join;
  }

  /** The fields that a merge can conflict about and the lists can be read back. */
  predicate MostlyCanonical(fm: Frontmatter, printable: Printable) {
    && QuotedCanonical(fm.title, printable) && TypeCanonical(fm.itemType) && ScopeCanonical(fm.scope)
    && (fm.workspace.Some? ==> BareCanonical(fm.workspace.value))
    && VisibilityCanonical(fm.visibility) && ConfidenceCanonical(fm.confidence)
    && QuotedCanonical(fm.expires, printable) && ListCanonical(fm.tags) && ListCanonical(fm.refs)
  }

  /** Then tokens are the only field that can be blank. */
  lemma MostlySolid(fm: Frontmatter, printable: Printable)
    requires MostlyCanonical(fm, printable)
    ensures BlankLines(LeadingFields(fm, printable)) == []
    ensures BlankLines(TrailingFields(fm, printable)) == BlankLine(Field("tokens", TokensValue(fm)))
  {
    hide Blank, BlankLine, BareKept, NoNewline, QuotedValue, TokensValue, ListValue, QuotedCanonical, ListCanonical;
    hide TypeCanonical, ScopeCanonical, VisibilityCanonical, ConfidenceCanonical, BlankLines, Solid;
    hide ShowItemType, ShowScope, ShowVisibility, ShowConfidence;
    WordsAreSolid(fm);
    ListIsSolid(fm.tags);
    ListIsSolid(fm.refs);
    QuotedIsSolid(fm.title, printable);
    QuotedIsSolid(fm.expires, printable);
    QuotedIsSolid(fm.updated, printable);
    if fm.workspace.Some? { BareIsSolid(fm.workspace.value); } else { NoneIsSolid(); }
    var c := TrailingFields(fm, printable);
    SolidFields(LeadingFields(fm, printable));
    SolidFields(c[..2]);
    SolidFields(c[3..]);
    assert c == c[..2] + ([c[2]] + c[3..]);
    BlankConcat(c[..2], [c[2]] + c[3..]);
    BlankConcat([c[2]], c[3..]);
    OneBlank(c[2]);
    assert [] + (BlankLine(c[2]) + []) == BlankLine(c[2]);
  }

  lemma OneBlank(f: Field)
    ensures BlankLines([f]) == BlankLine(f)
  {
    assert [f][1..] == [];
  }

  lemma {:induction false} BlankConcat(a: seq<Field>, b: seq<Field>)
    ensures BlankLines(a + b) == BlankLines(a) + BlankLines(b)
  {
    hide BlankLine;
    if a == [] {
      assert a + b == b;
    } else {
      assert (a + b)[0] == a[0] && (a + b)[1..] == a[1..] + b;
      BlankConcat(a[1..], b);
    }
  }

  lemma NoneIsSolid()
    ensures Solid(None)
  {
  }

  lemma LeadingKeys(fm: Frontmatter, printable: Printable)
    ensures DifferentKeys(LeadingFields(fm, printable))
    ensures FieldKeys(LeadingFields(fm, printable)) <= {TitleKey, TypeKey, ScopeKey, WorkspaceKey, VisibilityKey}
  {
    hide KeyOf, QuotedValue, ShowItemType, ShowScope, ShowVisibility;
    KeyNames();
  }

  lemma TrailingKeys(fm: Frontmatter, printable: Printable)
    ensures DifferentKeys(TrailingFields(fm, printable))
    ensures FieldKeys(TrailingFields(fm, printable))
         <= {ConfidenceKey, ExpiresKey, TokensKey, TagsKey, RefsKey, UpdatedKey}
  {
    hide KeyOf, QuotedValue, TokensValue, ListValue, ShowConfidence;
    KeyNames();
  }

  /** The lines of fields of different keys are read, unless they are blank, before lines of other keys. */
  lemma LinesStand(fs: seq<Field>, rest: seq<Line>)
    requires ValidFields(fs) && DifferentKeys(fs) && FieldKeys(fs) !! Keys(Settings(rest)) && Flush(rest)
    ensures AllLogical(FieldLines(fs)) && Flush(ReadLines(FieldLines(fs)) + rest)
    ensures LostLines(Settings(ReadLines(FieldLines(fs)) + rest)) == BlankLines(fs) + LostLines(Settings(rest))
    ensures Keys(Settings(ReadLines(FieldLines(fs)) + rest)) <= FieldKeys(fs) + Keys(Settings(rest))
  {
    hide ReadLines, FieldSettings, FieldLines, Settings, Keys, LostLines, ValidFields, FieldKeys, DifferentKeys;
    hide AllLogical, BlankLines, Flush;
    FieldsAreSettings(fs, rest);
    FieldsStand(fs, true, Settings(rest));
  }

  lemma TrailingStand(fm: Frontmatter, printable: Printable)
    requires SingleLine(fm)
    ensures var fs := TrailingFields(fm, printable);
      var lines := ReadLines(FieldLines(fs));
      && AllLogical(FieldLines(fs)) && Flush(lines) && LostLines(Settings(lines)) == BlankLines(fs)
      && Keys(Settings(lines)) <= {ConfidenceKey, ExpiresKey, TokensKey, TagsKey, RefsKey, UpdatedKey}
  {
    hide ReadLines, FieldLines, Settings, Keys, LostLines, ValidFields, FieldKeys, DifferentKeys, AllLogical;
    hide TrailingFields, SingleLine, LeadingFields, BlankLines;
    var fs := TrailingFields(fm, printable);
    TrailingKeys(fm, printable);
    TrailingValid(fm, printable);
    NothingStands();
    LinesStand(fs, []);
    assert ReadLines(FieldLines(fs)) + [] == ReadLines(FieldLines(fs));
    assert BlankLines(fs) + [] == BlankLines(fs);
  }

  /** The lines of a printed block that are lost are those of its blank values. */
  lemma BlockStands(fm: Frontmatter, printable: Printable)
    requires SingleLine(fm)
    ensures AllLogical(BlockLines(fm, printable))
    ensures LostLines(Settings(ReadLines(BlockLines(fm, printable))))
         == BlankLines(LeadingFields(fm, printable)) + BlankLines(TrailingFields(fm, printable))
  {
    hide LogicalLine, ReadLines, FieldLines, Settings, Keys, LostLines, ValidFields, FieldKeys, DifferentKeys;
    hide LeadingFields, TrailingFields, ProvenanceLines, BlankLines, Flush;
    var leading := LeadingFields(fm, printable);
    var a, b := FieldLines(leading), ProvenanceLines(fm.provenance, printable);
    var c := FieldLines(TrailingFields(fm, printable));
    LeadingKeys(fm, printable);
    LeadingValid(fm, printable);
    TrailingStand(fm, printable);
    ProvenanceStands(fm.provenance, printable, ReadLines(c));
    LinesStand(leading, ReadLines(b) + ReadLines(c));
    ReadLinesConcat(a + b, c);
    ReadLinesConcat(a, b);
    assert ReadLines(a) + ReadLines(b) + ReadLines(c) == ReadLines(a) + (ReadLines(b) + ReadLines(c));
  }

  lemma NothingStands()
    ensures Settings([]) == [] && Keys([]) == {} && LostLines([]) == []
  {
  }

  lemma {:induction false} NoComments(ls: seq<string>)
    requires GoodLines(ls) && AllLogical(ls)
    ensures Comments(Lines(Unlines(ls))) == []
  {
    hide GoodLine, LogicalLine, LineText;
    if ls == [] {
      assert Comments([]) == [];
    } else {
      assert ls[0] in ls && GoodLine(ls[0]);
      LinesCons(ls[0], Unlines(ls[1..])) by { GoodIsOneLine(ls[0]); }
      NoComments(ls[1..]);
      var raws := [StripCr(ls[0])] + Lines(Unlines(ls[1..]));
      assert raws[1..] == Lines(Unlines(ls[1..]));
      LogicalIsNoComment(raws[0]);
    }
  }

  lemma GoodIsOneLine(l: string)
    requires GoodLine(l)
    ensures NoNewline(l)
  {
  }

  lemma LogicalIsNoComment(raw: string)
    requires LogicalLine(raw).Some?
    ensures !IsComment(LineText(raw))
  {
  }

  /** What is unread in a file written line by line. */
  lemma WrittenUnread(ls: seq<string>, body: string)
    requires GoodLines(ls) && AllLogical(ls)
    ensures Unread("---\n" + Unlines(ls) + "---\n" + body) == LostLines(Settings(ReadLines(ls)))
  {
    hide GoodLine, LogicalLine, Comments, LostLines, Settings, ReadLines, Unlines, Lines, StripOpening, SplitAtClosing;
    hide LogicalLines;
    var text, rest := "---\n" + Unlines(ls) + "---\n" + body, Unlines(ls) + "---\n" + body;
    assert text == "---\n" + rest;
    OpeningStripped(rest);
    ClosingFound(ls, body);
    UnlinesRead(ls);
    NoComments(ls);
    assert [] + LostLines(Settings(ReadLines(ls))) == LostLines(Settings(ReadLines(ls)));
  }

  /** What is unread in printed frontmatter, whatever its fields hold: the lines of blank values. */
  lemma PrintedUnread(fm: Frontmatter, body: string, printable: Printable)
    requires SingleLine(fm)
    ensures Unread(Render(fm, printable) + body)
         == BlankLines(LeadingFields(fm, printable)) + BlankLines(TrailingFields(fm, printable))
  {
    hide SingleLine, BlockLines, Unread, GoodLines, AllLogical, LostLines, Settings, ReadLines, Unlines, BlankLines;
    BlockReads(fm, printable);
    BlockStands(fm, printable);
    WrittenUnread(BlockLines(fm, printable), body);
  }

  /** Printed frontmatter that can be read back is read to its last line. */
  lemma CanonicalIsRead(fm: Frontmatter, body: string, printable: Printable)
    requires SingleLine(fm) && Canonical(fm, printable)
    ensures Unread(Render(fm, printable) + body) == []
  {
    hide SingleLine, Render, Unread, BlankLines, TokensCanonical, Solid, TokensValue, BareKept;
    PrintedUnread(fm, body, printable);
    MostlySolid(fm, printable);
    TokensAreSolid(fm);
    SolidIsNotBlank(TokensValue(fm));
  }

  /** What is unread in a file of plain `name: value` lines. */
  lemma FieldsUnread(fields: seq<Field>, body: string)
    requires ValidFields(fields)
    ensures Unread(FileOf(fields, body)) == LostLines(FieldSettings(fields, true))
  {
    hide ValidField, Unread, LostLines, Settings, ReadLines, Unlines, AllLogical, FieldSettings, GoodLine;
    FieldsGood(fields);
    FieldsAreSettings(fields, []);
    NothingStands();
    assert ReadLines(FieldLines(fields)) + [] == ReadLines(FieldLines(fields));
    assert FieldSettings(fields, true) + [] == FieldSettings(fields, true);
    WrittenUnread(FieldLines(fields), body);
  }
}

/**
 Printing frontmatter and parsing it back: what every field becomes, and exactly when nothing changes.
 */
module OkfRoundTrip {
  import opened Wrappers
  import opened Text
  import opened Okf
  import opened OkfLines

  /** How a printed scalar value is read back. */
  function ReadBack(v: Option<string>): Option<string> {
    match v
    case None => None
    case Some(s) => OptString(Unquote(s))
  }

  function ReadBackTokens(v: Option<string>): Option<u32> {
    match ReadBack(v)
    case None => None
    case Some(s) => ParseTokens(s)
  }

  function ReadBackList(items: seq<string>): seq<string> {
    match ListValue(items)
    case None => []
    case Some(v) => ListOf(Unquote(v))
  }

  function ReadBackProvenance(prov: Provenance, printable: Printable): Provenance {
    Provenance(
      ReadBack(QuotedValue(prov.actor, printable)),
      ReadBack(QuotedValue(prov.session, printable)),
      MapOption(ReadBack(MapOption(prov.source, ShowSource)), SourceOf))
  }

  /** Field by field, what printing and parsing back makes of `fm`. */
  function Normalize(fm: Frontmatter, printable: Printable): Frontmatter {
    Frontmatter(
      ReadBack(QuotedValue(fm.title, printable)),
      MapOption(ReadBack(MapOption(fm.itemType, ShowItemType)), ItemTypeOf),
      MapOption(ReadBack(MapOption(fm.scope, ShowScope)), ScopeOf),
      ReadBack(fm.workspace),
      MapOption(ReadBack(MapOption(fm.visibility, ShowVisibility)), VisibilityOf),
      ReadBackProvenance(fm.provenance, printable),
      MapOption(ReadBack(MapOption(fm.confidence, ShowConfidence)), ConfidenceOf),
      ReadBack(QuotedValue(fm.expires, printable)),
      ReadBack(TokensValue(fm)),
      ReadBackTokens(TokensValue(fm)),
      ReadBackList(fm.tags),
      ReadBackList(fm.refs),
      ReadBack(QuotedValue(fm.updated, printable)))
  }

  predicate SingleLineValue(v: Option<string>) {
    v.Some? ==> NoNewline(v.value)
  }

  predicate SingleLineItems(items: seq<string>) {
    forall s :: s in items ==> NoNewline(s)
  }

  /** No field that is printed without escapes holds a newline. */
  predicate SingleLine(fm: Frontmatter) {
    && SingleLineValue(MapOption(fm.itemType, ShowItemType))
    && SingleLineValue(MapOption(fm.scope, ShowScope))
    && SingleLineValue(fm.workspace)
    && SingleLineValue(MapOption(fm.visibility, ShowVisibility))
    && SingleLineValue(MapOption(fm.provenance.source, ShowSource))
    && SingleLineValue(MapOption(fm.confidence, ShowConfidence))
    && SingleLineValue(fm.tokensRaw)
    && SingleLineItems(fm.tags)
    && SingleLineItems(fm.refs)
  }

  // Printed values are single lines

  lemma {:induction false} HexIsPlain(n: nat)
    ensures '\n' !in HexLower(n)
    ensures |HexLower(n)| > 0
  {
    if n >= 16 { HexIsPlain(n / 16); }
    HexDigitIsPlain(n % 16);
  }

  lemma HexDigitIsPlain(n: nat)
    requires n < 16
    ensures HexDigit(n) != '\n'
  {
  }

  lemma DebugCharLine(c: char, printable: Printable)
    ensures '\n' !in DebugChar(c, printable)
    ensures |DebugChar(c, printable)| >= if Plain(c, printable) then 1 else 2
  {
    HexIsPlain(c as int);
  }

  lemma {:induction false} EscapedLine(s: string, printable: Printable)
    ensures NoNewline(Escaped(s, printable))
    ensures |Escaped(s, printable)| >= |s|
  {
    if s != "" {
      DebugCharLine(s[0], printable);
      EscapedLine(s[1..], printable);
    }
  }

  lemma QuotedLine(v: Option<string>, printable: Printable)
    ensures SingleLineValue(QuotedValue(v, printable))
  {
    if v.Some? { EscapedLine(v.value, printable); }
  }

  lemma {:induction false} DecimalLine(n: nat)
    ensures NoNewline(Decimal(n))
  {
    if n >= 10 { DecimalLine(n / 10); }
    assert '0' + (n % 10) as char != '\n';
  }

  lemma {:induction false} JoinLine(items: seq<string>)
    requires SingleLineItems(items)
    ensures NoNewline(Join(items))
  {
    if |items| > 1 {
      JoinLine(items[1..]);
      assert items[0] in items;
    } else if |items| == 1 {
      assert items[0] in items;
    }
  }

  lemma ListLine(items: seq<string>)
    requires SingleLineItems(items)
    ensures SingleLineValue(ListValue(items))
  {
    JoinLine(items);
  }

  lemma FieldLinesGood(pad: string, key: string, value: Option<string>)
    requires Pad(pad) && PlainKey(key) && SingleLineValue(value)
    ensures GoodLines(FieldLine(pad + key, value))
  {
    if value.Some? {
      assert pad + key + ": " + value.value == pad + key + (": " + value.value);
      FieldLineGood(pad, key, ": " + value.value);
    }
  }

  // One field at a time

  /** The value of one scalar key written on the right of its colon. */
  function SetField(fm: Frontmatter, key: Key, value: Option<string>): Frontmatter {
    if value.None? || Trim(value.value) == "" then fm else ApplyScalarField(fm, key, Unquote(value.value))
  }

  predicate Flush(rest: seq<Line>) {
    rest == [] || rest[0].indent == 0
  }

  predicate ScalarKey(key: Key) {
    !key.ProvenanceKey? && !key.ActorKey? && !key.SessionKey? && !key.SourceKey?
  }

  /** A key with an empty value is read as the start of a block, which would empty a list. */
  predicate WritableList(key: Key, value: Option<string>) {
    (key.TagsKey? || key.RefsKey?) && value.Some? ==> Trim(value.value) != ""
  }

  lemma UnquoteTrim(s: string)
    ensures Unquote(Trim(s)) == Unquote(s)
  {
    hide Trim, Trimmed;
    TrimFixpoint(s);
    TrimFixpoint(Trim(s));
  }

  lemma FieldLineLines(pad: string, key: string, v: string)
    requires Pad(pad) && PlainKey(key)
    ensures ReadLines(FieldLine(pad + key, Some(v))) == [Line(|pad|, LineFor(key, v))]
  {
    FieldLineReads(pad, key, v);
    assert FieldLine(pad + key, Some(v)) == [pad + key + ": " + v];
  }

  lemma ReadScalarLine(line: Line, key: string, value: string, rest: seq<Line>, p: Progress)
    requires line.indent == 0 && SplitKeyValue(line.content) == Some((key, value))
    requires ScalarKey(KeyOf(key)) && Flush(rest)
    requires KeyOf(key).TagsKey? || KeyOf(key).RefsKey? ==> value != ""
    ensures ParseLines([line] + rest, p)
         == ParseLines(rest, if value == "" then p else p.(fm := ApplyScalarField(p.fm, KeyOf(key), Unquote(value))))
  {
    hide SplitKeyValue, Unquote, ApplyScalarField, ParseLines, KeyOf, BlockItems, ApplyProvenanceLines, IndentedPrefix;
    var lines := [line] + rest;
    assert lines[1..] == rest;
    if value == "" {
      assert [] + rest == rest;
      IndentedPrefixOf([], rest);
      StepBlock(lines, key, p, 0);
      assert lines[1 + 0..] == rest && lines[1..1 + 0] == [];
    } else {
      StepScalar(lines, key, value, p);
    }
  }

  lemma ReadField(key: string, value: Option<string>, rest: seq<Line>, p: Progress)
    requires PlainKey(key) && ScalarKey(KeyOf(key)) && WritableList(KeyOf(key), value) && Flush(rest)
    ensures ParseLines(ReadLines(FieldLine(key, value)) + rest, p)
         == ParseLines(rest, p.(fm := SetField(p.fm, KeyOf(key), value)))
  {
    if value.None? {
      assert ReadLines([]) + rest == rest;
      assert p.(fm := p.fm) == p;
    } else {
      var v := value.value;
      assert "" + key == key;
      FieldLineLines("", key, v);
      FieldLineReads("", key, v);
      UnquoteTrim(v);
      ReadScalarLine(Line(0, LineFor(key, v)), key, Trim(v), rest, p);
      assert p.(fm := p.fm) == p;
    }
  }

  lemma FieldLinesFlush(key: string, value: Option<string>, rest: seq<Line>)
    requires PlainKey(key) && Flush(rest)
    ensures Flush(ReadLines(FieldLine(key, value)) + rest)
  {
    if value.Some? {
      assert "" + key == key;
      FieldLineLines("", key, value.value);
    } else {
      assert ReadLines([]) + rest == rest;
    }
  }

  // The provenance block

  lemma {:induction false} ProvenanceConcat(p: Progress, a: seq<Line>, b: seq<Line>)
    ensures ApplyProvenanceLines(p, a + b) == ApplyProvenanceLines(ApplyProvenanceLines(p, a), b)
    decreases |a|
  {
    if a == [] {
      assert a + b == b;
    } else {
      assert (a + b)[1..] == a[1..] + b && (a + b)[0] == a[0];
      var q := match SplitKeyValue(a[0].content)
               case Some((k, v)) =>
                 p.(fm := p.fm.(provenance := ApplyProvenanceField(p.fm.provenance, KeyOf(k), Unquote(v))))
               case None => p.Warn(MalformedProvenance(a[0].content));
      ProvenanceConcat(q, a[1..], b);
    }
  }

  lemma {:induction false} IndentedPrefixOf(children: seq<Line>, rest: seq<Line>)
    requires forall l :: l in children ==> l.indent > 0
    requires Flush(rest)
    ensures IndentedPrefix(children + rest) == |children|
  {
    if children == [] {
      assert children + rest == rest;
    } else {
      assert (children + rest)[1..] == children[1..] + rest;
      assert children[0] in children;
      IndentedPrefixOf(children[1..], rest);
    }
  }

  lemma ReadBlock(header: Line, key: string, children: seq<Line>, rest: seq<Line>, p: Progress)
    requires header.indent == 0 && SplitKeyValue(header.content) == Some((key, "")) && KeyOf(key).ProvenanceKey?
    requires forall l :: l in children ==> l.indent > 0
    requires Flush(rest)
    ensures ParseLines([header] + (children + rest), p) == ParseLines(rest, ApplyProvenanceLines(p, children))
  {
    hide ParseLines, ApplyProvenanceLines, KeyOf, SplitKeyValue, IndentedPrefix;
    var lines, n := [header] + (children + rest), |children|;
    assert lines[1..] == children + rest;
    IndentedPrefixOf(children, rest);
    StepBlock(lines, key, p, n);
    assert lines[1 + n..] == rest;
    assert lines[1..1 + n] == children;
  }

  lemma KeyNames()
    ensures KeyOf("title") == TitleKey && KeyOf("type") == TypeKey && KeyOf("scope") == ScopeKey
    ensures KeyOf("workspace") == WorkspaceKey && KeyOf("visibility") == VisibilityKey
    ensures KeyOf("confidence") == ConfidenceKey && KeyOf("expires") == ExpiresKey
    ensures KeyOf("tokens") == TokensKey && KeyOf("tags") == TagsKey
    ensures KeyOf("refs") == RefsKey && KeyOf("updated") == UpdatedKey
  {
  }

  lemma ProvenanceKeyNames()
    ensures KeyOf("provenance") == ProvenanceKey
    ensures KeyOf("actor") == ActorKey && KeyOf("session") == SessionKey && KeyOf("source") == SourceKey
  {
  }

  // Several fields

  predicate ValidField(f: Field) {
    && PlainKey(f.name) && ScalarKey(KeyOf(f.name))
    && SingleLineValue(f.value) && WritableList(KeyOf(f.name), f.value)
  }

  predicate ValidFields(fs: seq<Field>) {
    forall i :: 0 <= i < |fs| ==> ValidField(fs[i])
  }

  function SetFields(fm: Frontmatter, fs: seq<Field>): Frontmatter
    decreases |fs|
  {
    if fs == [] then fm else SetFields(SetField(fm, KeyOf(fs[0].name), fs[0].value), fs[1..])
  }

  lemma SetFieldsCons(fm: Frontmatter, f: Field, fs: seq<Field>)
    ensures SetFields(fm, [f] + fs) == SetFields(SetField(fm, KeyOf(f.name), f.value), fs)
  {
    hide SetField, KeyOf;
    assert ([f] + fs)[1..] == fs;
  }

  lemma {:induction false} ReadFields(fs: seq<Field>, rest: seq<Line>, p: Progress)
    requires ValidFields(fs) && Flush(rest)
    ensures Flush(ReadLines(FieldLines(fs)) + rest)
    ensures ParseLines(ReadLines(FieldLines(fs)) + rest, p) == ParseLines(rest, p.(fm := SetFields(p.fm, fs)))
    decreases |fs|
  {
    hide ParseLines, KeyOf, ValidField, ReadLines, FieldLine, SetField;
    if fs == [] {
      assert ReadLines([]) == [] by { NothingRead(); }
      assert [] + rest == rest;
      assert p.(fm := p.fm) == p;
    } else {
      var f := fs[0];
      assert ValidField(f);
      var line, lines := FieldLine(f.name, f.value), FieldLines(fs[1..]);
      ReadFields(fs[1..], rest, p.(fm := SetField(p.fm, KeyOf(f.name), f.value)));
      ReadLinesConcat(line, lines);
      assert ReadLines(line) + ReadLines(lines) + rest == ReadLines(line) + (ReadLines(lines) + rest);
      ReadValidField(f, ReadLines(lines) + rest, p);
    }
  }

  lemma NothingRead()
    ensures ReadLines([]) == []
  {
  }

  lemma ReadValidField(f: Field, rest: seq<Line>, p: Progress)
    requires ValidField(f) && Flush(rest)
    ensures Flush(ReadLines(FieldLine(f.name, f.value)) + rest)
    ensures ParseLines(ReadLines(FieldLine(f.name, f.value)) + rest, p)
         == ParseLines(rest, p.(fm := SetField(p.fm, KeyOf(f.name), f.value)))
  {
    hide ParseLines, KeyOf, PlainKey, SetField;
    ReadField(f.name, f.value, rest, p);
    FieldLinesFlush(f.name, f.value, rest);
  }

  lemma {:induction false} FieldsGood(fs: seq<Field>)
    requires ValidFields(fs)
    ensures GoodLines(FieldLines(fs))
  {
    hide KeyOf, GoodLine, FieldLine;
    if fs != [] {
      assert ValidField(fs[0]);
      assert "" + fs[0].name == fs[0].name;
      FieldLinesGood("", fs[0].name, fs[0].value);
      FieldsGood(fs[1..]);
    }
  }

  // The provenance fields

  /** A field printed two columns in. */
  predicate ProvenanceField(f: Field, key: string) {
    PlainKey(key) && f.name == "  " + key && SingleLineValue(f.value)
  }

  function SetProvenance(prov: Provenance, key: Key, value: Option<string>): Provenance {
    if value.None? then prov else ApplyProvenanceField(prov, key, Unquote(value.value))
  }

  /** `lines` sit under `provenance:` and change `p` only in the provenance, to `prov`. */
  predicate ProvenanceChange(p: Progress, lines: seq<Line>, prov: Provenance) {
    && (forall l :: l in lines ==> l.indent > 0)
    && ApplyProvenanceLines(p, lines) == p.(fm := p.fm.(provenance := prov))
  }

  lemma ReadProvenanceField(f: Field, key: string, p: Progress)
    requires ProvenanceField(f, key)
    ensures ProvenanceChange(p, ReadLines(FieldLine(f.name, f.value)),
                             SetProvenance(p.fm.provenance, KeyOf(key), f.value))
  {
    hide KeyOf, ReadLines, SplitKeyValue, ApplyProvenanceField, PlainKey, Trim, Unquote, LineFor;
    if f.value.Some? {
      var v := f.value.value;
      FieldLineLines("  ", key, v);
      FieldLineReads("  ", key, v);
      UnquoteTrim(v);
      OneProvenanceLine(Line(2, LineFor(key, v)), key, Trim(v), p);
    } else {
      NothingRead();
    }
  }

  lemma OneProvenanceLine(line: Line, key: string, v: string, p: Progress)
    requires SplitKeyValue(line.content) == Some((key, v))
    ensures ApplyProvenanceLines(p, [line])
         == p.(fm := p.fm.(provenance := ApplyProvenanceField(p.fm.provenance, KeyOf(key), Unquote(v))))
  {
    hide KeyOf, SplitKeyValue, ApplyProvenanceField, Unquote;
    assert [line][1..] == [];
  }

  lemma ChangeConcat(p: Progress, a: seq<Line>, b: seq<Line>, x: Provenance, y: Provenance)
    requires ProvenanceChange(p, a, x)
    requires ProvenanceChange(p.(fm := p.fm.(provenance := x)), b, y)
    ensures ProvenanceChange(p, a + b, y)
  {
    hide ApplyProvenanceLines;
    ProvenanceConcat(p, a, b);
  }

  lemma FieldLinesOf3(a: Field, b: Field, c: Field)
    ensures ReadLines(FieldLines([a, b, c]))
         == ReadLines(FieldLine(a.name, a.value))
             + (ReadLines(FieldLine(b.name, b.value)) + ReadLines(FieldLine(c.name, c.value)))
  {
    hide ReadLines, FieldLine;
    assert [a, b, c][1..] == [b, c] && [b, c][1..] == [c] && [c][1..] == [];
    var x, y, z := FieldLine(a.name, a.value), FieldLine(b.name, b.value), FieldLine(c.name, c.value);
    assert FieldLines([c]) == z;
    assert FieldLines([b, c]) == y + z;
    assert FieldLines([a, b, c]) == x + (y + z);
    ReadLinesConcat(x, y + z);
    ReadLinesConcat(y, z);
  }

  lemma ReadProvenanceFields(a: Field, b: Field, c: Field, p: Progress)
    requires ProvenanceField(a, "actor") && ProvenanceField(b, "session") && ProvenanceField(c, "source")
    ensures ProvenanceChange(p, ReadLines(FieldLines([a, b, c])),
      SetProvenance(SetProvenance(SetProvenance(p.fm.provenance, ActorKey, a.value), SessionKey, b.value), SourceKey,
                    c.value))
  {
    hide ReadLines, FieldLine, KeyOf, ProvenanceChange, SetProvenance, ProvenanceField, FieldLines;
    ProvenanceKeyNames();
    var x := SetProvenance(p.fm.provenance, ActorKey, a.value);
    var y := SetProvenance(x, SessionKey, b.value);
    ReadProvenanceField(a, "actor", p);
    var pa := p.(fm := p.fm.(provenance := x));
    ReadProvenanceField(b, "session", pa);
    var pb := pa.(fm := pa.fm.(provenance := y));
    ReadProvenanceField(c, "source", pb);
    var la, lb, lc :=
      ReadLines(FieldLine(a.name, a.value)), ReadLines(FieldLine(b.name, b.value)),
      ReadLines(FieldLine(c.name, c.value));
    ChangeConcat(pa, lb, lc, y, SetProvenance(y, SourceKey, c.value));
    ChangeConcat(p, la, lb + lc, x, SetProvenance(y, SourceKey, c.value));
    FieldLinesOf3(a, b, c);
  }

  lemma ProvenanceSets(prov: Provenance, printable: Printable)
    ensures var fs := ProvenanceFields(prov, printable);
      SetProvenance(SetProvenance(SetProvenance(EMPTY_PROVENANCE, ActorKey, fs[0].value), SessionKey, fs[1].value),
        SourceKey, fs[2].value)
      == ReadBackProvenance(prov, printable)
  {
    hide Unquote, OptString, SourceOf, ShowSource, Debug;
  }

  lemma ProvenanceFieldsValid(prov: Provenance, printable: Printable)
    requires SingleLineValue(MapOption(prov.source, ShowSource))
    ensures var fs := ProvenanceFields(prov, printable);
      ProvenanceField(fs[0], "actor") && ProvenanceField(fs[1], "session") && ProvenanceField(fs[2], "source")
  {
    hide PlainKey, ShowSource, Debug;
    LettersArePlain("actor");
    LettersArePlain("session");
    LettersArePlain("source");
    QuotedLine(prov.actor, printable);
    QuotedLine(prov.session, printable);
    assert "  " + "actor" == "  actor" && "  " + "session" == "  session" && "  " + "source" == "  source";
  }

  lemma ReadProvenance(prov: Provenance, printable: Printable, rest: seq<Line>, p: Progress)
    requires p.fm.provenance == EMPTY_PROVENANCE && Flush(rest)
    requires SingleLineValue(MapOption(prov.source, ShowSource))
    ensures ParseLines(ReadLines(ProvenanceLines(prov, printable)) + rest, p)
         == ParseLines(rest, p.(fm := p.fm.(provenance := ReadBackProvenance(prov, printable))))
    ensures Flush(ReadLines(ProvenanceLines(prov, printable)) + rest)
    ensures GoodLines(ProvenanceLines(prov, printable))
  {
    hide ParseLines, ReadLines, ReadBackProvenance, ProvenanceField, FieldLines, GoodLine;
    if prov == EMPTY_PROVENANCE {
      NothingRead();
      assert [] + rest == rest;
      assert ReadBackProvenance(prov, printable) == EMPTY_PROVENANCE by { EmptyProvenanceReadBack(printable); }
      assert p.(fm := p.fm.(provenance := EMPTY_PROVENANCE)) == p;
    } else {
      var fs := ProvenanceFields(prov, printable);
      ProvenanceFieldsValid(prov, printable);
      ReadProvenanceFields(fs[0], fs[1], fs[2], p);
      ProvenanceSets(prov, printable);
      assert fs == [fs[0], fs[1], fs[2]];
      ReadHeaded(FieldLines(fs), rest, p);
      ProvenanceFieldsGood(fs[0], fs[1], fs[2]);
      HeaderLineReads();
    }
  }

  lemma ProvenanceFieldsGood(a: Field, b: Field, c: Field)
    requires ProvenanceField(a, "actor") && ProvenanceField(b, "session") && ProvenanceField(c, "source")
    ensures GoodLines(FieldLines([a, b, c]))
  {
    hide GoodLine, PlainKey, FieldLine;
    FieldLinesGood("  ", "actor", a.value);
    FieldLinesGood("  ", "session", b.value);
    FieldLinesGood("  ", "source", c.value);
    assert [a, b, c][1..] == [b, c] && [b, c][1..] == [c] && [c][1..] == [];
    assert FieldLines([c]) == FieldLine(c.name, c.value);
    assert FieldLines([b, c]) == FieldLine(b.name, b.value) + FieldLine(c.name, c.value);
  }

  lemma EmptyProvenanceReadBack(printable: Printable)
    ensures ReadBackProvenance(EMPTY_PROVENANCE, printable) == EMPTY_PROVENANCE
  {
  }

  lemma HeaderRead()
    ensures ReadLines(["provenance:"]) == [Line(0, "provenance:")] && GoodLine("provenance:")
    ensures SplitKeyValue("provenance:") == Some(("provenance", ""))
  {
    hide LogicalLine, SplitKeyValue, GoodLine;
    HeaderLineReads();
    assert ["provenance:"][1..] == [];
  }

  lemma StartsFlush(header: Line, more: seq<Line>)
    requires header.indent == 0
    ensures Flush([header] + more)
  {
  }

  lemma ReadHeaded(children: seq<string>, rest: seq<Line>, p: Progress)
    requires (forall l :: l in ReadLines(children) ==> l.indent > 0) && Flush(rest)
    ensures ParseLines(ReadLines(["provenance:"] + children) + rest, p)
         == ParseLines(rest, ApplyProvenanceLines(p, ReadLines(children)))
    ensures Flush(ReadLines(["provenance:"] + children) + rest)
  {
    hide *;
    var header := Line(0, "provenance:");
    ReadLinesConcat(["provenance:"], children);
    HeaderRead();
    ProvenanceKeyNames();
    StartsFlush(header, ReadLines(children) + rest);
    assert [header] + ReadLines(children) + rest == [header] + (ReadLines(children) + rest);
    ReadBlock(header, "provenance", ReadLines(children), rest, p);
  }

  // What each key does

  lemma SetsText(fm: Frontmatter, v: Option<string>)
    ensures fm.title == None ==> SetField(fm, TitleKey, v) == fm.(title := ReadBack(v))
    ensures fm.workspace == None ==> SetField(fm, WorkspaceKey, v) == fm.(workspace := ReadBack(v))
    ensures fm.expires == None ==> SetField(fm, ExpiresKey, v) == fm.(expires := ReadBack(v))
    ensures fm.updated == None ==> SetField(fm, UpdatedKey, v) == fm.(updated := ReadBack(v))
  {
    hide Unquote, Trim, OptString, ListOf, ParseTokens;
    BlankReadsAsNone(v);
  }

  lemma BlankReadsAsNone(v: Option<string>)
    ensures v.Some? && Trim(v.value) == "" ==> ReadBack(v) == None
  {
    hide Trim;
  }

  lemma SetsEnum(fm: Frontmatter, v: Option<string>)
    ensures fm.itemType == None ==> SetField(fm, TypeKey, v) == fm.(itemType := MapOption(ReadBack(v), ItemTypeOf))
    ensures fm.scope == None ==> SetField(fm, ScopeKey, v) == fm.(scope := MapOption(ReadBack(v), ScopeOf))
    ensures fm.visibility == None
      ==> SetField(fm, VisibilityKey, v) == fm.(visibility := MapOption(ReadBack(v), VisibilityOf))
    ensures fm.confidence == None
      ==> SetField(fm, ConfidenceKey, v) == fm.(confidence := MapOption(ReadBack(v), ConfidenceOf))
  {
    hide Unquote, Trim, OptString, ListOf, ParseTokens, ItemTypeOf, ScopeOf, VisibilityOf, ConfidenceOf;
    BlankReadsAsNone(v);
  }

  lemma SetsTokens(fm: Frontmatter, v: Option<string>)
    requires fm.tokensRaw == None && fm.tokens == None
    ensures SetField(fm, TokensKey, v) == fm.(tokensRaw := ReadBack(v), tokens := ReadBackTokens(v))
  {
    hide Unquote, Trim, ListOf, ParseTokens;
    BlankReadsAsNone(v);
  }

  lemma SetsList(fm: Frontmatter, items: seq<string>)
    ensures fm.tags == [] ==> SetField(fm, TagsKey, ListValue(items)) == fm.(tags := ReadBackList(items))
    ensures fm.refs == [] ==> SetField(fm, RefsKey, ListValue(items)) == fm.(refs := ReadBackList(items))
  {
    hide ListOf, Unquote, Join, Trim;
    if items != [] { BracketsKept(Join(items)); }
  }

  lemma BracketsKept(s: string)
    ensures Trim("[" + s + "]") == "[" + s + "]" != ""
    ensures Unquote("[" + s + "]") == "[" + s + "]"
  {
    hide Trim;
    var v := "[" + s + "]";
    assert v[0] == '[' && v[|v| - 1] == ']';
    TrimFixpoint(v);
  }

  lemma LettersMakeField(name: string, value: Option<string>)
    requires name != "" && forall i :: 0 <= i < |name| ==> 'a' <= name[i] <= 'z'
    requires ScalarKey(KeyOf(name)) && SingleLineValue(value) && WritableList(KeyOf(name), value)
    ensures ValidField(Field(name, value))
  {
    LettersArePlain(name);
  }

  lemma LeadingValid(fm: Frontmatter, printable: Printable)
    requires SingleLine(fm)
    ensures ValidFields(LeadingFields(fm, printable))
  {
    hide KeyOf, ValidField, QuotedValue, NoNewline, ShowItemType, ShowScope, ShowVisibility;
    KeyNames();
    QuotedLine(fm.title, printable);
    LettersMakeField("title", QuotedValue(fm.title, printable));
    LettersMakeField("type", MapOption(fm.itemType, ShowItemType));
    LettersMakeField("scope", MapOption(fm.scope, ShowScope));
    LettersMakeField("workspace", fm.workspace);
    LettersMakeField("visibility", MapOption(fm.visibility, ShowVisibility));
  }

  lemma TokensLine(fm: Frontmatter)
    requires SingleLineValue(fm.tokensRaw)
    ensures SingleLineValue(TokensValue(fm))
  {
    if fm.tokens.Some? { DecimalLine(fm.tokens.value); }
  }

  lemma ListsValid(fm: Frontmatter)
    requires SingleLineItems(fm.tags) && SingleLineItems(fm.refs)
    ensures ValidField(Field("tags", ListValue(fm.tags))) && ValidField(Field("refs", ListValue(fm.refs)))
  {
    hide KeyOf, ValidField, NoNewline, Join, Trim;
    KeyNames();
    ListLine(fm.tags);
    ListLine(fm.refs);
    BracketsKept(Join(fm.tags));
    BracketsKept(Join(fm.refs));
    LettersMakeField("tags", ListValue(fm.tags));
    LettersMakeField("refs", ListValue(fm.refs));
  }

  lemma TrailingValid(fm: Frontmatter, printable: Printable)
    requires SingleLine(fm)
    ensures ValidFields(TrailingFields(fm, printable))
  {
    hide KeyOf, ValidField, QuotedValue, TokensValue, ShowConfidence, NoNewline, ListValue;
    KeyNames();
    QuotedLine(fm.expires, printable);
    QuotedLine(fm.updated, printable);
    TokensLine(fm);
    ListsValid(fm);
    LettersMakeField("confidence", MapOption(fm.confidence, ShowConfidence));
    LettersMakeField("expires", QuotedValue(fm.expires, printable));
    LettersMakeField("tokens", TokensValue(fm));
    LettersMakeField("updated", QuotedValue(fm.updated, printable));
  }

  function NormalizedLeading(fm: Frontmatter, printable: Printable): Frontmatter {
    var n := Normalize(fm, printable);
    EMPTY.(title := n.title, itemType := n.itemType, scope := n.scope, workspace := n.workspace,
           visibility := n.visibility)
  }

  lemma LeadingSets(fm: Frontmatter, printable: Printable)
    ensures SetFields(EMPTY, LeadingFields(fm, printable)) == NormalizedLeading(fm, printable)
  {
    hide KeyOf, SetFields, SetField, ReadBack, QuotedValue;
    KeyNames();
    var fs := LeadingFields(fm, printable);
    SetsText(EMPTY, fs[0].value);
    var f1 := EMPTY.(title := ReadBack(fs[0].value));
    SetsEnum(f1, fs[1].value);
    var f2 := f1.(itemType := MapOption(ReadBack(fs[1].value), ItemTypeOf));
    SetsEnum(f2, fs[2].value);
    var f3 := f2.(scope := MapOption(ReadBack(fs[2].value), ScopeOf));
    SetsText(f3, fs[3].value);
    var f4 := f3.(workspace := ReadBack(fs[3].value));
    SetsEnum(f4, fs[4].value);
    var f5 := f4.(visibility := MapOption(ReadBack(fs[4].value), VisibilityOf));
    FiveFields(EMPTY, fs, f1, f2, f3, f4, f5);
  }

  lemma FiveFields(f0: Frontmatter, fs: seq<Field>, f1: Frontmatter, f2: Frontmatter, f3: Frontmatter, f4: Frontmatter,
                   f5: Frontmatter)
    requires |fs| == 5
    requires SetField(f0, KeyOf(fs[0].name), fs[0].value) == f1
    requires SetField(f1, KeyOf(fs[1].name), fs[1].value) == f2
    requires SetField(f2, KeyOf(fs[2].name), fs[2].value) == f3
    requires SetField(f3, KeyOf(fs[3].name), fs[3].value) == f4
    requires SetField(f4, KeyOf(fs[4].name), fs[4].value) == f5
    ensures SetFields(f0, fs) == f5
  {
    hide KeyOf, SetField;
    assert fs == [fs[0]] + fs[1..] && fs[1..] == [fs[1]] + fs[2..] && fs[2..] == [fs[2]] + fs[3..];
    assert fs[3..] == [fs[3]] + fs[4..] && fs[4..] == [fs[4]] + [];
    SetFieldsCons(f0, fs[0], fs[1..]);
    SetFieldsCons(f1, fs[1], fs[2..]);
    SetFieldsCons(f2, fs[2], fs[3..]);
    SetFieldsCons(f3, fs[3], fs[4..]);
    SetFieldsCons(f4, fs[4], []);
  }

  lemma TrailingSets(fm: Frontmatter, printable: Printable, f0: Frontmatter)
    requires f0 == NormalizedLeading(fm, printable).(provenance := ReadBackProvenance(fm.provenance, printable))
    ensures SetFields(f0, TrailingFields(fm, printable)) == Normalize(fm, printable)
  {
    hide KeyOf, SetFields, SetField, ReadBack, ReadBackTokens, ReadBackList, TokensValue, QuotedValue, ListValue;
    KeyNames();
    var fs := TrailingFields(fm, printable);
    SetsEnum(f0, fs[0].value);
    var f1 := f0.(confidence := MapOption(ReadBack(fs[0].value), ConfidenceOf));
    SetsText(f1, fs[1].value);
    var f2 := f1.(expires := ReadBack(fs[1].value));
    SetsTokens(f2, fs[2].value);
    var f3 := f2.(tokensRaw := ReadBack(fs[2].value), tokens := ReadBackTokens(fs[2].value));
    SetsList(f3, fm.tags);
    var f4 := f3.(tags := ReadBackList(fm.tags));
    SetsList(f4, fm.refs);
    var f5 := f4.(refs := ReadBackList(fm.refs));
    SetsText(f5, fs[5].value);
    var f6 := f5.(updated := ReadBack(fs[5].value));
    assert fs == [fs[0]] + fs[1..];
    SetFieldsCons(f0, fs[0], fs[1..]);
    FiveFields(f1, fs[1..], f2, f3, f4, f5, f6);
  }

  /**
   Printing then parsing, for every frontmatter without a newline in a bare field and every body: the body comes
   back exactly, no warning is raised, and each field becomes what `Normalize` says.
   */
  lemma RenderThenParse(fm: Frontmatter, body: string, printable: Printable)
    requires SingleLine(fm)
    ensures Parse(Render(fm, printable) + body) == Parsed(Normalize(fm, printable), body, [])
  {
    hide ParseLines, FieldLines, Normalize, LeadingFields, TrailingFields, ReadLines, ProvenanceLines, Unlines,
      GoodLine;
    hide LogicalLines, Lines, SplitAtClosing, StripOpening, NormalizedLeading, ReadBackProvenance, SetFields;
    var ls := BlockLines(fm, printable);
    BlockReads(fm, printable);
    var rest := Unlines(ls) + "---\n" + body;
    assert Render(fm, printable) + body == "---\n" + rest;
    OpeningStripped(rest);
    ClosingFound(ls, body);
    UnlinesRead(ls);
  }

  lemma BlockReads(fm: Frontmatter, printable: Printable)
    requires SingleLine(fm)
    ensures GoodLines(BlockLines(fm, printable))
    ensures ParseLines(ReadLines(BlockLines(fm, printable)), Progress(EMPTY, []))
         == Progress(Normalize(fm, printable), [])
  {
    hide ParseLines, FieldLines, Normalize, LeadingFields, TrailingFields, ReadLines, ProvenanceLines, GoodLine;
    hide ReadBackProvenance, SetFields, ValidFields;
    var p0 := Progress(EMPTY, []);
    var leading, trailing := LeadingFields(fm, printable), TrailingFields(fm, printable);
    var a, b, c := FieldLines(leading), ProvenanceLines(fm.provenance, printable), FieldLines(trailing);
    LeadingValid(fm, printable);
    TrailingValid(fm, printable);
    FieldsGood(leading);
    FieldsGood(trailing);
    ReadLinesConcat(a + b, c);
    ReadLinesConcat(a, b);
    var p1 := p0.(fm := SetFields(EMPTY, leading));
    LeadingSets(fm, printable);
    var p2 := p1.(fm := p1.fm.(provenance := ReadBackProvenance(fm.provenance, printable)));
    ReadFields(trailing, [], p2);
    assert ReadLines(c) + [] == ReadLines(c);
    ReadProvenance(fm.provenance, printable, ReadLines(c), p1);
    ReadFields(leading, ReadLines(b) + ReadLines(c), p0);
    assert ReadLines(a) + ReadLines(b) + ReadLines(c) == ReadLines(a) + (ReadLines(b) + ReadLines(c));
    TrailingSets(fm, printable, p2.fm);
    assert ParseLines([], Progress(Normalize(fm, printable), [])) == Progress(Normalize(fm, printable), []) by {
      NothingParsed(Progress(Normalize(fm, printable), []));
    }
  }

  /** A file written as plain `name: value` lines is read as those fields, with its body untouched. */
  lemma WrittenFileParses(fields: seq<Field>, body: string)
    requires ValidFields(fields)
    ensures Parse(FileOf(fields, body)) == Parsed(SetFields(EMPTY, fields), body, [])
  {
    hide ParseLines, FieldLines, ReadLines, Unlines, GoodLine, LogicalLines, Lines, SplitAtClosing, StripOpening;
    hide SetFields, ValidField;
    var ls, p := FieldLines(fields), Progress(EMPTY, []);
    var rest := Unlines(ls) + "---\n" + body;
    assert FileOf(fields, body) == "---\n" + rest;
    FieldsGood(fields);
    OpeningStripped(rest);
    ClosingFound(ls, body);
    UnlinesRead(ls);
    ReadFields(fields, [], p);
    assert ReadLines(ls) + [] == ReadLines(ls);
    NothingParsed(p.(fm := SetFields(EMPTY, fields)));
  }

  function FileOf(fields: seq<Field>, body: string): string {
    "---\n" + Unlines(FieldLines(fields)) + "---\n" + body
  }
}

/**
 The lines of a frontmatter block that leave no trace in what is parsed: comments, lines without a key or under no key,
 unknown keys with all that stands below them, and values that a later line of the same key replaces.
 */
module OkfUnread {
  import opened Wrappers
  import opened Text
  import opened Okf
  import opened OkfLines
  import opened OkfRoundTrip

  /** What some lines of a block do to the frontmatter. */
  datatype Setting =
    | Scalar(key: Key, value: string, lines: seq<string>)
    | Items(key: Key, items: seq<string>, lines: seq<string>)
    | Heading(lines: seq<string>)
    | Nothing(lines: seq<string>)

  predicate Keyed(s: Setting) { s.Scalar? || (s.Items? && (s.key.TagsKey? || s.key.RefsKey?)) }

  function Keys(settings: seq<Setting>): set<Key> { set s | s in settings && Keyed(s) :: s.key }

  function ScalarSetting(key: Key, value: string, line: string): Setting {
    if key.UnknownKey? || key.ProvenanceKey? then Nothing([line]) else Scalar(key, Unquote(value), [line])
  }

  function ProvenanceSetting(line: string): Setting {
    match SplitKeyValue(line)
    case None => Nothing([line])
    case Some((k, v)) => if ScalarKey(KeyOf(k)) then Nothing([line]) else ScalarSetting(KeyOf(k), v, line)
  }

  function ProvenanceSettings(children: seq<Line>): seq<Setting> {
    if children == [] then [] else [ProvenanceSetting(children[0].content)] + ProvenanceSettings(children[1..])
  }

  predicate IsItem(line: string) { line != "" && line[0] == '-' }

  function ItemLines(children: seq<Line>, items: bool): seq<string> {
    if children == [] then []
    else (if IsItem(children[0].content) == items then [children[0].content] else []) + ItemLines(children[1..], items)
  }

  function Contents(lines: seq<Line>): seq<string> {
    if lines == [] then [] else [lines[0].content] + Contents(lines[1..])
  }

  function BlockSettings(head: string, key: Key, children: seq<Line>): seq<Setting> {
    if key.TagsKey? || key.RefsKey? then
      [Items(key, BlockItems(children), [head] + ItemLines(children, true)), Nothing(ItemLines(children, false))]
    else if key.ProvenanceKey? then
      var inner := ProvenanceSettings(children);
      [if Keys(inner) == {} then Nothing([head]) else Heading([head])] + inner
    else [Nothing([head] + Contents(children))]
  }

  /** The first line is a key with nothing after its colon: the indented lines that follow are its own. */
  predicate BlockStarts(lines: seq<Line>)
    requires lines != []
  {
    match SplitKeyValue(lines[0].content)
    case None => false
    case Some((_, rest)) => lines[0].indent == 0 && rest == ""
  }

  /** How many lines the parser takes at a time. */
  function Taken(lines: seq<Line>): (n: nat)
    requires lines != []
    ensures 1 <= n <= |lines|
  {
    if BlockStarts(lines) then 1 + IndentedPrefix(lines[1..]) else 1
  }

  function FirstSettings(lines: seq<Line>): seq<Setting>
    requires lines != []
  {
    var content := lines[0].content;
    if lines[0].indent != 0 then [Nothing([content])]
    else
      match SplitKeyValue(content)
      case None => [Nothing([content])]
      case Some((key, rest)) =>
        if rest == "" then BlockSettings(content, KeyOf(key), lines[1..Taken(lines)])
        else [ScalarSetting(KeyOf(key), rest, content)]
  }

  /** The settings of a block, in order, cut where the parser cuts. */
  function Settings(lines: seq<Line>): seq<Setting>
    decreases |lines|
  {
    if lines == [] then [] else FirstSettings(lines) + Settings(lines[Taken(lines)..])
  }

  /** A setting that still stands after `later`. */
  predicate Stands(s: Setting, later: seq<Setting>) {
    s.Heading? || (Keyed(s) && s.key !in Keys(later))
  }

  function Standing(settings: seq<Setting>): seq<Setting> {
    if settings == [] then []
    else (if Stands(settings[0], settings[1..]) then [settings[0]] else []) + Standing(settings[1..])
  }

  function LinesOf(settings: seq<Setting>): seq<string> {
    if settings == [] then [] else settings[0].lines + LinesOf(settings[1..])
  }

  /** The lines of settings that do not stand. */
  function LostLines(settings: seq<Setting>): seq<string> {
    if settings == [] then []
    else (if Stands(settings[0], settings[1..]) then [] else settings[0].lines) + LostLines(settings[1..])
  }

  // Whole files

  /** The raw lines between the delimiters; none if there is no frontmatter. */
  function RawLines(text: string): seq<string> {
    match StripOpening(text)
    case None => []
    case Some(afterOpen) =>
      match SplitAtClosing(afterOpen)
      case None => []
      case Some((block, _)) => Lines(block)
  }

  /** A raw line without its indentation and its end. */
  function LineText(raw: string): string { TrimEnd(TrimBlanks(StripCrs(raw))) }

  /** The lines that are not blank. */
  function LineTexts(raws: seq<string>): seq<string> {
    if raws == [] then []
    else (if LineText(raws[0]) == "" then [] else [LineText(raws[0])]) + LineTexts(raws[1..])
  }

  predicate IsComment(line: string) { line != "" && line[0] == '#' }

  function Comments(raws: seq<string>): seq<string> {
    if raws == [] then []
    else (if IsComment(LineText(raws[0])) then [LineText(raws[0])] else []) + Comments(raws[1..])
  }

  function SettingsOf(text: string): seq<Setting> { Settings(LogicalLines(RawLines(text))) }

  /** The lines of a file's frontmatter that its parsed frontmatter does not show. */
  function Unread(text: string): seq<string> { Comments(RawLines(text)) + LostLines(SettingsOf(text)) }

  // What the settings say is what is parsed

  function Apply(fm: Frontmatter, s: Setting): Frontmatter {
    match s
    case Scalar(key, value, _) => ApplyScalarField(fm, key, value)
    case Items(key, items, _) =>
      if key.TagsKey? then fm.(tags := items) else if key.RefsKey? then fm.(refs := items) else fm
    case _ => fm
  }

  function ApplyAll(fm: Frontmatter, settings: seq<Setting>): Frontmatter
    decreases |settings|
  {
    if settings == [] then fm else ApplyAll(Apply(fm, settings[0]), settings[1..])
  }

  lemma {:induction false} ApplyConcat(fm: Frontmatter, a: seq<Setting>, b: seq<Setting>)
    ensures ApplyAll(fm, a + b) == ApplyAll(ApplyAll(fm, a), b)
    decreases |a|
  {
    hide Apply;
    if a == [] {
      assert a + b == b;
    } else {
      assert (a + b)[0] == a[0] && (a + b)[1..] == a[1..] + b;
      ApplyConcat(Apply(fm, a[0]), a[1..], b);
    }
  }

  lemma ApplyOne(fm: Frontmatter, s: Setting, rest: seq<Setting>)
    ensures ApplyAll(fm, [s] + rest) == ApplyAll(Apply(fm, s), rest)
  {
    hide Apply;
    assert ([s] + rest)[1..] == rest;
  }

  lemma ScalarApplied(p: Progress, name: string, value: string, line: string)
    ensures ApplyScalar(p, name, value).fm == Apply(p.fm, ScalarSetting(KeyOf(name), value, line))
  {
    hide KeyOf, Unquote, OptString, ListOf, ParseTokens;
  }

  lemma ProvenanceLineApplied(fm: Frontmatter, line: string)
    ensures Apply(fm, ProvenanceSetting(line))
         == match SplitKeyValue(line)
            case None => fm
            case Some((k, v)) => fm.(provenance := ApplyProvenanceField(fm.provenance, KeyOf(k), Unquote(v)))
  {
    hide KeyOf, SplitKeyValue, Unquote, OptString, ListOf, ParseTokens;
    assert fm.(provenance := fm.provenance) == fm;
  }

  lemma {:induction false} ProvenanceApplied(p: Progress, children: seq<Line>)
    ensures ApplyProvenanceLines(p, children).fm == ApplyAll(p.fm, ProvenanceSettings(children))
    decreases |children|
  {
    hide Apply, ProvenanceSetting, SplitKeyValue, KeyOf, Unquote, ApplyProvenanceField;
    if children != [] {
      var line := children[0].content;
      var q := match SplitKeyValue(line)
               case Some((k, v)) =>
                 p.(fm := p.fm.(provenance := ApplyProvenanceField(p.fm.provenance, KeyOf(k), Unquote(v))))
               case None => p.Warn(MalformedProvenance(line));
      ProvenanceLineApplied(p.fm, line);
      ProvenanceApplied(q, children[1..]);
      ApplyOne(p.fm, ProvenanceSetting(line), ProvenanceSettings(children[1..]));
    }
  }

  lemma BlockApplied(p: Progress, name: string, head: string, children: seq<Line>)
    ensures ApplyBlock(p, name, children).fm == ApplyAll(p.fm, BlockSettings(head, KeyOf(name), children))
  {
    hide ProvenanceSettings, ApplyProvenanceLines, BlockItems, ItemLines, Contents, KeyOf;
    var key, settings := KeyOf(name), BlockSettings(head, KeyOf(name), children);
    if key.ProvenanceKey? {
      ProvenanceApplied(p, children);
      ApplyOne(p.fm, settings[0], ProvenanceSettings(children));
    } else {
      assert settings == [settings[0]] + settings[1..];
      ApplyOne(p.fm, settings[0], settings[1..]);
      assert settings[1..] == [] || settings[1..] == [settings[1]] + [];
      if settings[1..] != [] { ApplyOne(Apply(p.fm, settings[0]), settings[1], []); }
    }
  }

  /** The parsed frontmatter is what the settings make of it, one after another. */
  lemma {:induction false} ParsedBySettings(lines: seq<Line>, p: Progress)
    ensures ParseLines(lines, p).fm == ApplyAll(p.fm, Settings(lines))
    decreases |lines|
  {
    hide Apply, ApplyAll, FirstSettings, Taken, ParseLines;
    if lines == [] {
      NothingParsed(p);
      NothingApplied(p.fm);
    } else {
      var q := FirstParsed(lines, p);
      ParsedBySettings(lines[Taken(lines)..], q);
      ApplyConcat(p.fm, FirstSettings(lines), Settings(lines[Taken(lines)..]));
    }
  }

  /** One step of the parser: what it takes, and what that does. */
  lemma FirstParsed(lines: seq<Line>, p: Progress) returns (q: Progress)
    requires lines != []
    ensures ParseLines(lines, p) == ParseLines(lines[Taken(lines)..], q)
    ensures q.fm == ApplyAll(p.fm, FirstSettings(lines))
  {
    hide Apply, ApplyAll, ApplyBlock, ApplyScalar, BlockSettings, ScalarSetting, SplitKeyValue, IndentedPrefix, KeyOf;
    hide ParseLines;
    var head := lines[0].content;
    if lines[0].indent != 0 || SplitKeyValue(head) == None {
      StepSkipped(lines, p);
      q := p.Warn(if lines[0].indent != 0 then IndentedLine(head) else NoKey(head));
      ApplySingle(p.fm, Nothing([head]));
    } else {
      var (key, rest) := SplitKeyValue(head).value;
      if rest == "" {
        StepBlock(lines, key, p, IndentedPrefix(lines[1..]));
        q := ApplyBlock(p, key, lines[1..Taken(lines)]);
        BlockApplied(p, key, head, lines[1..Taken(lines)]);
      } else {
        StepScalar(lines, key, rest, p);
        q := ApplyScalar(p, key, rest);
        ScalarApplied(p, key, rest, head);
        ApplySingle(p.fm, ScalarSetting(KeyOf(key), rest, head));
      }
    }
  }

  lemma ApplySingle(fm: Frontmatter, s: Setting)
    ensures ApplyAll(fm, [s]) == Apply(fm, s)
    ensures s.Nothing? ==> ApplyAll(fm, [s]) == fm
  {
    assert [s] == [s] + [];
    ApplyOne(fm, s, []);
  }

  lemma NothingApplied(fm: Frontmatter)
    ensures ApplyAll(fm, []) == fm
  {
  }

  // Lines that do not stand do not matter, and those that stand do

  /** The two have the same value in the field of `key`. */
  predicate Agree(f: Frontmatter, g: Frontmatter, key: Key) {
    match key
    case TitleKey => f.title == g.title
    case TypeKey => f.itemType == g.itemType
    case ScopeKey => f.scope == g.scope
    case WorkspaceKey => f.workspace == g.workspace
    case VisibilityKey => f.visibility == g.visibility
    case ConfidenceKey => f.confidence == g.confidence
    case ExpiresKey => f.expires == g.expires
    case UpdatedKey => f.updated == g.updated
    case TokensKey => f.tokensRaw == g.tokensRaw && f.tokens == g.tokens
    case TagsKey => f.tags == g.tags
    case RefsKey => f.refs == g.refs
    case ActorKey => f.provenance.actor == g.provenance.actor
    case SessionKey => f.provenance.session == g.provenance.session
    case SourceKey => f.provenance.source == g.provenance.source
    case _ => true
  }

  predicate AgreeThroughout(f: Frontmatter, g: Frontmatter) {
    && Agree(f, g, TitleKey) && Agree(f, g, TypeKey) && Agree(f, g, ScopeKey) && Agree(f, g, WorkspaceKey)
    && Agree(f, g, VisibilityKey) && Agree(f, g, ConfidenceKey) && Agree(f, g, ExpiresKey) && Agree(f, g, UpdatedKey)
    && Agree(f, g, TokensKey) && Agree(f, g, TagsKey) && Agree(f, g, RefsKey)
    && Agree(f, g, ActorKey) && Agree(f, g, SessionKey) && Agree(f, g, SourceKey)
  }

  lemma AgreeIsEqual(f: Frontmatter, g: Frontmatter)
    requires forall key :: Agree(f, g, key)
    ensures f == g
  {
    hide Agree;
    assert AgreeThroughout(f, g);
    ThroughoutIsEqual(f, g);
  }

  lemma ThroughoutIsEqual(f: Frontmatter, g: Frontmatter)
    requires AgreeThroughout(f, g)
    ensures f == g
  {
  }

  /** A setting decides its own field and no other. */
  lemma AppliedAgrees(f: Frontmatter, g: Frontmatter, s: Setting, key: Key)
    ensures !Keyed(s) || key != s.key ==> Agree(f, Apply(f, s), key)
    ensures Keyed(s) ==> Agree(Apply(f, s), Apply(g, s), s.key)
  {
    hide OptString, ListOf, ParseTokens, ItemTypeOf, ScopeOf, VisibilityOf, ConfidenceOf, SourceOf;
  }

  lemma KeysCons(settings: seq<Setting>)
    requires settings != []
    ensures Keys(settings) == (if Keyed(settings[0]) then {settings[0].key} else {}) + Keys(settings[1..])
  {
    var s, rest := settings[0], settings[1..];
    assert settings == [s] + rest;
    forall key ensures key in Keys(settings) <==> (Keyed(s) && key == s.key) || key in Keys(rest) {
      if key in Keys(settings) {
        var x :| x in settings && Keyed(x) && x.key == key;
        assert x == s || x in rest;
      }
    }
  }

  /** Whatever the fields were that the settings decide, the settings that stand decide them. */
  lemma {:induction false} StandingDecide(f: Frontmatter, g: Frontmatter, settings: seq<Setting>)
    requires forall key :: key !in Keys(settings) ==> Agree(f, g, key)
    ensures ApplyAll(f, settings) == ApplyAll(g, Standing(settings))
    decreases |settings|
  {
    hide Apply, Agree, Keys;
    if settings == [] {
      assert Keys([]) == {} by { NoKeys(); }
      AgreeIsEqual(f, g);
    } else {
      var s, rest := settings[0], settings[1..];
      var f', g' := Apply(f, s), if Stands(s, rest) then Apply(g, s) else g;
      KeysCons(settings);
      forall key | key !in Keys(rest) ensures Agree(f', g', key) {
        AppliedAgrees(f, g, s, key);
        AppliedAgrees(g, f, s, key);
        AgreeTransitive(f, g, f', g', key);
      }
      StandingDecide(f', g', rest);
      if Stands(s, rest) { ApplyOne(g, s, Standing(rest)); } else { assert [] + Standing(rest) == Standing(rest); }
    }
  }

  lemma NoKeys()
    ensures Keys([]) == {}
  {
  }

  lemma AgreeTransitive(f: Frontmatter, g: Frontmatter, f': Frontmatter, g': Frontmatter, key: Key)
    ensures Agree(f, f, key)
    ensures Agree(f, g, key) && Agree(f, f', key) && Agree(g, g', key) ==> Agree(f', g', key)
    ensures Agree(f, g, key) && Agree(f, f', key) ==> Agree(f', g, key)
  {
  }

  /** A setting that stands is what its field has in the end, whatever it had before. */
  lemma {:induction false} StandingShows(f: Frontmatter, g: Frontmatter, settings: seq<Setting>, s: Setting)
    requires s in Standing(settings) && Keyed(s)
    ensures Agree(ApplyAll(f, settings), Apply(g, s), s.key)
    decreases |settings|
  {
    hide Apply, Agree, Keys;
    var first, rest := settings[0], settings[1..];
    if s in Standing(rest) {
      StandingShows(Apply(f, first), g, rest, s);
    } else {
      assert s == first && s.key !in Keys(rest);
      AppliedAgrees(f, g, s, s.key);
      UndecidedStays(Apply(f, s), rest, s.key);
      AgreeTransitive(Apply(f, s), Apply(g, s), ApplyAll(f, settings), Apply(g, s), s.key);
    }
  }

  lemma {:induction false} UndecidedStays(f: Frontmatter, settings: seq<Setting>, key: Key)
    requires key !in Keys(settings)
    ensures Agree(f, ApplyAll(f, settings), key)
    decreases |settings|
  {
    hide Apply, Agree, Keys;
    AgreeTransitive(f, f, f, f, key);
    if settings != [] {
      KeysCons(settings);
      var g := Apply(f, settings[0]);
      AppliedAgrees(f, f, settings[0], key);
      UndecidedStays(g, settings[1..], key);
      AgreeStep(f, g, ApplyAll(g, settings[1..]), key);
    }
  }

  lemma AgreeStep(f: Frontmatter, g: Frontmatter, h: Frontmatter, key: Key)
    requires Agree(f, g, key) && Agree(g, h, key)
    ensures Agree(f, h, key)
  {
  }

  /** The frontmatter of any file is what its standing settings make of nothing: the unread lines do not matter. */
  lemma ParsedByStanding(text: string)
    ensures Parse(text).frontmatter == ApplyAll(EMPTY, Standing(SettingsOf(text)))
  {
    hide ApplyAll, Standing, Settings, LogicalLines, Lines, StripOpening, SplitAtClosing, ParseLines, Agree;
    var lines := LogicalLines(RawLines(text));
    ParsedBySettings(lines, Progress(EMPTY, []));
    forall key ensures Agree(EMPTY, EMPTY, key) { AgreeTransitive(EMPTY, EMPTY, EMPTY, EMPTY, key); }
    StandingDecide(EMPTY, EMPTY, Settings(lines));
    if RawLines(text) == [] { NoRawLines(); }
  }

  lemma NoRawLines()
    ensures ParseLines(LogicalLines([]), Progress(EMPTY, [])) == Progress(EMPTY, [])
  {
  }

  /** And every standing setting shows: its field has the value that its lines say. */
  lemma StandingIsParsed(text: string, s: Setting, g: Frontmatter)
    requires s in Standing(SettingsOf(text)) && Keyed(s)
    ensures Agree(Parse(text).frontmatter, Apply(g, s), s.key)
  {
    hide *;
    StandingShows(EMPTY, g, SettingsOf(text), s);
    FileBySettings(text);
  }

  lemma FileBySettings(text: string)
    ensures Parse(text).frontmatter == ApplyAll(EMPTY, SettingsOf(text))
  {
    hide ApplyAll, Settings, LogicalLines, Lines, StripOpening, SplitAtClosing, ParseLines;
    ParsedBySettings(LogicalLines(RawLines(text)), Progress(EMPTY, []));
    if RawLines(text) == [] { NoRawLines(); }
  }

  // Every line is counted once

  lemma FirstCounted(settings: seq<Setting>)
    requires settings != []
    ensures var s, rest := settings[0], settings[1..];
      && LinesOf(settings) == s.lines + LinesOf(rest)
      && LinesOf(Standing(settings)) == (if Stands(s, rest) then s.lines else []) + LinesOf(Standing(rest))
      && LostLines(settings) == (if Stands(s, rest) then [] else s.lines) + LostLines(rest)
  {
    hide Stands;
    var s, rest := settings[0], settings[1..];
    assert ([s] + Standing(rest))[1..] == Standing(rest) && [] + Standing(rest) == Standing(rest);
  }

  lemma {:induction false} LinesSplit(settings: seq<Setting>)
    ensures multiset(LinesOf(settings)) == multiset(LinesOf(Standing(settings))) + multiset(LostLines(settings))
  {
    if settings != [] {
      hide Stands, LinesOf, Standing, LostLines;
      FirstCounted(settings);
      LinesSplit(settings[1..]);
    }
  }

  lemma {:induction false} LinesOfConcat(a: seq<Setting>, b: seq<Setting>)
    ensures LinesOf(a + b) == LinesOf(a) + LinesOf(b)
  {
    if a == [] {
      assert a + b == b;
    } else {
      assert (a + b)[0] == a[0] && (a + b)[1..] == a[1..] + b;
      LinesOfConcat(a[1..], b);
    }
  }

  lemma {:induction false} ItemLinesSplit(children: seq<Line>)
    ensures multiset(Contents(children)) == multiset(ItemLines(children, true)) + multiset(ItemLines(children, false))
  {
    hide IsItem;
    if children != [] { ItemLinesSplit(children[1..]); }
  }

  lemma {:induction false} ProvenanceLinesKept(children: seq<Line>)
    ensures LinesOf(ProvenanceSettings(children)) == Contents(children)
  {
    hide SplitKeyValue, KeyOf, Unquote;
    if children != [] {
      ProvenanceLinesKept(children[1..]);
      var s := ProvenanceSetting(children[0].content);
      assert s.lines == [children[0].content];
      assert ([s] + ProvenanceSettings(children[1..]))[1..] == ProvenanceSettings(children[1..]);
    }
  }

  lemma OneSetting(s: Setting)
    ensures LinesOf([s]) == s.lines
  {
    assert [s][1..] == [];
  }

  lemma BlockLinesKept(head: string, key: Key, children: seq<Line>)
    ensures multiset(LinesOf(BlockSettings(head, key, children))) == multiset([head] + Contents(children))
  {
    hide ProvenanceSettings, ItemLines, Contents, LinesOf, Keys, BlockItems;
    var settings := BlockSettings(head, key, children);
    OneSetting(settings[0]);
    if key.ProvenanceKey? {
      ProvenanceLinesKept(children);
      LinesOfConcat([settings[0]], ProvenanceSettings(children));
    } else if key.TagsKey? || key.RefsKey? {
      ItemLinesSplit(children);
      OneSetting(settings[1]);
      LinesOfConcat([settings[0]], [settings[1]]);
      assert settings == [settings[0]] + [settings[1]];
    }
  }

  lemma {:induction false} ContentsConcat(a: seq<Line>, b: seq<Line>)
    ensures Contents(a + b) == Contents(a) + Contents(b)
  {
    if a == [] {
      assert a + b == b;
    } else {
      assert (a + b)[0] == a[0] && (a + b)[1..] == a[1..] + b;
      ContentsConcat(a[1..], b);
    }
  }

  lemma FirstLinesKept(lines: seq<Line>)
    requires lines != []
    ensures multiset(LinesOf(FirstSettings(lines))) == multiset(Contents(lines[..Taken(lines)]))
  {
    hide BlockSettings, SplitKeyValue, IndentedPrefix, KeyOf, LinesOf;
    var head, own := lines[0].content, lines[..Taken(lines)];
    assert own[0] == lines[0] && own[1..] == lines[1..Taken(lines)];
    if BlockStarts(lines) {
      BlockLinesKept(head, KeyOf(SplitKeyValue(head).value.0), own[1..]);
    } else {
      OneSetting(FirstSettings(lines)[0]);
      assert Contents(own) == [head];
    }
  }

  lemma {:induction false} SettingsHaveLines(lines: seq<Line>)
    ensures multiset(LinesOf(Settings(lines))) == multiset(Contents(lines))
    decreases |lines|
  {
    hide FirstSettings, Taken, LinesOf, Contents;
    if lines == [] {
      NothingHasLines();
    } else {
      var own, rest := lines[..Taken(lines)], lines[Taken(lines)..];
      assert lines == own + rest;
      SettingsHaveLines(rest);
      FirstLinesKept(lines);
      LinesOfConcat(FirstSettings(lines), Settings(rest));
      ContentsConcat(own, rest);
    }
  }

  lemma NothingHasLines()
    ensures LinesOf([]) == [] && Contents([]) == []
  {
  }

  lemma {:induction false} LogicalOrComment(raws: seq<string>)
    ensures multiset(LineTexts(raws)) == multiset(Comments(raws)) + multiset(Contents(LogicalLines(raws)))
  {
    hide TrimEnd, TrimBlanks, StripCrs;
    if raws != [] {
      LogicalOrComment(raws[1..]);
      var l := LogicalLine(raws[0]);
      if l.Some? { assert ([l.value] + LogicalLines(raws[1..]))[1..] == LogicalLines(raws[1..]); }
    }
  }

  /** Each line of a block that is not blank is either unread or a line of a standing setting, and once. */
  lemma EveryLineCounted(text: string)
    ensures multiset(LineTexts(RawLines(text)))
         == multiset(Unread(text)) + multiset(LinesOf(Standing(SettingsOf(text))))
  {
    hide LineTexts, Comments, LinesOf, Standing, LostLines, Settings, LogicalLines, RawLines, Contents;
    LogicalOrComment(RawLines(text));
    SettingsHaveLines(LogicalLines(RawLines(text)));
    LinesSplit(SettingsOf(text));
  }
}

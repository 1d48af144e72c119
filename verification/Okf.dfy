/**
 OKF frontmatter: data model, parser and printer (crates/wkp-core/src/frontmatter.rs).

 The tables behind Rust's `{:?}` formatting of a non-ASCII character are a parameter: `printable(c)` says
 that `c` is written as itself.
 */
module Okf {
  import opened Wrappers
  import opened Text

  type u32 = n: nat | n < 0x1_0000_0000

  type Printable = char -> bool

  // Data model

  datatype ItemType =
    ProjectState | Knowledge | Reference | Feedback | Skill | Instruction | Memory | OtherType(text: string)

  datatype Scope = User | Project | Org | OtherScope(text: string)

  datatype Visibility = Shared | Private | OtherVisibility(text: string)

  datatype Confidence = Stated | Inferred | Proposed | OtherConfidence(text: string)

  datatype SourceKind = Conversation | File | Tool | Import | OtherSource(text: string)

  datatype Provenance = Provenance(actor: Option<string>, session: Option<string>, source: Option<SourceKind>)

  datatype Frontmatter = Frontmatter(
    title: Option<string>,
    itemType: Option<ItemType>,
    scope: Option<Scope>,
    workspace: Option<string>,
    visibility: Option<Visibility>,
    provenance: Provenance,
    confidence: Option<Confidence>,
    expires: Option<string>,
    tokensRaw: Option<string>,
    tokens: Option<u32>,
    tags: seq<string>,
    refs: seq<string>,
    updated: Option<string>)

  const EMPTY_PROVENANCE := Provenance(None, None, None)

  const EMPTY :=
    Frontmatter(None, None, None, None, None, EMPTY_PROVENANCE, None, None, None, None, [], [], None)

  /** The warnings of a parse, as the cases that produce them rather than as their message texts. */
  datatype Warning =
    | Unterminated
    | IndentedLine(content: string)
    | NoKey(content: string)
    | TopLevelProvenance(key: string)
    | MalformedProvenance(content: string)

  datatype Parsed = Parsed(frontmatter: Frontmatter, body: string, warnings: seq<Warning>)

  /** What has been read so far while the lines of a block are consumed. */
  datatype Progress = Progress(fm: Frontmatter, warnings: seq<Warning>) {
    function Warn(w: Warning): Progress { this.(warnings := warnings + [w]) }
  }

  // Enumerated fields

  function ItemTypeOf(raw: string): ItemType {
    if raw == "project-state" then ProjectState
    else if raw == "knowledge" then Knowledge
    else if raw == "reference" then Reference
    else if raw == "feedback" then Feedback
    else if raw == "skill" then Skill
    else if raw == "instruction" then Instruction
    else if raw == "memory" then Memory
    else OtherType(raw)
  }

  function ShowItemType(t: ItemType): string {
    match t
    case ProjectState => "project-state"
    case Knowledge => "knowledge"
    case Reference => "reference"
    case Feedback => "feedback"
    case Skill => "skill"
    case Instruction => "instruction"
    case Memory => "memory"
    case OtherType(s) => s
  }

  function ScopeOf(raw: string): Scope {
    if raw == "user" then User
    else if raw == "project" then Project
    else if raw == "org" then Org
    else OtherScope(raw)
  }

  function ShowScope(t: Scope): string {
    match t
    case User => "user"
    case Project => "project"
    case Org => "org"
    case OtherScope(s) => s
  }

  function VisibilityOf(raw: string): Visibility {
    if raw == "shared" then Shared
    else if raw == "private" then Private
    else OtherVisibility(raw)
  }

  function ShowVisibility(t: Visibility): string {
    match t
    case Shared => "shared"
    case Private => "private"
    case OtherVisibility(s) => s
  }

  function ConfidenceOf(raw: string): Confidence {
    if raw == "stated" then Stated
    else if raw == "inferred" then Inferred
    else if raw == "proposed" then Proposed
    else OtherConfidence(raw)
  }

  function ShowConfidence(t: Confidence): string {
    match t
    case Stated => "stated"
    case Inferred => "inferred"
    case Proposed => "proposed"
    case OtherConfidence(s) => s
  }

  function SourceOf(raw: string): SourceKind {
    if raw == "conversation" then Conversation
    else if raw == "file" then File
    else if raw == "tool" then Tool
    else if raw == "import" then Import
    else OtherSource(raw)
  }

  function ShowSource(t: SourceKind): string {
    match t
    case Conversation => "conversation"
    case File => "file"
    case Tool => "tool"
    case Import => "import"
    case OtherSource(s) => s
  }

  function MapOption<A, B>(o: Option<A>, f: A -> B): Option<B> {
    match o
    case None => None
    case Some(a) => Some(f(a))
  }

  // Values

  function Unquote(value: string): (r: string)
    ensures forall c :: c in r ==> c in value
  {
    var v := Trim(value);
    if QuoteWrapped(v) then v[1..|v| - 1] else v
  }

  predicate QuoteWrapped(v: string) {
    |v| >= 2 && v[0] == v[|v| - 1] && (v[0] == '"' || v[0] == '\'')
  }

  predicate IsNull(value: string) {
    value == "null" || value == "~" || value == ""
  }

  function OptString(value: string): Option<string> {
    if IsNull(value) then None else Some(value)
  }

  /** `str::split(',')`. */
  function SplitCommas(s: string): (items: seq<string>)
    ensures |items| > 0
    decreases |s|
  {
    match SplitOnce(s, ',')
    case None => [s]
    case Some((a, b)) => [a] + SplitCommas(b)
  }

  /** The items of a list: each trimmed and unquoted, empty ones dropped. */
  function CleanItems(items: seq<string>): seq<string> {
    if items == [] then []
    else
      hide Unquote, Trim;
      var item := Unquote(Trim(items[0]));
      (if item == "" then [] else [item]) + CleanItems(items[1..])
  }

  function ParseInlineList(value: string): Option<seq<string>> {
    if |value| < 2 || value[0] != '[' || value[|value| - 1] != ']' then None
    else
      var inner := value[1..|value| - 1];
      if Trim(inner) == "" then Some([]) else Some(CleanItems(SplitCommas(inner)))
  }

  function SingleItem(value: string): seq<string> {
    if IsNull(value) then [] else [value]
  }

  function ListOf(value: string): seq<string> {
    match ParseInlineList(value)
    case Some(items) => items
    case None => SingleItem(value)
  }

  predicate IsDigit(c: char) { '0' <= c <= '9' }

  function Digits(raw: string): string {
    if raw == "" then "" else (if IsDigit(raw[0]) then [raw[0]] else "") + Digits(raw[1..])
  }

  function DecimalValue(digits: string): nat
    requires forall c :: c in digits ==> IsDigit(c)
  {
    if digits == "" then 0
    else
      assert IsDigit(digits[|digits| - 1]);
      DecimalValue(digits[..|digits| - 1]) * 10 + (digits[|digits| - 1] as int - '0' as int)
  }

  lemma DigitsAreDigits(raw: string)
    ensures forall c :: c in Digits(raw) ==> IsDigit(c)
  {
  }

  /** The digits of `raw` as a `u32`; `None` when there are none or they overflow. */
  function ParseTokens(raw: string): Option<u32> {
    DigitsAreDigits(raw);
    var digits := Digits(raw);
    if digits == "" then None
    else
      var n := DecimalValue(digits);
      if n < 0x1_0000_0000 then Some(n) else None
  }

  // Lines of a block

  datatype Line = Line(indent: nat, content: string)

  /** `trim_end_matches('\r')`. */
  function StripCrs(s: string): (r: string)
    ensures r <= s
  {
    if s == "" then ""
    else
      var t := StripCrs(s[1..]);
      if t == "" && s[0] == '\r' then "" else [s[0]] + t
  }

  /** `trim_start_matches(' ')`. */
  function TrimBlanks(s: string): (r: string)
    ensures |r| <= |s| && r == s[|s| - |r|..]
  {
    if s != "" && s[0] == ' ' then TrimBlanks(s[1..]) else s
  }

  function LogicalLine(raw: string): Option<Line> {
    var content := StripCrs(raw);
    var trimmed := TrimBlanks(content);
    var text := TrimEnd(trimmed);
    if text == "" || text[0] == '#' then None else Some(Line(|content| - |trimmed|, text))
  }

  function LogicalLines(raws: seq<string>): seq<Line> {
    if raws == [] then []
    else
      match LogicalLine(raws[0])
      case None => LogicalLines(raws[1..])
      case Some(line) => [line] + LogicalLines(raws[1..])
  }

  function SplitKeyValue(content: string): Option<(string, string)> {
    match SplitOnce(content, ':')
    case None => None
    case Some((key, rest)) => if Trim(key) == "" then None else Some((Trim(key), Trim(rest)))
  }

  // Fields by key

  datatype Key =
    | TitleKey | TypeKey | ScopeKey | WorkspaceKey | VisibilityKey | ConfidenceKey | ExpiresKey | UpdatedKey
    | TokensKey | TagsKey | RefsKey | ProvenanceKey | ActorKey | SessionKey | SourceKey | UnknownKey

  function KeyOf(name: string): Key {
    if name == "title" then TitleKey
    else if name == "type" then TypeKey
    else if name == "scope" then ScopeKey
    else if name == "workspace" then WorkspaceKey
    else if name == "visibility" then VisibilityKey
    else if name == "confidence" then ConfidenceKey
    else if name == "expires" then ExpiresKey
    else if name == "updated" then UpdatedKey
    else if name == "tokens" then TokensKey
    else if name == "tags" then TagsKey
    else if name == "refs" then RefsKey
    else if name == "provenance" then ProvenanceKey
    else if name == "actor" then ActorKey
    else if name == "session" then SessionKey
    else if name == "source" then SourceKey
    else UnknownKey
  }

  function ApplyProvenanceField(prov: Provenance, key: Key, value: string): Provenance {
    match key
    case ActorKey => prov.(actor := OptString(value))
    case SessionKey => prov.(session := OptString(value))
    case SourceKey => prov.(source := MapOption(OptString(value), SourceOf))
    case _ => prov
  }

  function ApplyScalarField(fm: Frontmatter, key: Key, value: string): Frontmatter {
    match key
    case TitleKey => fm.(title := OptString(value))
    case TypeKey => fm.(itemType := MapOption(OptString(value), ItemTypeOf))
    case ScopeKey => fm.(scope := MapOption(OptString(value), ScopeOf))
    case WorkspaceKey => fm.(workspace := OptString(value))
    case VisibilityKey => fm.(visibility := MapOption(OptString(value), VisibilityOf))
    case ConfidenceKey => fm.(confidence := MapOption(OptString(value), ConfidenceOf))
    case ExpiresKey => fm.(expires := OptString(value))
    case UpdatedKey => fm.(updated := OptString(value))
    case TokensKey =>
      if IsNull(value) then fm.(tokensRaw := None, tokens := None)
      else fm.(tokensRaw := Some(value), tokens := ParseTokens(value))
    case TagsKey => fm.(tags := ListOf(value))
    case RefsKey => fm.(refs := ListOf(value))
    case ActorKey => fm.(provenance := ApplyProvenanceField(fm.provenance, key, value))
    case SessionKey => fm.(provenance := ApplyProvenanceField(fm.provenance, key, value))
    case SourceKey => fm.(provenance := ApplyProvenanceField(fm.provenance, key, value))
    case _ => fm
  }

  function ApplyScalar(p: Progress, name: string, value: string): Progress {
    var key := KeyOf(name);
    var q := p.(fm := ApplyScalarField(p.fm, key, Unquote(value)));
    if key.ActorKey? || key.SessionKey? || key.SourceKey? then q.Warn(TopLevelProvenance(name)) else q
  }

  function ApplyProvenanceLines(p: Progress, children: seq<Line>): Progress
    decreases |children|
  {
    if children == [] then p
    else
      var q := match SplitKeyValue(children[0].content)
               case Some((k, v)) =>
                 p.(fm := p.fm.(provenance := ApplyProvenanceField(p.fm.provenance, KeyOf(k), Unquote(v))))
               case None => p.Warn(MalformedProvenance(children[0].content));
      ApplyProvenanceLines(q, children[1..])
  }

  /** The items of a block list: the children that start with a dash. */
  function BlockItems(children: seq<Line>): seq<string> {
    if children == [] then []
    else
      var content := children[0].content;
      (if content != "" && content[0] == '-' then CleanItems([content[1..]]) else [])
      + BlockItems(children[1..])
  }

  function ApplyBlock(p: Progress, name: string, children: seq<Line>): Progress {
    match KeyOf(name)
    case ProvenanceKey => ApplyProvenanceLines(p, children)
    case TagsKey => p.(fm := p.fm.(tags := BlockItems(children)))
    case RefsKey => p.(fm := p.fm.(refs := BlockItems(children)))
    case _ => p
  }

  /** How many of the leading lines are indented. */
  function IndentedPrefix(lines: seq<Line>): (n: nat)
    ensures n <= |lines|
    ensures forall i :: 0 <= i < n ==> lines[i].indent > 0
    ensures n < |lines| ==> lines[n].indent == 0
  {
    if lines == [] || lines[0].indent == 0 then 0 else 1 + IndentedPrefix(lines[1..])
  }

  function ParseLines(lines: seq<Line>, p: Progress): Progress
    decreases |lines|
  {
    if lines == [] then p
    else if lines[0].indent != 0 then
      ParseLines(lines[1..], p.Warn(IndentedLine(lines[0].content)))
    else
      match SplitKeyValue(lines[0].content)
      case None => ParseLines(lines[1..], p.Warn(NoKey(lines[0].content)))
      case Some((key, rest)) =>
        if rest == "" then
          var n := IndentedPrefix(lines[1..]);
          ParseLines(lines[1 + n..], ApplyBlock(p, key, lines[1..1 + n]))
        else
          ParseLines(lines[1..], ApplyScalar(p, key, rest))
  }

  // Whole files

  /** Trimming also drops the line ending. */
  predicate IsDelimiter(line: string) {
    Trim(line) == "---"
  }

  function StripOpening(input: string): (r: Option<string>)
    ensures r.Some? ==> |r.value| < |input|
  {
    var first := FirstLine(input);
    if input != "" && IsDelimiter(first) then Some(input[|first|..]) else None
  }

  function SplitAtClosing(text: string): Option<(string, string)> {
    if text == "" then None
    else
      var line := FirstLine(text);
      if IsDelimiter(line) then Some(("", text[|line|..]))
      else
        match SplitAtClosing(text[|line|..])
        case None => None
        case Some((block, body)) => Some((line + block, body))
  }

  function Parse(input: string): Parsed {
    match StripOpening(input)
    case None => Parsed(EMPTY, input, [])
    case Some(afterOpen) =>
      match SplitAtClosing(afterOpen)
      case None => Parsed(EMPTY, input, [Unterminated])
      case Some((block, body)) =>
        var p := ParseLines(LogicalLines(Lines(block)), Progress(EMPTY, []));
        Parsed(p.fm, body, p.warnings)
  }

  // Printing

  function HexLower(n: nat): string {
    if n < 16 then [HexDigit(n)] else HexLower(n / 16) + [HexDigit(n % 16)]
  }

  /** `{:?}` writes `c` as itself inside a string. */
  predicate Plain(c: char, printable: Printable) {
    if c < '\U{80}' then ' ' <= c <= '~' && c != '"' && c != '\\' else printable(c)
  }

  function DebugChar(c: char, printable: Printable): string {
    if Plain(c, printable) then [c]
    else if c == '\0' then "\\0"
    else if c == '\t' then "\\t"
    else if c == '\r' then "\\r"
    else if c == '\n' then "\\n"
    else if c == '"' then "\\\""
    else if c == '\\' then "\\\\"
    else "\\u{" + HexLower(c as int) + "}"
  }

  function Escaped(s: string, printable: Printable): string {
    if s == "" then "" else DebugChar(s[0], printable) + Escaped(s[1..], printable)
  }

  /** `format!("{s:?}")`. */
  function Debug(s: string, printable: Printable): string {
    "\"" + Escaped(s, printable) + "\""
  }

  function Decimal(n: nat): string {
    (if n < 10 then "" else Decimal(n / 10)) + ['0' + (n % 10) as char]
  }

  function Join(items: seq<string>): string {
    if items == [] then ""
    else if |items| == 1 then items[0]
    else items[0] + ", " + Join(items[1..])
  }

  function QuotedValue(v: Option<string>, printable: Printable): Option<string> {
    match v
    case None => None
    case Some(s) => Some(Debug(s, printable))
  }

  function TokensValue(fm: Frontmatter): Option<string> {
    if fm.tokensRaw.Some? then fm.tokensRaw
    else if fm.tokens.Some? then Some(Decimal(fm.tokens.value))
    else None
  }

  function ListValue(items: seq<string>): Option<string> {
    if items == [] then None else Some("[" + Join(items) + "]")
  }

  /** A field of the block as it is printed: `name: value`, or nothing when there is no value. */
  datatype Field = Field(name: string, value: Option<string>)

  function FieldLine(name: string, value: Option<string>): seq<string> {
    match value
    case None => []
    case Some(v) => [name + ": " + v]
  }

  function FieldLines(fields: seq<Field>): seq<string> {
    if fields == [] then []
    else FieldLine(fields[0].name, fields[0].value) + FieldLines(fields[1..])
  }

  function LeadingFields(fm: Frontmatter, printable: Printable): seq<Field> {
    [Field("title", QuotedValue(fm.title, printable)),
     Field("type", MapOption(fm.itemType, ShowItemType)),
     Field("scope", MapOption(fm.scope, ShowScope)),
     Field("workspace", fm.workspace),
     Field("visibility", MapOption(fm.visibility, ShowVisibility))]
  }

  function ProvenanceFields(prov: Provenance, printable: Printable): seq<Field> {
    [Field("  actor", QuotedValue(prov.actor, printable)),
     Field("  session", QuotedValue(prov.session, printable)),
     Field("  source", MapOption(prov.source, ShowSource))]
  }

  function ProvenanceLines(prov: Provenance, printable: Printable): seq<string> {
    if prov == EMPTY_PROVENANCE then []
    else ["provenance:"] + FieldLines(ProvenanceFields(prov, printable))
  }

  function TrailingFields(fm: Frontmatter, printable: Printable): seq<Field> {
    [Field("confidence", MapOption(fm.confidence, ShowConfidence)),
     Field("expires", QuotedValue(fm.expires, printable)),
     Field("tokens", TokensValue(fm)),
     Field("tags", ListValue(fm.tags)),
     Field("refs", ListValue(fm.refs)),
     Field("updated", QuotedValue(fm.updated, printable))]
  }

  function BlockLines(fm: Frontmatter, printable: Printable): seq<string> {
    FieldLines(LeadingFields(fm, printable))
    + ProvenanceLines(fm.provenance, printable)
    + FieldLines(TrailingFields(fm, printable))
  }

  function Render(fm: Frontmatter, printable: Printable): string {
    "---\n" + Unlines(BlockLines(fm, printable)) + "---\n"
  }
}

/**
 The parser and printer as the loops that run, proved against the functions of `Okf`.
 */
module OkfProgram {
  import opened Wrappers
  import opened Text
  import opened Okf
  import opened OkfLines

  /** What `SplitAtClosing` finds behind `prefix`. */
  function Behind(prefix: string, found: Option<(string, string)>): Option<(string, string)> {
    match found
    case None => None
    case Some((block, body)) => Some((prefix + block, body))
  }

  method SplitAtClosingDelimiter(afterOpen: string) returns (r: Option<(string, string)>)
    ensures r == SplitAtClosing(afterOpen)
  {
    hide SplitAtClosing, Behind, IsDelimiter, FirstLine;
    var offset := 0;
    BehindNothing(SplitAtClosing(afterOpen));
    assert afterOpen[0..] == afterOpen && afterOpen[..0] == "";
    while offset < |afterOpen|
      invariant 0 <= offset <= |afterOpen|
      invariant SplitAtClosing(afterOpen) == Behind(afterOpen[..offset], SplitAtClosing(afterOpen[offset..]))
    {
      var line := FirstLine(afterOpen[offset..]);
      ghost var rest := afterOpen[offset..][|line|..];
      SplitStep(afterOpen[offset..], afterOpen[..offset]);
      assert rest == afterOpen[offset + |line|..];
      if IsDelimiter(line) {
        return Some((afterOpen[..offset], afterOpen[offset + |line|..]));
      }
      assert afterOpen[..offset + |line|] == afterOpen[..offset] + line;
      BehindConcat(afterOpen[..offset], line, SplitAtClosing(rest));
      offset := offset + |line|;
    }
    assert afterOpen[offset..] == "";
    NothingBehind(afterOpen[..offset]);
    return None;
  }

  lemma SplitStep(text: string, prefix: string)
    requires text != ""
    ensures var line := FirstLine(text);
      if IsDelimiter(line) then Behind(prefix, SplitAtClosing(text)) == Some((prefix, text[|line|..]))
      else SplitAtClosing(text) == Behind(line, SplitAtClosing(text[|line|..]))
  {
    hide IsDelimiter, FirstLine;
    assert prefix + "" == prefix;
  }

  lemma BehindNothing(found: Option<(string, string)>)
    ensures Behind("", found) == found
  {
    if found.Some? { assert "" + found.value.0 == found.value.0; }
  }

  lemma NothingBehind(prefix: string)
    ensures Behind(prefix, SplitAtClosing("")) == None
  {
  }

  lemma BehindConcat(a: string, b: string, found: Option<(string, string)>)
    ensures Behind(a, Behind(b, found)) == Behind(a + b, found)
  {
    if found.Some? {
      assert a + (b + found.value.0) == a + b + found.value.0;
    }
  }

  method ApplyProvenanceBlock(p: Progress, children: seq<Line>) returns (q: Progress)
    ensures q == ApplyProvenanceLines(p, children)
  {
    q := p;
    var i := 0;
    assert children[0..] == children;
    while i < |children|
      invariant 0 <= i <= |children|
      invariant ApplyProvenanceLines(q, children[i..]) == ApplyProvenanceLines(p, children)
    {
      hide KeyOf, Unquote, ApplyProvenanceField, SplitKeyValue;
      assert children[i..][1..] == children[i + 1..];
      match SplitKeyValue(children[i].content) {
        case Some((k, v)) =>
          q := q.(fm := q.fm.(provenance := ApplyProvenanceField(q.fm.provenance, KeyOf(k), Unquote(v))));
        case None =>
          q := q.Warn(MalformedProvenance(children[i].content));
      }
      i := i + 1;
    }
  }

  method ApplyBlockValue(p: Progress, name: string, children: seq<Line>) returns (q: Progress)
    ensures q == ApplyBlock(p, name, children)
  {
    hide ApplyProvenanceLines, BlockItems;
    match KeyOf(name) {
      case ProvenanceKey =>
        q := ApplyProvenanceBlock(p, children);
      case TagsKey =>
        q := p.(fm := p.fm.(tags := BlockItems(children)));
      case RefsKey =>
        q := p.(fm := p.fm.(refs := BlockItems(children)));
      case _ =>
        q := p;
    }
  }

  lemma {:induction false} IndentedPrefixCount(lines: seq<Line>, n: nat)
    requires n <= |lines|
    requires forall i :: 0 <= i < n ==> lines[i].indent > 0
    requires n < |lines| ==> lines[n].indent == 0
    ensures IndentedPrefix(lines) == n
  {
    if n > 0 { IndentedPrefixCount(lines[1..], n - 1); }
  }

  /** The end of the run of indented lines that starts at `start`. */
  method CollectChildren(lines: seq<Line>, start: nat) returns (end: nat)
    requires start <= |lines|
    ensures start <= end <= |lines| && end - start == IndentedPrefix(lines[start..])
  {
    hide IndentedPrefix;
    end := start;
    while end < |lines| && lines[end].indent > 0
      invariant start <= end <= |lines|
      invariant forall k :: start <= k < end ==> lines[k].indent > 0
    {
      end := end + 1;
    }
    IndentedPrefixCount(lines[start..], end - start);
  }

  method ParseBlock(block: string) returns (p: Progress)
    ensures p == ParseLines(LogicalLines(Lines(block)), Progress(EMPTY, []))
  {
    hide ParseLines, ApplyScalar, ApplyBlock, SplitKeyValue, IndentedPrefix, Lines, LogicalLines;
    var lines := LogicalLines(Lines(block));
    p := Progress(EMPTY, []);
    var i := 0;
    assert lines[0..] == lines;
    while i < |lines|
      invariant 0 <= i <= |lines|
      invariant ParseLines(lines[i..], p) == ParseLines(lines, Progress(EMPTY, []))
    {
      ghost var rest := lines[i..];
      assert rest[1..] == lines[i + 1..];
      StepSkipped(rest, p);
      var line := lines[i];
      if line.indent != 0 {
        p := p.Warn(IndentedLine(line.content));
        i := i + 1;
      } else {
        match SplitKeyValue(line.content) {
          case None =>
            p := p.Warn(NoKey(line.content));
            i := i + 1;
          case Some((key, value)) =>
            if value == "" {
              var j := CollectChildren(lines, i + 1);
              StepBlock(rest, key, p, j - i - 1);
              assert rest[1 + (j - i - 1)..] == lines[j..];
              assert rest[1..1 + (j - i - 1)] == lines[i + 1..j];
              p := ApplyBlockValue(p, key, lines[i + 1..j]);
              i := j;
            } else {
              StepScalar(rest, key, value, p);
              p := ApplyScalar(p, key, value);
              i := i + 1;
            }
        }
      }
    }
    assert lines[i..] == [];
    NothingParsed(p);
  }

  method ParseFile(input: string) returns (r: Parsed)
    ensures r == Parse(input)
  {
    match StripOpening(input) {
      case None =>
        r := Parsed(EMPTY, input, []);
      case Some(afterOpen) =>
        var split := SplitAtClosingDelimiter(afterOpen);
        match split {
          case None =>
            r := Parsed(EMPTY, input, [Unterminated]);
          case Some((block, body)) =>
            var p := ParseBlock(block);
            r := Parsed(p.fm, body, p.warnings);
        }
    }
  }

  // Printing

  /** Pushes the line `name: value` when there is a value. */
  method PushField(block: string, name: string, value: Option<string>) returns (out: string)
    ensures out == block + Unlines(FieldLine(name, value))
  {
    out := block;
    if value.Some? {
      var line := name + ": " + value.value;
      assert [line][1..] == [];
      assert Unlines([line]) == line + "\n" + "";
      out := out + line + "\n";
    }
  }

  lemma {:induction false} UnlinesConcat(a: seq<string>, b: seq<string>)
    ensures Unlines(a + b) == Unlines(a) + Unlines(b)
  {
    if a == [] {
      assert a + b == b;
    } else {
      assert (a + b)[1..] == a[1..] + b && (a + b)[0] == a[0];
      UnlinesConcat(a[1..], b);
    }
  }

  lemma FieldLinesSnoc(fields: seq<Field>, f: Field)
    ensures Unlines(FieldLines(fields + [f])) == Unlines(FieldLines(fields)) + Unlines(FieldLine(f.name, f.value))
  {
    hide FieldLine, Unlines;
    if fields == [] {
      assert [] + [f] == [f] && [f][1..] == [];
      assert FieldLines([f]) == FieldLine(f.name, f.value);
      assert Unlines([]) == "" by { NoLines(); }
    } else {
      var head := FieldLine(fields[0].name, fields[0].value);
      assert (fields + [f])[1..] == fields[1..] + [f];
      FieldLinesSnoc(fields[1..], f);
      UnlinesConcat(head, FieldLines(fields[1..] + [f]));
      UnlinesConcat(head, FieldLines(fields[1..]));
    }
  }

  lemma NoFields()
    ensures Unlines(FieldLines([])) == ""
  {
  }

  lemma NoLines()
    ensures Unlines([]) == ""
  {
  }

  method PushFields(block: string, fields: seq<Field>) returns (out: string)
    ensures out == block + Unlines(FieldLines(fields))
  {
    hide Unlines, FieldLines, FieldLine;
    out := block;
    var i := 0;
    NoFields();
    while i < |fields|
      invariant 0 <= i <= |fields|
      invariant out == block + Unlines(FieldLines(fields[..i]))
    {
      FieldLinesSnoc(fields[..i], fields[i]);
      assert fields[..i] + [fields[i]] == fields[..i + 1];
      out := PushField(out, fields[i].name, fields[i].value);
      i := i + 1;
    }
    assert fields[..|fields|] == fields;
  }

  method RenderBlock(fm: Frontmatter, printable: Printable) returns (block: string)
    ensures block == Render(fm, printable)
  {
    hide Unlines, FieldLines, LeadingFields, ProvenanceFields, TrailingFields;
    var leading, trailing := LeadingFields(fm, printable), TrailingFields(fm, printable);
    UnlinesConcat(FieldLines(leading) + ProvenanceLines(fm.provenance, printable), FieldLines(trailing));
    UnlinesConcat(FieldLines(leading), ProvenanceLines(fm.provenance, printable));
    NoLines();
    block := PushFields("---\n", leading);
    if fm.provenance.actor.Some? || fm.provenance.session.Some? || fm.provenance.source.Some? {
      HeaderPushed(FieldLines(ProvenanceFields(fm.provenance, printable)));
      block := block + "provenance:\n";
      block := PushFields(block, ProvenanceFields(fm.provenance, printable));
    }
    block := PushFields(block, trailing);
    block := block + "---\n";
  }

  lemma HeaderPushed(ls: seq<string>)
    ensures Unlines(["provenance:"] + ls) == "provenance:\n" + Unlines(ls)
  {
    assert (["provenance:"] + ls)[1..] == ls;
    assert "provenance:" + "\n" == "provenance:\n";
  }
}

/**
 The recipients file: reading it, adding an entry and removing a label are edits of text that do to the list of
 entries what they should (crates/wkp-crypto/src/recipients.rs).
 */
module Recipients {
  import opened Wrappers
  import opened Text

  datatype Kind = Device | Recovery | OtherKind

  function KindOf(tag: string): Kind {
    if "device:" <= tag then Device else if "recovery:" <= tag then Recovery else OtherKind
  }

  /** A public key, as it is displayed. */
  datatype Recipient = Recipient(key: string)

  datatype Entry = Entry(tag: string, kind: Kind, recipient: Recipient)

  /** `Recipient::from_string`. */
  type KeyReader = string -> Option<Recipient>

  // White-space separated words

  function FirstWord(s: string): (w: string)
    ensures w <= s
    ensures forall c :: c in w ==> !IsSpace(c)
    ensures s != "" && !IsSpace(s[0]) ==> w != ""
  {
    if s == "" || IsSpace(s[0]) then "" else [s[0]] + FirstWord(s[1..])
  }

  /** `split_whitespace`. */
  function Words(s: string): (words: seq<string>)
    ensures forall w :: w in words ==> w != "" && forall c :: c in w ==> !IsSpace(c)
    decreases |s|
  {
    if s == "" then []
    else if IsSpace(s[0]) then Words(s[1..])
    else [FirstWord(s)] + Words(s[|FirstWord(s)|..])
  }

  predicate IsComment(line: string) { line == "" || line[0] == '#' }

  function ParseLine(line: string, read: KeyReader): seq<Entry> {
    var trimmed := Trim(line);
    if IsComment(trimmed) then []
    else
      var words := Words(trimmed);
      if |words| != 2 then []
      else
        match read(words[1])
        case None => []
        case Some(recipient) => [Entry(words[0], KindOf(words[0]), recipient)]
  }

  function ParseLines(lines: seq<string>, read: KeyReader): seq<Entry> {
    if lines == [] then [] else ParseLine(lines[0], read) + ParseLines(lines[1..], read)
  }

  function Parse(text: string, read: KeyReader): seq<Entry> { ParseLines(Lines(text), read) }

  function RenderLine(e: Entry): string { e.tag + " " + e.recipient.key }

  predicate HasLine(text: string, line: string) {
    exists l :: l in Lines(text) && Trim(l) == line
  }

  function EndLine(text: string): string {
    if text != "" && text[|text| - 1] == '\n' then text else text + "\n"
  }

  /** The file after `append`, given the header that a new file starts with; a missing file counts as empty. */
  function Append(text: string, e: Entry, header: string): string {
    if HasLine(text, RenderLine(e)) then text
    else EndLine(if text == "" then header else text) + RenderLine(e) + "\n"
  }

  predicate Matches(line: string, tag: string) {
    var trimmed := Trim(line);
    !IsComment(trimmed) && Words(trimmed) != [] && Words(trimmed)[0] == tag
  }

  function Kept(lines: seq<string>, tag: string): seq<string> {
    if lines == [] then []
    else (if Matches(lines[0], tag) then [] else [lines[0]]) + Kept(lines[1..], tag)
  }

  /** `join("\n")`. */
  function JoinLines(lines: seq<string>): string {
    if lines == [] then "" else if |lines| == 1 then lines[0] else lines[0] + "\n" + JoinLines(lines[1..])
  }

  predicate AnyMatches(lines: seq<string>, tag: string) {
    exists l :: l in lines && Matches(l, tag)
  }

  /** The file after `remove`, and whether anything was removed. */
  function Remove(text: string, tag: string): (string, bool) {
    if !AnyMatches(Lines(text), tag) then (text, false)
    else
      var rest := JoinLines(Kept(Lines(text), tag));
      (if rest == "" then "" else rest + "\n", true)
  }

  // The edits as programs

  method AppendEntry(text: string, e: Entry, header: string) returns (updated: string)
    ensures updated == Append(text, e, header)
  {
    hide Lines, Trim;
    var newLine, lines := RenderLine(e), Lines(text);
    for i := 0 to |lines|
      invariant forall j :: 0 <= j < i ==> Trim(lines[j]) != newLine
    {
      if Trim(lines[i]) == newLine { return text; }
    }
    updated := if text == "" then header else text;
    if updated == "" || updated[|updated| - 1] != '\n' { updated := updated + "\n"; }
    updated := updated + newLine;
    updated := updated + "\n";
  }

  lemma KeptStep(kept: seq<string>, lines: seq<string>, tag: string, i: nat)
    requires i < |lines|
    ensures kept + Kept(lines[i..], tag) == (if Matches(lines[i], tag) then kept else kept + [lines[i]])
      + Kept(lines[i + 1..], tag)
  {
    hide Matches;
    assert lines[i..][1..] == lines[i + 1..];
  }

  lemma NothingKept(tag: string)
    ensures Kept([], tag) == []
  {
  }

  method RemoveLabel(text: string, tag: string) returns (updated: string, removed: bool)
    ensures (updated, removed) == Remove(text, tag)
  {
    hide Lines, Matches, Kept;
    removed := false;
    var kept, lines := [], Lines(text);
    assert lines[0..] == lines;
    for i := 0 to |lines|
      invariant kept + Kept(lines[i..], tag) == Kept(lines, tag)
      invariant removed <==> exists j :: 0 <= j < i && Matches(lines[j], tag)
    {
      KeptStep(kept, lines, tag, i);
      if Matches(lines[i], tag) {
        removed := true;
      } else {
        kept := kept + [lines[i]];
      }
    }
    if !removed { return text, false; }
    assert kept == Kept(lines, tag) by {
      NothingKept(tag);
      assert lines[|lines|..] == [];
    }
    updated := JoinLines(kept);
    if updated != "" { updated := updated + "\n"; }
  }
}

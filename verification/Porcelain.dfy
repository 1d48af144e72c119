/**
 Reading the lines of `git status --porcelain=v2`: which files changed (crates/wkp-git/src/changes.rs) and which are
 in conflict (crates/wkp-git/src/conflicts.rs).
 */
module Porcelain {
  import opened Wrappers
  import opened Text
  import opened Git

  datatype Rename = Rename(from: string, to: string)

  datatype ChangeSet = ChangeSet(added: seq<string>, modified: seq<string>, deleted: seq<string>, renamed: seq<Rename>)

  const NO_CHANGES := ChangeSet([], [], [], [])

  /** `splitn`: at most `n` fields, the last of which keeps its spaces. */
  function SplitN(s: string, n: nat): (fields: seq<string>)
    requires n > 0
    ensures 0 < |fields| <= n
    decreases n
  {
    if n == 1 then [s]
    else
      match SplitOnce(s, ' ')
      case None => [s]
      case Some((field, rest)) => [field] + SplitN(rest, n - 1)
  }

  /** A missing status letter counts as unchanged. */
  function Letter(xy: string, i: nat): char { if i < |xy| then xy[i] else '.' }

  function ClassifyOrdinary(xy: string, path: string, changes: ChangeSet): ChangeSet {
    if Letter(xy, 0) == 'D' || Letter(xy, 1) == 'D' then changes.(deleted := changes.deleted + [path])
    else if Letter(xy, 0) == 'A' then changes.(added := changes.added + [path])
    else changes.(modified := changes.modified + [path])
  }

  function ReadLine(line: string, changes: ChangeSet): ChangeSet {
    match SplitOnce(line, ' ')
    case None => changes
    case Some((kind, rest)) =>
      if kind == "1" then
        var fields := SplitN(rest, 8);
        if |fields| == 8 then ClassifyOrdinary(fields[0], fields[7], changes) else changes
      else if kind == "2" then
        var fields := SplitN(rest, 9);
        if |fields| == 9 then
          match SplitOnce(fields[8], '\t')
          case None => changes
          case Some((to, from)) => changes.(renamed := changes.renamed + [Rename(from, to)])
        else changes
      else if kind == "?" then changes.(added := changes.added + [rest])
      else if kind == "u" then
        var fields := SplitN(rest, 10);
        if |fields| == 10 then changes.(modified := changes.modified + [fields[9]]) else changes
      else changes
  }

  function ReadChanges(lines: seq<string>, changes: ChangeSet): ChangeSet
    decreases |lines|
  {
    if lines == [] then changes else ReadChanges(lines[1..], ReadLine(lines[0], changes))
  }

  function ParseChanges(output: string): ChangeSet { ReadChanges(Lines(output), NO_CHANGES) }

  function KindOf(xy: string): ConflictKind {
    if xy == "DU" then ModifyDelete(Ours)
    else if xy == "UD" then ModifyDelete(Theirs)
    else if xy == "UU" then Content
    else if xy == "AA" then AddAdd
    else if xy == "DD" then BothDeleted
    else OtherConflict
  }

  function ConflictOf(line: string): Option<Conflict> {
    match SplitOnce(line, ' ')
    case None => None
    case Some((kind, rest)) =>
      if kind != "u" then None
      else
        var fields := SplitN(rest, 10);
        if |fields| == 10 then Some(Conflict(fields[9], KindOf(fields[0]))) else None
  }

  function ReadConflicts(lines: seq<string>): seq<Conflict> {
    if lines == [] then []
    else (match ConflictOf(lines[0]) case None => [] case Some(c) => [c]) + ReadConflicts(lines[1..])
  }

  function ParseConflicts(output: string): seq<Conflict> { ReadConflicts(Lines(output)) }

  // What git prints

  /** A line of the status; `meta` holds the fields that wkp does not look at. */
  datatype Entry =
    | Ordinary(xy: string, meta: seq<string>, path: string)
    | Moved(meta: seq<string>, to: string, from: string)
    | Untracked(path: string)
    | Unmerged(xy: string, meta: seq<string>, path: string)

  function JoinSpaces(fields: seq<string>): string
    requires fields != []
  {
    if |fields| == 1 then fields[0] else fields[0] + " " + JoinSpaces(fields[1..])
  }

  function Show(e: Entry): string {
    match e
    case Ordinary(xy, meta, path) => "1 " + JoinSpaces([xy] + meta + [path])
    case Moved(meta, to, from) => "2 " + JoinSpaces(meta + [to + "\t" + from])
    case Untracked(path) => "? " + path
    case Unmerged(xy, meta, path) => "u " + JoinSpaces([xy] + meta + [path])
  }

  predicate NoSpaces(fields: seq<string>) { forall f :: f in fields ==> ' ' !in f }

  /** Paths that fit on a line: no newline, no carriage return before it, and no tab in the new name of a moved file. */
  predicate WellFormed(e: Entry) {
    && (match e
        case Ordinary(xy, meta, _) => |meta| == 6 && NoSpaces([xy] + meta)
        case Moved(meta, to, _) => |meta| == 8 && NoSpaces(meta) && '\t' !in to
        case Untracked(_) => true
        case Unmerged(xy, meta, _) => |meta| == 8 && NoSpaces([xy] + meta))
    && NoNewline(Show(e)) && StripCr(Show(e)) == Show(e)
  }

  function Status(entries: seq<Entry>): seq<string> {
    if entries == [] then [] else [Show(entries[0])] + Status(entries[1..])
  }

  /** What an entry means. */
  function Record(e: Entry, changes: ChangeSet): ChangeSet {
    match e
    case Ordinary(xy, _, path) => ClassifyOrdinary(xy, path, changes)
    case Moved(_, to, from) => changes.(renamed := changes.renamed + [Rename(from, to)])
    case Untracked(path) => changes.(added := changes.added + [path])
    case Unmerged(_, _, path) => changes.(modified := changes.modified + [path])
  }

  function Recorded(entries: seq<Entry>, changes: ChangeSet): ChangeSet
    decreases |entries|
  {
    if entries == [] then changes else Recorded(entries[1..], Record(entries[0], changes))
  }

  function ConflictEntry(e: Entry): seq<Conflict> {
    if e.Unmerged? then [Conflict(e.path, KindOf(e.xy))] else []
  }

  function UnmergedOnly(entries: seq<Entry>): seq<Conflict> {
    if entries == [] then []
    else ConflictEntry(entries[0]) + UnmergedOnly(entries[1..])
  }

  // Reading what was printed

  /** Splitting undoes joining as long as only the last field may have spaces. */
  lemma {:induction false} SplitJoined(fields: seq<string>, last: string)
    requires NoSpaces(fields)
    ensures SplitN(JoinSpaces(fields + [last]), |fields| + 1) == fields + [last]
    decreases |fields|
  {
    if fields == [] {
      assert fields + [last] == [last];
    } else {
      assert (fields + [last])[1..] == fields[1..] + [last];
      assert fields[0] in fields && forall f :: f in fields[1..] ==> f in fields;
      SplitJoined(fields[1..], last);
      var rest := JoinSpaces(fields[1..] + [last]);
      assert fields[0] + " " + rest == fields[0] + [' '] + rest;
      SplitOnceAt(fields[0], ' ', rest);
      assert [fields[0]] + (fields[1..] + [last]) == fields + [last];
    }
  }

  lemma KindAndRest(kind: string, rest: string)
    requires kind in ["1", "2", "?", "u"]
    ensures SplitOnce(kind + " " + rest, ' ') == Some((kind, rest))
  {
    assert kind + " " + rest == kind + [' '] + rest;
    SplitOnceAt(kind, ' ', rest);
  }

  lemma ReadsEntry(e: Entry, changes: ChangeSet)
    requires WellFormed(e)
    ensures ReadLine(Show(e), changes) == Record(e, changes)
    ensures ConflictOf(Show(e)) == if e.Unmerged? then Some(Conflict(e.path, KindOf(e.xy))) else None
  {
    hide SplitN, JoinSpaces, SplitOnce, KindOf, ClassifyOrdinary;
    match e
    case Ordinary(xy, meta, path) =>
      SplitJoined([xy] + meta, path);
      var rest := JoinSpaces([xy] + meta + [path]);
      assert "1 " + rest == "1" + " " + rest;
      KindAndRest("1", rest);
    case Moved(meta, to, from) =>
      SplitJoined(meta, to + "\t" + from);
      var rest := JoinSpaces(meta + [to + "\t" + from]);
      assert "2 " + rest == "2" + " " + rest;
      KindAndRest("2", rest);
      SplitOnceAt(to, '\t', from);
      assert to + "\t" + from == to + ['\t'] + from;
    case Untracked(path) =>
      assert "? " + path == "?" + " " + path;
      KindAndRest("?", path);
    case Unmerged(xy, meta, path) =>
      SplitJoined([xy] + meta, path);
      var rest := JoinSpaces([xy] + meta + [path]);
      assert "u " + rest == "u" + " " + rest;
      KindAndRest("u", rest);
  }

  lemma {:induction false} LinesOfStatus(entries: seq<Entry>)
    requires forall e :: e in entries ==> WellFormed(e)
    ensures Lines(Unlines(Status(entries))) == Status(entries)
  {
    if entries != [] {
      assert entries[0] in entries && forall e :: e in entries[1..] ==> e in entries;
      LinesOfStatus(entries[1..]);
      hide Show, Lines;
      assert WellFormed(entries[0]);
      LinesCons(Show(entries[0]), Unlines(Status(entries[1..])));
      assert Status(entries)[1..] == Status(entries[1..]);
    } else {
      assert Unlines([]) == "";
    }
  }

  lemma {:induction false} ReadsEntries(entries: seq<Entry>, changes: ChangeSet)
    requires forall e :: e in entries ==> WellFormed(e)
    ensures ReadChanges(Status(entries), changes) == Recorded(entries, changes)
    ensures ReadConflicts(Status(entries)) == UnmergedOnly(entries)
    decreases |entries|
  {
    if entries != [] {
      assert entries[0] in entries && forall e :: e in entries[1..] ==> e in entries;
      hide Show, ReadLine, ConflictOf, WellFormed, KindOf;
      ReadsEntry(entries[0], changes);
      assert Status(entries)[1..] == Status(entries[1..]);
      ReadsEntries(entries[1..], Record(entries[0], changes));
    }
  }

  /**
   Whatever git reports, in whatever order, is read as exactly that: every changed path once in the bucket of its
   status, and every unmerged path with the class of its conflict.
   */
  lemma StatusIsRead(entries: seq<Entry>)
    requires forall e :: e in entries ==> WellFormed(e)
    ensures ParseChanges(Unlines(Status(entries))) == Recorded(entries, NO_CHANGES)
    ensures ParseConflicts(Unlines(Status(entries))) == UnmergedOnly(entries)
  {
    hide Lines, Unlines, Status, WellFormed, ReadChanges, ReadConflicts;
    LinesOfStatus(entries);
    ReadsEntries(entries, NO_CHANGES);
  }

  lemma {:induction false} SplitShort(fields: seq<string>, n: nat)
    requires NoSpaces(fields) && 0 < |fields| <= n
    ensures SplitN(JoinSpaces(fields), n) == fields
    decreases |fields|
  {
    if |fields| == 1 {
      assert fields[0] in fields;
      SplitOnceMissing(fields[0], ' ');
    } else {
      assert fields[0] in fields && forall f :: f in fields[1..] ==> f in fields;
      SplitShort(fields[1..], n - 1);
      var rest := JoinSpaces(fields[1..]);
      assert fields[0] + " " + rest == fields[0] + [' '] + rest;
      SplitOnceAt(fields[0], ' ', rest);
    }
  }

  /** Lines of another kind and lines with too few fields are passed over. */
  lemma OtherLinesIgnored(kind: string, fields: seq<string>, changes: ChangeSet)
    requires NoSpaces([kind] + fields) && fields != []
    requires kind in ["1", "2", "u"] ==> |fields| < if kind == "1" then 8 else if kind == "2" then 9 else 10
    requires kind != "?"
    ensures ReadLine(kind + " " + JoinSpaces(fields), changes) == changes
    ensures ConflictOf(kind + " " + JoinSpaces(fields)) == None
    ensures ReadLine(kind, changes) == changes && ConflictOf(kind) == None
  {
    hide ClassifyOrdinary, KindOf, SplitN, SplitOnce;
    var rest := JoinSpaces(fields);
    assert kind in [kind] + fields && forall f :: f in fields ==> f in [kind] + fields;
    assert kind + " " + rest == kind + [' '] + rest;
    SplitOnceAt(kind, ' ', rest);
    SplitOnceMissing(kind, ' ');
    if kind == "1" { SplitShort(fields, 8); }
    if kind == "2" { SplitShort(fields, 9); }
    if kind == "u" { SplitShort(fields, 10); }
  }

  // What the letters of a conflict mean

  /** Which of the three versions of a file an unmerged path has: the common one, ours, theirs. */
  datatype Versions = Versions(base: bool, ours: bool, theirs: bool)

  /** The letters that git prints for them. */
  function Letters(v: Versions): string {
    match v
    case Versions(true, true, true) => "UU"
    case Versions(true, true, false) => "UD"
    case Versions(true, false, true) => "DU"
    case Versions(true, false, false) => "DD"
    case Versions(false, true, true) => "AA"
    case Versions(false, true, false) => "AU"
    case Versions(false, false, true) => "UA"
    case Versions(false, false, false) => ""
  }

  /** How a conflict is read says which versions there are. */
  lemma ConflictMeans(v: Versions, meta: seq<string>, path: string)
    requires (v.base || v.ours || v.theirs) && WellFormed(Unmerged(Letters(v), meta, path))
    ensures var read := ParseConflicts(Unlines([Show(Unmerged(Letters(v), meta, path))]));
      && |read| == 1 && read[0].path == path
      && (read[0].kind == ModifyDelete(Ours) <==> v.base && !v.ours && v.theirs)
      && (read[0].kind == ModifyDelete(Theirs) <==> v.base && v.ours && !v.theirs)
      && (read[0].kind == Content <==> v.base && v.ours && v.theirs)
      && (read[0].kind == AddAdd <==> !v.base && v.ours && v.theirs)
      && (read[0].kind == BothDeleted <==> v.base && !v.ours && !v.theirs)
      && (read[0].kind == OtherConflict <==> !v.base && v.ours != v.theirs)
  {
    hide ParseConflicts, Lines, Show, WellFormed, Unlines, KindOf, Letters;
    var e := Unmerged(Letters(v), meta, path);
    assert [e][1..] == [] && Status([e]) == [Show(e)];
    StatusIsRead([e]);
    assert UnmergedOnly([e]) == [Conflict(path, KindOf(Letters(v)))];
    LettersDiffer(v);
  }

  lemma LettersDiffer(v: Versions)
    requires v.base || v.ours || v.theirs
    ensures KindOf(Letters(v)) ==
      if v.base && v.ours && v.theirs then Content
      else if v.base && v.ours then ModifyDelete(Theirs)
      else if v.base && v.theirs then ModifyDelete(Ours)
      else if v.base then BothDeleted
      else if v.ours && v.theirs then AddAdd
      else OtherConflict
  {
    assert "UU"[0] == 'U' && "DU"[0] == 'D' && "UD"[1] == 'D' && "AA"[0] == 'A' && "DD"[1] == 'D';
    assert "AU"[1] == 'U' && "UA"[0] == 'U' && "UA"[1] == 'A';
  }

  // As programs

  class Buckets {
    var added: seq<string>
    var modified: seq<string>
    var deleted: seq<string>
    var renamed: seq<Rename>

    function Contents(): ChangeSet
      reads this
    {
      ChangeSet(added, modified, deleted, renamed)
    }

    constructor ()
      ensures Contents() == NO_CHANGES
    {
      added, modified, deleted, renamed := [], [], [], [];
    }

    method Classify(xy: string, path: string)
      modifies this
      ensures Contents() == ClassifyOrdinary(xy, path, old(Contents()))
    {
      var x, y := Letter(xy, 0), Letter(xy, 1);
      if x == 'D' || y == 'D' {
        deleted := deleted + [path];
      } else if x == 'A' {
        added := added + [path];
      } else {
        modified := modified + [path];
      }
    }

    method Parse(output: string)
      modifies this
      ensures Contents() == ReadChanges(Lines(output), old(Contents()))
    {
      hide Lines, SplitN, SplitOnce, ClassifyOrdinary;
      var lines := Lines(output);
      for i := 0 to |lines|
        invariant ReadChanges(lines, old(Contents())) == ReadChanges(lines[i..], Contents())
      {
        assert lines[i..][1..] == lines[i + 1..];
        var split := SplitOnce(lines[i], ' ');
        if split == None { continue; }
        var (kind, rest) := split.value;
        if kind == "1" {
          var fields := SplitN(rest, 8);
          if |fields| < 8 { continue; }
          Classify(fields[0], fields[7]);
        } else if kind == "2" {
          var fields := SplitN(rest, 9);
          if |fields| < 9 { continue; }
          var names := SplitOnce(fields[8], '\t');
          if names.Some? { renamed := renamed + [Rename(names.value.1, names.value.0)]; }
        } else if kind == "?" {
          added := added + [rest];
        } else if kind == "u" {
          var fields := SplitN(rest, 10);
          if |fields| == 10 { modified := modified + [fields[9]]; }
        }
      }
    }
  }

  lemma OneMoreLine(found: seq<Conflict>, lines: seq<string>, i: nat)
    requires i < |lines|
    ensures found + ReadConflicts(lines[i..])
         == (match ConflictOf(lines[i]) case None => found case Some(c) => found + [c]) + ReadConflicts(lines[i + 1..])
  {
    hide ConflictOf;
    assert lines[i..][1..] == lines[i + 1..];
  }

  method FindConflicts(output: string) returns (conflicts: seq<Conflict>)
    ensures conflicts == ParseConflicts(output)
  {
    hide Lines, SplitN, SplitOnce, KindOf, ReadConflicts;
    conflicts := [];
    var lines := Lines(output);
    assert lines[0..] == lines;
    for i := 0 to |lines|
      invariant conflicts + ReadConflicts(lines[i..]) == ReadConflicts(lines)
    {
      OneMoreLine(conflicts, lines, i);
      var split := SplitOnce(lines[i], ' ');
      if split == None || split.value.0 != "u" { continue; }
      var fields := SplitN(split.value.1, 10);
      if |fields| < 10 { continue; }
      conflicts := conflicts + [Conflict(fields[9], KindOf(fields[0]))];
    }
    NoLinesLeft(lines);
  }

  lemma NoLinesLeft(lines: seq<string>)
    ensures ReadConflicts(lines[|lines|..]) == []
  {
  }
}

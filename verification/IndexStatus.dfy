/**
 Incremental indexing of a clone, with conflicts and renames, through what git reports of it: the lines of its
 status are derived from HEAD, the index and the work tree, printed, parsed and indexed from.
 */
module IndexStatus {
  import opened Wrappers
  import opened CommitGraph
  import opened Git
  import opened Text
  import opened Porcelain
  import opened Index

  /**
   What a status is about; `renames` are the pairs that git takes for staged renames, and `binary` the paths of files
   that are not UTF-8.
   */
  datatype Snapshot = Snapshot(head: Tree, index: Tree, unmerged: seq<Conflict>, work: Tree, renames: seq<Rename>,
                               binary: set<string>)

  /** The files that can be read as text. */
  function Texts(s: Snapshot): Tree { s.work - s.binary }

  predicate InConflict(s: Snapshot, p: string) { exists c :: c in s.unmerged && c.path == p }

  predicate IsTarget(s: Snapshot, p: string) { exists m :: m in s.renames && m.to == p }

  predicate IsOrigin(s: Snapshot, p: string) { exists m :: m in s.renames && m.from == p }

  /**
   A conflicted path has no plain entry in the index; a rename goes from a path only HEAD has to one only the
   index has.
   */
  predicate ValidSnapshot(s: Snapshot) {
    && (forall c :: c in s.unmerged ==> c.path !in s.index)
    && (forall m :: m in s.renames ==>
          && m.from in s.head && m.from !in s.index && m.to in s.index && m.to !in s.head
          && !InConflict(s, m.from))
  }

  // The status

  /** How the index differs from HEAD. */
  function StagedLetter(s: Snapshot, p: string): char {
    if p !in s.head then if p in s.index then 'A' else '.'
    else if p !in s.index then 'D'
    else if s.head[p] == s.index[p] then '.' else 'M'
  }

  /** How the work tree differs from the index. */
  function WorkLetter(s: Snapshot, p: string): char {
    if p !in s.index then '.'
    else if p !in s.work then 'D'
    else if s.index[p] == s.work[p] then '.' else 'M'
  }

  predicate HasOrdinaryLine(s: Snapshot, p: string) {
    && !InConflict(s, p) && !IsTarget(s, p) && !IsOrigin(s, p)
    && (StagedLetter(s, p) != '.' || WorkLetter(s, p) != '.')
  }

  predicate HasUntrackedLine(s: Snapshot, p: string) { p in s.work && p !in s.index && !InConflict(s, p) }

  predicate Shows(s: Snapshot, e: Entry) {
    match e
    case Ordinary(xy, _, p) => HasOrdinaryLine(s, p) && xy == [StagedLetter(s, p), WorkLetter(s, p)]
    case Moved(_, to, from) => Rename(from, to) in s.renames
    case Untracked(p) => HasUntrackedLine(s, p)
    case Unmerged(xy, _, p) => Conflict(p, KindOf(xy)) in s.unmerged
  }

  predicate HasLine(entries: seq<Entry>, s: Snapshot, p: string) {
    && (HasOrdinaryLine(s, p) ==> exists e :: e in entries && e.Ordinary? && e.path == p)
    && (HasUntrackedLine(s, p) ==> exists e :: e in entries && e.Untracked? && e.path == p)
    && (InConflict(s, p) ==> exists e :: e in entries && e.Unmerged? && e.path == p)
    && (IsTarget(s, p) ==> exists e :: e in entries && e.Moved? && e.to == p)
    && (IsOrigin(s, p) ==> exists e :: e in entries && e.Moved? && e.from == p)
  }

  /** The lines of the status: only true ones, one for every path that has one, in any order. */
  ghost predicate IsStatus(s: Snapshot, entries: seq<Entry>) {
    && (forall e :: e in entries ==> WellFormed(e) && Shows(s, e))
    && (forall p :: HasLine(entries, s, p))
  }

  /** `git ls-files`. */
  predicate ListsFiles(s: Snapshot, tracked: seq<string>) {
    && (forall p :: p in tracked ==> p in s.index || InConflict(s, p))
    && (forall p :: p in s.index ==> p in tracked)
    && (forall c :: c in s.unmerged ==> c.path in tracked)
  }

  // What parsing it finds

  predicate Adds(e: Entry, p: string) {
    match e
    case Untracked(path) => path == p
    case Ordinary(xy, _, path) => path == p && Letter(xy, 0) == 'A' && Letter(xy, 1) != 'D'
    case _ => false
  }

  predicate Deletes(e: Entry, p: string) {
    e.Ordinary? && e.path == p && (Letter(e.xy, 0) == 'D' || Letter(e.xy, 1) == 'D')
  }

  predicate Modifies(e: Entry, p: string) {
    match e
    case Unmerged(_, _, path) => path == p
    case Ordinary(xy, _, path) => path == p && Letter(xy, 0) !in ['A', 'D'] && Letter(xy, 1) != 'D'
    case _ => false
  }

  lemma {:induction false} RecordedAt(entries: seq<Entry>, changes: ChangeSet, p: string)
    ensures var all := Recorded(entries, changes);
      && (p in all.added <==> p in changes.added || exists e :: e in entries && Adds(e, p))
      && (p in all.deleted <==> p in changes.deleted || exists e :: e in entries && Deletes(e, p))
      && (p in all.modified <==> p in changes.modified || exists e :: e in entries && Modifies(e, p))
    decreases |entries|
  {
    if entries != [] {
      hide Letter;
      var next := Record(entries[0], changes);
      RecordedAt(entries[1..], next, p);
      assert p in next.added <==> p in changes.added || Adds(entries[0], p);
      assert p in next.deleted <==> p in changes.deleted || Deletes(entries[0], p);
      assert p in next.modified <==> p in changes.modified || Modifies(entries[0], p);
      assert forall e :: e in entries <==> e == entries[0] || e in entries[1..];
    }
  }

  lemma {:induction false} RenamesRecorded(entries: seq<Entry>, changes: ChangeSet, m: Rename)
    ensures m in Recorded(entries, changes).renamed
       <==> m in changes.renamed || exists e :: e in entries && e.Moved? && e.to == m.to && e.from == m.from
    decreases |entries|
  {
    if entries != [] {
      hide ClassifyOrdinary;
      var next := Record(entries[0], changes);
      RenamesRecorded(entries[1..], next, m);
      ClassifyKeepsRenames(entries[0], changes);
      assert forall e :: e in entries <==> e == entries[0] || e in entries[1..];
    }
  }

  lemma ClassifyKeepsRenames(e: Entry, changes: ChangeSet)
    ensures Record(e, changes).renamed == if e.Moved? then changes.renamed + [Rename(e.from, e.to)] else changes.renamed
  {
  }

  predicate ChangedSinceHead(s: Snapshot, p: string) {
    && p in s.head && p in s.index && p in s.work
    && (s.head[p] != s.index[p] || s.index[p] != s.work[p])
  }

  /** What the parsed status says of a path, in terms of HEAD, the index and the work tree. */
  lemma ReportedAt(s: Snapshot, entries: seq<Entry>, p: string)
    requires ValidSnapshot(s) && IsStatus(s, entries)
    ensures var all := Recorded(entries, NO_CHANGES);
      && (p in all.added <==>
            || HasUntrackedLine(s, p)
            || (p in s.index && p in s.work && p !in s.head && !IsTarget(s, p)))
      && (p in all.deleted <==>
            || (p in s.head && p !in s.index && !InConflict(s, p) && !IsOrigin(s, p))
            || (p in s.index && p !in s.work && !IsTarget(s, p)))
      && (p in all.modified <==> InConflict(s, p) || ChangedSinceHead(s, p))
  {
    RecordedAt(entries, NO_CHANGES, p);
    assert HasLine(entries, s, p);
    assert forall e :: e in entries ==> Shows(s, e);
    OrdinaryMeans(s, p);
  }

  lemma OrdinaryMeans(s: Snapshot, p: string)
    requires ValidSnapshot(s)
    ensures var xy := [StagedLetter(s, p), WorkLetter(s, p)];
      && Letter(xy, 0) == StagedLetter(s, p) && Letter(xy, 1) == WorkLetter(s, p)
      && (InConflict(s, p) ==> p !in s.index)
      && (IsTarget(s, p) ==> p in s.index && p !in s.head)
      && (IsOrigin(s, p) ==> p in s.head && p !in s.index && !InConflict(s, p))
  {
  }

  lemma RenamesReported(s: Snapshot, entries: seq<Entry>, p: string)
    requires ValidSnapshot(s) && IsStatus(s, entries)
    ensures var renamed := Recorded(entries, NO_CHANGES).renamed;
      && (p in MarkdownTargets(renamed) <==> IsMarkdown(p) && IsTarget(s, p))
      && (p in Origins(renamed) <==> IsOrigin(s, p))
  {
    hide IsMarkdown, Recorded;
    var renamed := Recorded(entries, NO_CHANGES).renamed;
    forall m ensures m in renamed <==> m in s.renames && Moves(entries, m) {
      RenamesRecorded(entries, NO_CHANGES, m);
      assert forall e :: e in entries && e.Moved? ==> Shows(s, e);
    }
    assert HasLine(entries, s, p);
    if IsTarget(s, p) {
      var e :| e in entries && e.Moved? && e.to == p;
      assert Shows(s, e) && Moves(entries, Rename(e.from, e.to));
    }
    if IsOrigin(s, p) {
      var e :| e in entries && e.Moved? && e.from == p;
      assert Shows(s, e) && Moves(entries, Rename(e.from, e.to));
    }
  }

  predicate Moves(entries: seq<Entry>, m: Rename) {
    exists e :: e in entries && e.Moved? && e.to == m.to && e.from == m.from
  }

  // Indexing from it

  /** The clone's markdown files as a run sees them. */
  predicate IsCurrent(s: Snapshot, p: string) {
    && IsMarkdown(p)
    && (InConflict(s, p) || IsTarget(s, p) || (p in s.work && (p in s.index || p !in s.head)))
  }

  ghost predicate Reports(s: Snapshot, tracked: seq<string>, entries: seq<Entry>) {
    ValidSnapshot(s) && ListsFiles(s, tracked) && IsStatus(s, entries)
  }

  /** The changes that are parsed from the printed status. */
  function ChangesOf(entries: seq<Entry>): ChangeSet { ParseChanges(Unlines(Status(entries))) }

  lemma ChangesAre(s: Snapshot, tracked: seq<string>, entries: seq<Entry>)
    requires Reports(s, tracked, entries)
    ensures ChangesOf(entries) == Recorded(entries, NO_CHANGES)
  {
    hide ParseChanges, Recorded;
    StatusIsRead(entries);
  }

  /**
   The current paths are the markdown files of the work tree, except those taken out of git's index but not yet out of
   HEAD, and besides them the paths in conflict and the new names of renamed files, whether or not there is a file.
   */
  lemma CurrentIs(s: Snapshot, tracked: seq<string>, entries: seq<Entry>, p: string)
    requires Reports(s, tracked, entries)
    ensures p in Current(tracked, ChangesOf(entries)) <==> IsCurrent(s, p)
    ensures p in Dirty(ChangesOf(entries))
      <==> IsMarkdown(p) && (InConflict(s, p) || IsTarget(s, p) || ChangedSinceHead(s, p))
  {
    hide IsMarkdown, Recorded, ChangesOf, IsStatus, MarkdownTargets, Origins;
    ChangesAre(s, tracked, entries);
    ReportedAt(s, entries, p);
    RenamesReported(s, entries, p);
    OrdinaryMeans(s, p);
    assert p in tracked <==> p in s.index || InConflict(s, p);
  }

  /**
   A run can read every file it wants if and only if every markdown file that is in conflict or newly named is in the
   work tree, and every current one that is not UTF-8 has a row already and no change since HEAD: any other makes every
   run fail.
   */
  lemma ReadableIff(rows: Rows, s: Snapshot, tracked: seq<string>, entries: seq<Entry>)
    requires Reports(s, tracked, entries)
    ensures ToRead(rows, tracked, ChangesOf(entries)) <= Texts(s).Keys
       <==> && (forall p :: IsMarkdown(p) && (InConflict(s, p) || IsTarget(s, p)) ==> p in s.work)
            && (forall p :: p in s.binary && IsCurrent(s, p) ==>
                  p in rows && !InConflict(s, p) && !IsTarget(s, p) && !ChangedSinceHead(s, p))
  {
    hide IsMarkdown, Recorded, ChangesOf, Reports, Current, Dirty, InConflict, IsTarget, ChangedSinceHead;
    forall p ensures p in ToRead(rows, tracked, ChangesOf(entries)) <==> Wanted(rows, s, p) {
      CurrentIs(s, tracked, entries, p);
    }
    hide ToRead;
    assert forall p :: IsMarkdown(p) && (InConflict(s, p) || IsTarget(s, p)) ==> Wanted(rows, s, p);
  }

  /** A file that a run reads: it is current, and new or changed. */
  predicate Wanted(rows: Rows, s: Snapshot, p: string) {
    IsCurrent(s, p) && (p !in rows || InConflict(s, p) || IsTarget(s, p) || ChangedSinceHead(s, p))
  }

  /**
   Which rows are stale after a run, in terms of the clone: those that were stale before, of a file that is neither in
   conflict nor newly named and either the same in HEAD, the index and the work tree (it was edited, then committed) or
   not in HEAD at all (an untracked or newly staged file, edited after it was first indexed).
   */
  lemma MissedEdits(rows: Rows, s: Snapshot, tracked: seq<string>, entries: seq<Entry>, env: Environment, p: string)
    requires Reports(s, tracked, entries) && ToRead(rows, tracked, ChangesOf(entries)) <= Texts(s).Keys
    ensures var after := Reindexed(rows, tracked, ChangesOf(entries), Texts(s), env);
      p in after && Stale(after, Texts(s), env, p)
      <==> && p in rows && Stale(rows, Texts(s), env, p)
           && IsMarkdown(p) && p in s.work && !InConflict(s, p) && !IsTarget(s, p)
           && (p !in s.head || (p in s.index && s.head[p] == s.index[p] == s.work[p]))
  {
    hide RowOf, IsMarkdown, ChangesOf, Reports, Current, Dirty, InConflict, IsTarget, Reindexed, ToRead;
    CurrentIs(s, tracked, entries, p);
    StaleAfterRun(rows, tracked, ChangesOf(entries), Texts(s), env, p);
  }

  /** A file that was never committed: indexed once, edited, and not read again. */
  lemma UntrackedEditIsMissed(row: Row, contents: string, env: Environment)
    requires row != RowOf("a.md", contents, env)
    ensures var s, entries := Snapshot(map[], map[], [], map["a.md" := contents], [], {}), [Untracked("a.md")];
      var rows := map["a.md" := row];
      && Reports(s, [], entries)
      && ToRead(rows, [], ChangesOf(entries)) <= Texts(s).Keys
      && Reindexed(rows, [], ChangesOf(entries), Texts(s), env) == rows
  {
    hide RowOf, ChangesOf, Reports, Reindexed, ToRead, Current, Dirty;
    var s, entries := Snapshot(map[], map[], [], map["a.md" := contents], [], {}), [Untracked("a.md")];
    var rows := map["a.md" := row];
    UntrackedStatus(contents);
    NoteIsMarkdown();
    hide IsMarkdown;
    forall p
      ensures p in Current([], ChangesOf(entries)) <==> p == "a.md"
      ensures p !in Dirty(ChangesOf(entries))
    {
      CurrentIs(s, [], entries, p);
    }
    NothingToDo(rows, [], ChangesOf(entries), Texts(s), env);
  }

  lemma UntrackedStatus(contents: string)
    ensures Reports(Snapshot(map[], map[], [], map["a.md" := contents], [], {}), [], [Untracked("a.md")])
  {
    var s, entries := Snapshot(map[], map[], [], map["a.md" := contents], [], {}), [Untracked("a.md")];
    assert "? " + "a.md" == "? a.md";
    assert WellFormed(entries[0]);
    assert HasUntrackedLine(s, "a.md");
    forall p ensures HasLine(entries, s, p) { assert entries[0] in entries; }
  }

  lemma NoteIsMarkdown()
    ensures IsMarkdown("a.md")
  {
    NoSlashAt("a.md");
    assert "a.md"[1..] == ".md";
  }
}

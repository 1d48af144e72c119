/**
 Incremental indexing: which files a run of `wkp index` reads again, and what the index then holds
 (crates/wkp-cli/src/index_cmd.rs).  The index is its rows by path; writing it is deleting some rows and then
 replacing others.
 */
module Index {
  import opened Wrappers
  import opened Porcelain
  import opened Text
  import opened CommitGraph
  import Fusion
  import Okf

  type Vector = seq<Fusion.Float>

  datatype Row = Row(frontmatter: Okf.Frontmatter, body: string, embedding: Option<Vector>, humanSigned: bool)

  type Rows = map<string, Row>

  /**
   Whether a human signed the last commit of a path, and the embedding of a text: none when none are asked for or the
   endpoint gives no answer.
   */
  datatype Environment = Environment(signed: string -> bool, embed: string -> Option<Vector>)

  /** What a run depends on besides the files: the index opens, embeddings are configured, the index can be written. */
  datatype Luck = Luck(opens: bool, embeds: bool, stores: bool)

  datatype Failure = NotOpened | Unreadable(path: string) | NoEmbeddings | NotStored

  function FileName(path: string): string {
    match LastSlash(path)
    case None => path
    case Some(i) => path[i + 1..]
  }

  function LastSlash(path: string): (i: Option<nat>)
    ensures i.Some? ==> i.value < |path|
  {
    if path == "" then None
    else if path[|path| - 1] == '/' then Some(|path| - 1)
    else LastSlash(path[..|path| - 1])
  }

  /** The extension is `md`; a file called just `.md` has none. */
  predicate IsMarkdown(path: string) {
    var name := FileName(path);
    |name| > 3 && name[|name| - 3..] == ".md"
  }

  /** In whatever directory: what counts is the part of the path behind its last slash. */
  lemma MarkdownIff(directory: string, name: string)
    requires '/' !in name
    ensures IsMarkdown(directory + "/" + name) <==> IsMarkdown(name)
    ensures IsMarkdown(name) <==> exists stem :: stem != "" && name == stem + ".md"
  {
    hide LastSlash;
    var path := directory + "/" + name;
    SlashAt(directory, name);
    assert path[|directory| + 1..] == name;
    NoSlashAt(name);
    if IsMarkdown(name) {
      var stem := name[..|name| - 3];
      assert stem != "" && name == stem + ".md";
    }
    if stem :| stem != "" && name == stem + ".md" { assert name[|name| - 3..] == ".md"; }
  }

  lemma {:induction false} SlashAt(directory: string, name: string)
    requires '/' !in name
    ensures LastSlash(directory + "/" + name) == Some(|directory|)
    decreases |name|
  {
    var path := directory + "/" + name;
    if name == "" {
      assert path[|path| - 1] == '/';
    } else {
      var rest := name[..|name| - 1];
      assert path[|path| - 1] == name[|name| - 1] && name[|name| - 1] in name;
      assert path[..|path| - 1] == directory + "/" + rest;
      SlashAt(directory, rest);
    }
  }

  lemma {:induction false} NoSlashAt(name: string)
    requires '/' !in name
    ensures LastSlash(name) == None
  {
    if name != "" {
      assert name[|name| - 1] in name;
      NoSlashAt(name[..|name| - 1]);
    }
  }

  function Markdown(s: seq<string>): set<string> { set x | x in s && IsMarkdown(x) }

  function Origins(renamed: seq<Rename>): set<string> { set r | r in renamed :: r.from }

  function MarkdownTargets(renamed: seq<Rename>): set<string> { set r | r in renamed && IsMarkdown(r.to) :: r.to }

  function Current(tracked: seq<string>, changes: ChangeSet): set<string> {
    Markdown(tracked) + Markdown(changes.added) + MarkdownTargets(changes.renamed)
    - (Elements(changes.deleted) + Origins(changes.renamed))
  }

  function Dirty(changes: ChangeSet): set<string> { Markdown(changes.modified) + MarkdownTargets(changes.renamed) }

  /** The files a run reads. */
  function ToRead(rows: Rows, tracked: seq<string>, changes: ChangeSet): set<string> {
    var current := Current(tracked, changes);
    (current - rows.Keys) + (current * rows.Keys * Dirty(changes))
  }

  function TitleOf(fm: Okf.Frontmatter): string {
    match fm.title case Some(t) => t case None => ""
  }

  /** What is read from a file, before its embedding is known. */
  function TextRow(path: string, contents: string, env: Environment): Row {
    var parsed := Okf.Parse(contents);
    Row(parsed.frontmatter, parsed.body, None, env.signed(path))
  }

  function Embedded(row: Row, env: Environment): Row {
    row.(embedding := env.embed(TitleOf(row.frontmatter) + "\n\n" + row.body))
  }

  function RowOf(path: string, contents: string, env: Environment): Row {
    Embedded(TextRow(path, contents, env), env)
  }

  datatype Summary = Summary(added: nat, modified: nat, deleted: nat)

  /** What a run reports: new rows, rows read again, rows gone. */
  function Counted(rows: Rows, tracked: seq<string>, changes: ChangeSet): Summary {
    var known, current := rows.Keys, Current(tracked, changes);
    Summary(|current - known|, |current * known * Dirty(changes)|, |known - current|)
  }

  /** The rows after a run in which every file was read. */
  function Reindexed(rows: Rows, tracked: seq<string>, changes: ChangeSet, files: Tree, env: Environment): Rows
    requires ToRead(rows, tracked, changes) <= files.Keys
  {
    map p | p in Current(tracked, changes)
      :: if p in ToRead(rows, tracked, changes) then RowOf(p, files[p], env) else rows[p]
  }

  // The program

  class Store {
    var rows: Rows

    constructor (rows: Rows)
      ensures this.rows == rows
    {
      this.rows := rows;
    }

    method Update(upserts: map<string, Row>, deleted: set<string>)
      modifies this
      ensures rows == (old(rows) - deleted) + upserts
    {
      var gone := deleted;
      while gone != {}
        invariant gone <= deleted && rows == old(rows) - (deleted - gone)
      {
        var p :| p in gone;
        rows := rows - {p};
        gone := gone - {p};
      }
      assert rows == old(rows) - deleted;
      var rest := upserts.Keys;
      while rest != {}
        invariant rest <= upserts.Keys
        invariant rows == (old(rows) - deleted) + (upserts - rest)
      {
        var p :| p in rest;
        rows := rows[p := upserts[p]];
        rest := rest - {p};
      }
      assert upserts - {} == upserts;
    }

    method Run(tracked: seq<string>, changes: ChangeSet, files: Tree, env: Environment, luck: Luck)
      returns (result: Result<Summary, Failure>)
      modifies this
      ensures result.Ok? <==> luck == Luck(true, true, true) && ToRead(old(rows), tracked, changes) <= files.Keys
      ensures result.Ok? ==>
        && ToRead(old(rows), tracked, changes) <= files.Keys
        && rows == Reindexed(old(rows), tracked, changes, files, env)
        && rows.Keys == Current(tracked, changes)
        && (forall p :: p in rows && p in ToRead(old(rows), tracked, changes) ==> HoldsFile(rows[p], p, files[p], env))
        && (forall p :: p in rows && p !in ToRead(old(rows), tracked, changes) ==>
              p in old(rows) && rows[p] == old(rows)[p])
        && |rows| + result.value.deleted == |old(rows)| + result.value.added
        && result.value == Counted(old(rows), tracked, changes)
      ensures result.Err? ==> rows == old(rows)
      ensures result == Err(NotOpened) <==> !luck.opens
      ensures result == Err(NoEmbeddings)
        <==> luck.opens && !luck.embeds && ToRead(old(rows), tracked, changes) <= files.Keys
      ensures result.Err? && result.error.Unreadable? ==>
        result.error.path in ToRead(old(rows), tracked, changes) && result.error.path !in files
    {
      hide *;
      var current := CurrentPaths(tracked, changes);
      if !luck.opens { return Err(NotOpened); }
      var known := rows.Keys;
      var added, modified, deleted := current - known, current * known * Dirty(changes), known - current;
      ReadAndCounted(rows, tracked, changes);
      var upserts := ReadFiles(added + modified, files, env);
      if upserts.Err? { return Err(Unreadable(upserts.error)); }
      if !luck.embeds { return Err(NoEmbeddings); }
      var embedded := EmbedRows(upserts.value, env);
      if !luck.stores { return Err(NotStored); }
      UpdateReindexes(rows, tracked, changes, files, env, embedded);
      ReindexedCounts(rows, tracked, changes, files, env);
      RowsAfterRun(rows, tracked, changes, files, env);
      Update(embedded, deleted);
      return Ok(Summary(|added|, |modified|, |deleted|));
    }
  }

  lemma ReadAndCounted(rows: Rows, tracked: seq<string>, changes: ChangeSet)
    ensures var known, current := rows.Keys, Current(tracked, changes);
      var again := current * known * Dirty(changes);
      && ToRead(rows, tracked, changes) == (current - known) + again
      && Counted(rows, tracked, changes) == Summary(|current - known|, |again|, |known - current|)
  {
    hide Current, Dirty;
  }

  function EmbeddedRows(upserts: map<string, Row>, env: Environment): map<string, Row> {
    map p | p in upserts :: Embedded(upserts[p], env)
  }

  function TextRows(paths: set<string>, files: Tree, env: Environment): map<string, Row> {
    map p | p in paths * files.Keys :: TextRow(p, files[p], env)
  }

  /** Computes the embeddings of rows that were read. */
  method EmbedRows(upserts: map<string, Row>, env: Environment) returns (embedded: map<string, Row>)
    ensures embedded == EmbeddedRows(upserts, env)
  {
    hide Embedded;
    embedded := upserts;
    var rest := upserts.Keys;
    while rest != {}
      invariant rest <= upserts.Keys && embedded.Keys == upserts.Keys
      invariant forall p :: p in upserts ==> embedded[p] == if p in rest then upserts[p] else Embedded(upserts[p], env)
    {
      var p :| p in rest;
      embedded := embedded[p := Embedded(embedded[p], env)];
      rest := rest - {p};
    }
  }

  lemma UpdateReindexes(rows: Rows, tracked: seq<string>, changes: ChangeSet, files: Tree, env: Environment,
                        upserts: map<string, Row>)
    requires ToRead(rows, tracked, changes) <= files.Keys
    requires upserts == EmbeddedRows(TextRows(ToRead(rows, tracked, changes), files, env), env)
    ensures (rows - (rows.Keys - Current(tracked, changes))) + upserts == Reindexed(rows, tracked, changes, files, env)
  {
    hide Current, Dirty, EmbeddedRows, TextRows, RowOf;
    RowsRead(ToRead(rows, tracked, changes), files, env);
  }

  lemma ReindexedCounts(rows: Rows, tracked: seq<string>, changes: ChangeSet, files: Tree, env: Environment)
    requires ToRead(rows, tracked, changes) <= files.Keys
    ensures var counted := Counted(rows, tracked, changes);
      |Reindexed(rows, tracked, changes, files, env)| + counted.deleted == |rows| + counted.added
  {
    hide *;
    ReindexedSize(rows, tracked, changes, files, env);
    ReadAndCounted(rows, tracked, changes);
    CountRows(rows.Keys, Current(tracked, changes));
  }

  lemma ReindexedSize(rows: Rows, tracked: seq<string>, changes: ChangeSet, files: Tree, env: Environment)
    requires ToRead(rows, tracked, changes) <= files.Keys
    ensures |Reindexed(rows, tracked, changes, files, env)| == |Current(tracked, changes)|
  {
    hide Current, Dirty, RowOf;
    var after := Reindexed(rows, tracked, changes, files, env);
    assert after.Keys == Current(tracked, changes);
    assert |after| == |after.Keys|;
  }

  /** The row of a file: what is read in it, who signed its last commit, and the embedding of title and body. */
  predicate HoldsFile(row: Row, path: string, contents: string, env: Environment) {
    var parsed := Okf.Parse(contents);
    var title := if parsed.frontmatter.title == None then "" else parsed.frontmatter.title.value;
    && row.frontmatter == parsed.frontmatter && row.body == parsed.body
    && row.humanSigned == env.signed(path)
    && row.embedding == env.embed(title + "\n\n" + parsed.body)
  }

  lemma FileRow(path: string, contents: string, env: Environment)
    ensures HoldsFile(RowOf(path, contents, env), path, contents, env)
  {
    hide Okf.Parse;
  }

  /** The rows after a run: those of the files it read, and the old ones of the other current paths. */
  lemma RowsAfterRun(rows: Rows, tracked: seq<string>, changes: ChangeSet, files: Tree, env: Environment)
    requires ToRead(rows, tracked, changes) <= files.Keys
    ensures var after := Reindexed(rows, tracked, changes, files, env);
      && after.Keys == Current(tracked, changes)
      && (forall p :: p in after && p in ToRead(rows, tracked, changes) ==> HoldsFile(after[p], p, files[p], env))
      && (forall p :: p in after && p !in ToRead(rows, tracked, changes) ==> p in rows && after[p] == rows[p])
  {
    hide RowOf, Current, Dirty, HoldsFile;
    var after := Reindexed(rows, tracked, changes, files, env);
    forall p | p in after && p in ToRead(rows, tracked, changes) ensures HoldsFile(after[p], p, files[p], env) {
      FileRow(p, files[p], env);
    }
  }

  lemma RowsRead(paths: set<string>, files: Tree, env: Environment)
    requires paths <= files.Keys
    ensures EmbeddedRows(TextRows(paths, files, env), env).Keys == paths
    ensures forall p :: p in paths ==> EmbeddedRows(TextRows(paths, files, env), env)[p] == RowOf(p, files[p], env)
  {
    hide TextRow, Embedded;
  }

  method CurrentPaths(tracked: seq<string>, changes: ChangeSet) returns (current: set<string>)
    ensures current == Current(tracked, changes)
  {
    current := ExtendWith({}, tracked);
    current := ExtendWith(current, changes.added);
    current := ExtendWithTargets(current, changes.renamed);
    current := RemoveAll(current, changes.deleted);
    current := RemoveOrigins(current, changes.renamed);
  }

  method RemoveAll(base: set<string>, paths: seq<string>) returns (rest: set<string>)
    ensures rest == base - Elements(paths)
  {
    rest := base;
    for i := 0 to |paths|
      invariant rest == base - Elements(paths[..i])
    {
      assert paths[..i + 1] == paths[..i] + [paths[i]];
      rest := rest - {paths[i]};
    }
    assert paths[..|paths|] == paths;
  }

  method RemoveOrigins(base: set<string>, renamed: seq<Rename>) returns (rest: set<string>)
    ensures rest == base - Origins(renamed)
  {
    rest := base;
    for i := 0 to |renamed|
      invariant rest == base - Origins(renamed[..i])
    {
      assert renamed[..i + 1] == renamed[..i] + [renamed[i]];
      rest := rest - {renamed[i].from};
    }
    assert renamed[..|renamed|] == renamed;
  }

  method ExtendWith(base: set<string>, paths: seq<string>) returns (all: set<string>)
    ensures all == base + Markdown(paths)
  {
    hide IsMarkdown;
    all := base;
    for i := 0 to |paths|
      invariant all == base + Markdown(paths[..i])
    {
      assert paths[..i + 1] == paths[..i] + [paths[i]];
      if IsMarkdown(paths[i]) { all := all + {paths[i]}; }
    }
    assert paths[..|paths|] == paths;
  }

  method ExtendWithTargets(base: set<string>, renamed: seq<Rename>) returns (all: set<string>)
    ensures all == base + MarkdownTargets(renamed)
  {
    hide IsMarkdown;
    all := base;
    for i := 0 to |renamed|
      invariant all == base + MarkdownTargets(renamed[..i])
    {
      assert renamed[..i + 1] == renamed[..i] + [renamed[i]];
      if IsMarkdown(renamed[i].to) { all := all + {renamed[i].to}; }
    }
    assert renamed[..|renamed|] == renamed;
  }

  /** Reads the files in any order and stops at the first that cannot be read. */
  method ReadFiles(paths: set<string>, files: Tree, env: Environment) returns (result: Result<map<string, Row>, string>)
    ensures result.Ok? <==> paths <= files.Keys
    ensures result.Ok? ==> result.value == TextRows(paths, files, env)
    ensures result.Err? ==> result.error in paths && result.error !in files
  {
    hide TextRow;
    var upserts: map<string, Row> := map[];
    var rest := paths;
    while rest != {}
      invariant rest <= paths && upserts.Keys == paths - rest && upserts.Keys <= files.Keys
      invariant forall p :: p in upserts ==> upserts[p] == TextRow(p, files[p], env)
    {
      var p :| p in rest;
      if p !in files { return Err(p); }
      upserts := upserts[p := TextRow(p, files[p], env)];
      rest := rest - {p};
    }
    return Ok(upserts);
  }

  lemma CountRows(known: set<string>, current: set<string>)
    ensures |current| + |known - current| == |known| + |current - known|
  {
    assert current == (current * known) + (current - known);
    assert known == (current * known) + (known - current);
  }

  // What a run does and does not refresh

  /** A row that is not what reading its file would give. */
  predicate Stale(rows: Rows, files: Tree, env: Environment, p: string)
    requires p in rows
  {
    p !in files || rows[p] != RowOf(p, files[p], env)
  }

  /**
   After a run the index has a row for exactly the current paths, and the stale rows are exactly the current paths
   that had a stale row already and that git does not report as modified or as the new name of a renamed file.
   */
  lemma StaleAfterRun(rows: Rows, tracked: seq<string>, changes: ChangeSet, files: Tree, env: Environment, p: string)
    requires ToRead(rows, tracked, changes) <= files.Keys
    ensures var after := Reindexed(rows, tracked, changes, files, env);
      && after.Keys == Current(tracked, changes)
      && (p in after ==>
            (Stale(after, files, env, p) <==> p in rows && Stale(rows, files, env, p) && p !in Dirty(changes)))
  {
    hide RowOf, IsMarkdown;
    var after := Reindexed(rows, tracked, changes, files, env);
    assert after.Keys == Current(tracked, changes);
  }

  /** A run that finds nothing new or changed reads no file and leaves the index as it is. */
  lemma NothingToDo(rows: Rows, tracked: seq<string>, changes: ChangeSet, files: Tree, env: Environment)
    requires Current(tracked, changes) == rows.Keys && Current(tracked, changes) !! Dirty(changes)
    ensures ToRead(rows, tracked, changes) == {} && Reindexed(rows, tracked, changes, files, env) == rows
  {
    hide Current, Dirty, RowOf;
    assert ToRead(rows, tracked, changes) == {};
  }

  /** The index built from nothing. */
  function Rebuilt(tracked: seq<string>, changes: ChangeSet, files: Tree, env: Environment): Rows
    requires Current(tracked, changes) <= files.Keys
  {
    map p | p in Current(tracked, changes) :: RowOf(p, files[p], env)
  }

  /** A run gives what a rebuild would if and only if every stale row of a current path is one git reports. */
  lemma RunIsRebuildIff(rows: Rows, tracked: seq<string>, changes: ChangeSet, files: Tree, env: Environment)
    requires Current(tracked, changes) <= files.Keys
    ensures ToRead(rows, tracked, changes) <= files.Keys
    ensures Reindexed(rows, tracked, changes, files, env) == Rebuilt(tracked, changes, files, env)
       <==> forall p :: p in rows && p in Current(tracked, changes) && Stale(rows, files, env, p) ==>
           p in Dirty(changes)
  {
    hide RowOf, IsMarkdown;
    var after, rebuilt := Reindexed(rows, tracked, changes, files, env), Rebuilt(tracked, changes, files, env);
    assert after.Keys == rebuilt.Keys;
    if forall p :: p in rows && p in Current(tracked, changes) && Stale(rows, files, env, p) ==> p in Dirty(changes) {
      forall p | p in after ensures after[p] == rebuilt[p] {
        StaleAfterRun(rows, tracked, changes, files, env, p);
      }
    } else {
      var p :| p in rows && p in Current(tracked, changes) && Stale(rows, files, env, p) && p !in Dirty(changes);
      StaleAfterRun(rows, tracked, changes, files, env, p);
      assert after[p] != rebuilt[p];
    }
  }

  /** With nothing changed in between, a second run changes nothing. */
  lemma SecondRunChangesNothing(rows: Rows, tracked: seq<string>, changes: ChangeSet, files: Tree, env: Environment)
    requires ToRead(rows, tracked, changes) <= files.Keys
    ensures var after := Reindexed(rows, tracked, changes, files, env);
      && ToRead(after, tracked, changes) <= files.Keys
      && Reindexed(after, tracked, changes, files, env) == after
  {
    hide RowOf, IsMarkdown;
    var after := Reindexed(rows, tracked, changes, files, env);
    assert after.Keys == Current(tracked, changes);
    assert ToRead(after, tracked, changes) <= ToRead(rows, tracked, changes);
  }
}

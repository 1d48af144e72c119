/**
 What merging a list of refs, and a whole sync, brings into the device's branch, and what survives a deletion on one
 side.
 */
module SyncTheorems {
  import opened Wrappers
  import opened CommitGraph
  import opened Git
  import opened Sync
  import D = DeviceBranchTheorems

  function Tip(r: Repo): CommitId
    requires HeadCommit(r).Some?
  {
    HeadCommit(r).value
  }

  // Ancestry

  /** `tip'` in `dag'` has the ancestors that `tip` and `other` had, and no other old commit. */
  ghost predicate Joins(dag: Dag, tip: CommitId, other: CommitId, dag': Dag, tip': CommitId)
    requires tip < |dag| && other < |dag|
  {
    && dag <= dag' && tip' < |dag'|
    && forall x: CommitId :: x < |dag| ==> (Reach(dag', x, tip') <==> Reach(dag, x, tip) || Reach(dag, x, other))
  }

  lemma UpToDateJoins(dag: Dag, tip: CommitId, other: CommitId)
    requires tip < |dag| && other < |dag| && Reach(dag, other, tip)
    ensures Joins(dag, tip, other, dag, tip)
  {
    forall x: CommitId | x < |dag| && Reach(dag, x, other)
      ensures Reach(dag, x, tip)
    {
      ReachTransitive(dag, x, other, tip);
    }
  }

  lemma FastForwardJoins(dag: Dag, tip: CommitId, other: CommitId)
    requires tip < |dag| && other < |dag| && Reach(dag, tip, other)
    ensures Joins(dag, tip, other, dag, other)
  {
    forall x: CommitId | x < |dag| && Reach(dag, x, tip)
      ensures Reach(dag, x, other)
    {
      ReachTransitive(dag, x, tip, other);
    }
  }

  lemma CommitJoins(dag: Dag, tip: CommitId, other: CommitId, parents: seq<CommitId>, tree: Tree)
    requires tip < |dag| && other < |dag|
    requires parents == [tip, other] || (parents == [tip] && Reach(dag, other, tip))
      || (parents == [other] && Reach(dag, tip, other))
    ensures Joins(dag, tip, other, dag + [Commit(parents, tree)], |dag|)
  {
    var c := Commit(parents, tree);
    forall x: CommitId | x < |dag| ensures Reach(dag + [c], x, |dag|) <==> Reach(dag, x, tip) || Reach(dag, x, other) {
      NewCommitReach(dag, c, x);
      if Reach(dag, other, tip) && Reach(dag, x, other) { ReachTransitive(dag, x, other, tip); }
      if Reach(dag, tip, other) && Reach(dag, x, tip) { ReachTransitive(dag, x, tip, other); }
      assert parents[0] in c.parents;
      if |parents| == 2 { assert parents[1] in c.parents; }
    }
  }

  // One ref

  /** What a turn of the loop merges: an unfinished merge goes before the ref it was given. */
  predicate HasBrought(r: Repo, branch: string) { r.mergeHead.Some? || branch in r.tracking }

  function Brought(r: Repo, branch: string): CommitId
    requires HasBrought(r, branch)
  {
    if r.mergeHead.Some? then r.mergeHead.value else r.tracking[branch]
  }

  /** Everything but the current branch is where it was. */
  predicate OnlyHeadMoves(r: Repo, after: Repo) {
    && after.tracking == r.tracking && r.dag <= after.dag
    && (r.head.OnBranch? ==> after.head == r.head && r.head.branch in after.refs
                             && after.refs == r.refs[r.head.branch := after.refs[r.head.branch]])
    && (r.head.Detached? ==> after.head.Detached? && after.refs == r.refs)
  }

  lemma FinishJoins(r: Repo)
    requires Valid(r) && HeadCommit(r).Some? && FinishMerge(r).Ok?
    ensures r.mergeHead.Some?
    ensures var after := FinishMerge(r).value;
      && HeadCommit(after).Some? && OnlyHeadMoves(r, after) && after.unmerged == [] && after.mergeHead == None
      && Joins(r.dag, Tip(r), r.mergeHead.value, after.dag, Tip(after))
      && after.dag == r.dag + [Commit(MergeParents(r.dag, Tip(r), r.mergeHead.value), r.index)] && Tip(after) == |r.dag|
      && after.work == r.work
  {
    hide Joins, Reach;
    CommitJoins(r.dag, Tip(r), r.mergeHead.value, MergeParents(r.dag, Tip(r), r.mergeHead.value), r.index);
  }

  /** When an unfinished merge can be concluded, and its commit: a side that is behind the other is no parent of it. */
  lemma FinishMergeIff(r: Repo)
    requires Valid(r) && HeadCommit(r).Some?
    ensures FinishMerge(r).Ok? <==> r.unmerged == [] && r.mergeHead.Some?
    ensures r.unmerged != [] ==> FinishMerge(r) == Err(UnmergedPaths)
    ensures FinishMerge(r).Ok? ==>
      var other, commit := r.mergeHead.value, FinishMerge(r).value.dag[|r.dag|];
      && commit.tree == r.index
      && (Reach(r.dag, other, Tip(r)) ==> commit.parents == [Tip(r)])
      && (!Reach(r.dag, other, Tip(r)) && Reach(r.dag, Tip(r), other) ==> commit.parents == [other])
      && (!Reach(r.dag, other, Tip(r)) && !Reach(r.dag, Tip(r), other) ==> commit.parents == [Tip(r), other])
  {
    hide Reach;
  }

  lemma CleanJoins(r: Repo, branch: string, outcome: TrueMerge)
    requires Valid(r) && HeadCommit(r).Some? && MergeBranch(r, branch, outcome).1
    ensures branch in r.tracking && r.mergeHead == None && r.unmerged == []
    ensures var after := MergeBranch(r, branch, outcome).0;
      && HeadCommit(after).Some? && OnlyHeadMoves(r, after) && after.unmerged == [] && after.mergeHead == None
      && Joins(r.dag, Tip(r), r.tracking[branch], after.dag, Tip(after))
  {
    hide Joins, Reach, CanSwitch, SwitchedIndex, SwitchedWork;
    var head, target := Tip(r), r.tracking[branch];
    if Reach(r.dag, target, head) {
      UpToDateJoins(r.dag, head, target);
    } else if Reach(r.dag, head, target) {
      FastForwardJoins(r.dag, head, target);
    } else {
      CommitJoins(r.dag, head, target, [head, target], outcome.tree);
    }
  }

  lemma StoppedKeeps(r: Repo, branch: string, outcome: TrueMerge)
    requires Valid(r) && HeadCommit(r).Some? && !MergeBranch(r, branch, outcome).1
    ensures var stopped := MergeBranch(r, branch, outcome).0;
      && stopped.(index := r.index, unmerged := r.unmerged, work := r.work, mergeHead := r.mergeHead) == r
      && (stopped.mergeHead == r.mergeHead
          || (r.mergeHead == None && branch in r.tracking && stopped.mergeHead == Some(r.tracking[branch])))
  {
    hide Reach, CanSwitch, SwitchedIndex, SwitchedWork;
  }

  /**
   A turn that succeeds gives the tip exactly the ancestors that it and the merged commit had; a turn that fails moves
   no ref.
   */
  lemma MergeOneJoins(r: Repo, branch: string, chance: Chance, note: NoteWriter)
    requires Valid(r) && HeadCommit(r).Some?
    ensures var (after, error) := MergeOne(r, branch, chance, note);
      if error == None then
        && HasBrought(r, branch) && OnlyHeadMoves(r, after) && after.unmerged == [] && after.mergeHead == None
        && Joins(r.dag, Tip(r), Brought(r, branch), after.dag, Tip(after))
      else
        after.(index := r.index, unmerged := r.unmerged, work := r.work, mergeHead := r.mergeHead) == r
  {
    hide Joins, Reach, MergeBranch, ResolveAll, FinishMerge;
    var (merged, clean) := MergeBranch(r, branch, chance.merge);
    MergedValid(r, branch, chance.merge);
    if clean {
      CleanJoins(r, branch, chance.merge);
    } else {
      StoppedKeeps(r, branch, chance.merge);
      ResolvedKeeps(merged, ModifyDeletes(merged.unmerged), chance.noteNames, note);
      var (resolved, notes) := ResolveModifyDelete(merged, chance.noteNames, note);
      if notes.Ok? && FinishMerge(resolved).Ok? { FinishJoins(resolved); }
    }
  }

  // A list of refs

  /** `x` is behind some of the listed refs. */
  ghost predicate BehindAny(r: Repo, branches: seq<string>, x: CommitId) {
    exists b :: b in branches && b in r.tracking && r.tracking[b] < |r.dag| && Reach(r.dag, x, r.tracking[b])
  }

  ghost predicate BehindFirst(r: Repo, branches: seq<string>, x: CommitId)
    requires Valid(r) && branches != [] && HasBrought(r, branches[0])
  {
    Reach(r.dag, x, Brought(r, branches[0])) || BehindAny(r, branches[1..], x)
  }

  lemma {:induction false} MergeRefsKeeps(r: Repo, branches: seq<string>, chances: seq<Chance>, note: NoteWriter)
    requires Valid(r) && HeadCommit(r).Some? && |chances| >= |branches|
    ensures var (after, merged) := MergeRefs(r, branches, chances, note);
      && OnlyHeadMoves(r, after)
      && Reach(after.dag, Tip(r), Tip(after))
      && (merged.Ok? ==> merged.value == branches)
      && (merged.Ok? && branches != [] ==> HasBrought(r, branches[0]))
      && (merged.Ok? && (branches != [] || (r.mergeHead == None && r.unmerged == [])) ==>
          after.mergeHead == None && after.unmerged == [])
    decreases |branches|
  {
    hide MergeOne, Joins, Reach, BehindAny, OnlyHeadMoves;
    ReachItself(r.dag, Tip(r));
    HeadStays(r, r);
    if branches != [] {
      MergeOneJoins(r, branches[0], chances[0], note);
      var (next, error) := MergeOne(r, branches[0], chances[0], note);
      if error == None {
        MergeRefsKeeps(next, branches[1..], chances[1..], note);
        var after := MergeRefs(next, branches[1..], chances[1..], note).0;
        HeadMovesOn(r, next, after);
        JoinsAt(r.dag, Tip(r), Brought(r, branches[0]), next.dag, Tip(next), Tip(r));
        ReachStable(next.dag, after.dag, Tip(r), Tip(next));
        ReachTransitive(after.dag, Tip(r), Tip(next), Tip(after));
      } else {
        HeadStays(r, next);
      }
    }
  }

  lemma HeadStays(r: Repo, after: Repo)
    requires Valid(r) && HeadCommit(r).Some?
    requires after.(index := r.index, unmerged := r.unmerged, work := r.work, mergeHead := r.mergeHead) == r
    ensures OnlyHeadMoves(r, after)
  {
    if r.head.OnBranch? { assert r.refs == r.refs[r.head.branch := r.refs[r.head.branch]]; }
  }

  lemma HeadMovesOn(r: Repo, next: Repo, after: Repo)
    requires OnlyHeadMoves(r, next) && OnlyHeadMoves(next, after)
    ensures OnlyHeadMoves(r, after)
    ensures r.dag <= next.dag && next.dag <= after.dag && next.tracking == r.tracking
  {
  }

  lemma ReachItself(dag: Dag, c: CommitId)
    requires c < |dag|
    ensures Reach(dag, c, c)
  {
  }

  lemma JoinsAt(dag: Dag, tip: CommitId, other: CommitId, dag': Dag, tip': CommitId, x: CommitId)
    requires tip < |dag| && other < |dag| && Joins(dag, tip, other, dag', tip') && x < |dag|
    ensures tip' < |dag'| && (Reach(dag', x, tip') <==> Reach(dag, x, tip) || Reach(dag, x, other))
  {
  }

  lemma BehindAnyStable(r: Repo, next: Repo, branches: seq<string>, x: CommitId)
    requires Valid(r) && r.dag <= next.dag && next.tracking == r.tracking
    ensures BehindAny(r, branches, x) <==> BehindAny(next, branches, x)
  {
    hide Reach;
    forall b | b in branches && b in r.tracking
      ensures Reach(r.dag, x, r.tracking[b]) <==> Reach(next.dag, x, r.tracking[b])
    {
      ReachStable(r.dag, next.dag, x, r.tracking[b]);
    }
  }

  /**
   When merging a list of refs succeeds, an old commit is behind the new tip exactly if it was behind the old tip or
   one of the refs, where an unfinished merge takes the place of the first ref.
   */
  lemma {:induction false} MergeRefsBring(r: Repo, branches: seq<string>, chances: seq<Chance>, note: NoteWriter,
                                          x: CommitId)
    requires Valid(r) && HeadCommit(r).Some? && |chances| >= |branches| && branches != []
    requires MergeRefs(r, branches, chances, note).1.Ok? && x < |r.dag|
    ensures HasBrought(r, branches[0])
    ensures var after := MergeRefs(r, branches, chances, note).0;
      Reach(after.dag, x, Tip(after)) <==> Reach(r.dag, x, Tip(r)) || BehindFirst(r, branches, x)
    decreases |branches|
  {
    hide MergeOne, Joins, Reach, BehindAny;
    MergeOneJoins(r, branches[0], chances[0], note);
    var next := MergeOne(r, branches[0], chances[0], note).0;
    JoinsAt(r.dag, Tip(r), Brought(r, branches[0]), next.dag, Tip(next), x);
    BehindAnyStable(r, next, branches[1..], x);
    if branches[1..] == [] {
      assert !BehindAny(r, branches[1..], x) by { NoneBehind(r, x); }
    } else {
      MergeRefsBring(next, branches[1..], chances[1..], note, x);
      assert !next.mergeHead.Some?;
      BehindSplits(next, branches[1..], x);
    }
  }

  lemma NoneBehind(r: Repo, x: CommitId)
    ensures !BehindAny(r, [], x)
  {
  }

  lemma BehindSplits(r: Repo, branches: seq<string>, x: CommitId)
    requires Valid(r) && branches != [] && branches[0] in r.tracking && r.mergeHead == None
    ensures BehindAny(r, branches, x) <==> BehindFirst(r, branches, x)
  {
    hide Reach;
    assert forall b :: b in branches <==> b == branches[0] || b in branches[1..];
  }

  /** With no merge left unfinished, success means descending from the old tip and every listed ref. */
  lemma {:induction false} MergedAllRefs(r: Repo, branches: seq<string>, chances: seq<Chance>, note: NoteWriter)
    requires Valid(r) && HeadCommit(r).Some? && |chances| >= |branches| && r.mergeHead == None
    requires MergeRefs(r, branches, chances, note).1.Ok?
    ensures var after := MergeRefs(r, branches, chances, note).0;
      && Reach(after.dag, Tip(r), Tip(after))
      && forall b :: b in branches ==> b in r.tracking && Reach(after.dag, r.tracking[b], Tip(after))
  {
    hide MergeRefs, Reach, BehindAny;
    MergeRefsKeeps(r, branches, chances, note);
    var after := MergeRefs(r, branches, chances, note).0;
    TrackedRefs(r, branches, chances, note);
    forall b | b in branches ensures Reach(after.dag, r.tracking[b], Tip(after)) {
      MergeRefsBring(r, branches, chances, note, r.tracking[b]);
      BehindSplits(r, branches, r.tracking[b]);
      ReachItself(r.dag, r.tracking[b]);
      assert BehindAny(r, branches, r.tracking[b]) by { BehindOne(r, branches, b); }
    }
  }

  lemma BehindOne(r: Repo, branches: seq<string>, b: string)
    requires Valid(r) && b in branches && b in r.tracking
    ensures BehindAny(r, branches, r.tracking[b])
  {
  }

  lemma {:induction false} TrackedRefs(r: Repo, branches: seq<string>, chances: seq<Chance>, note: NoteWriter)
    requires Valid(r) && HeadCommit(r).Some? && |chances| >= |branches|
    requires MergeRefs(r, branches, chances, note).1.Ok?
    ensures forall i :: (if r.mergeHead == None then 0 else 1) <= i < |branches| ==> branches[i] in r.tracking
    decreases |branches|
  {
    hide MergeOne, Joins;
    if branches != [] {
      MergeOneJoins(r, branches[0], chances[0], note);
      TrackedRefs(MergeOne(r, branches[0], chances[0], note).0, branches[1..], chances[1..], note);
      forall i | (if r.mergeHead == None then 0 else 1) <= i < |branches| ensures branches[i] in r.tracking {
        if i > 0 { assert branches[i] == branches[1..][i - 1]; }
      }
    }
  }

  /**
   With an unfinished merge of `pending`, success still means the first ref is passed over, and the new tip descends
   from every listed ref if and only if that one was behind the old tip, `pending` or another listed ref anyway.
   */
  lemma PendingMergeIff(r: Repo, branches: seq<string>, chances: seq<Chance>, note: NoteWriter)
    requires Valid(r) && HeadCommit(r).Some? && |chances| >= |branches| && branches != [] && r.mergeHead.Some?
    requires MergeRefs(r, branches, chances, note).1.Ok? && branches[0] in r.tracking
    ensures var after := MergeRefs(r, branches, chances, note).0;
      && Reach(after.dag, r.mergeHead.value, Tip(after))
      && ((forall b :: b in branches ==> b in r.tracking && Reach(after.dag, r.tracking[b], Tip(after)))
          <==> (var first := r.tracking[branches[0]];
                Reach(r.dag, first, Tip(r)) || Reach(r.dag, first, r.mergeHead.value)
                    || BehindAny(r, branches[1..], first)))
  {
    hide MergeRefs, Reach, BehindAny;
    MergeRefsKeeps(r, branches, chances, note);
    TrackedRefs(r, branches, chances, note);
    var after := MergeRefs(r, branches, chances, note).0;
    MergeRefsBring(r, branches, chances, note, r.tracking[branches[0]]);
    MergeRefsBring(r, branches, chances, note, r.mergeHead.value);
    ReachItself(r.dag, r.mergeHead.value);
    forall b | b in branches[1..] ensures b in r.tracking && Reach(after.dag, r.tracking[b], Tip(after)) {
      var i :| 0 <= i < |branches[1..]| && branches[1..][i] == b;
      assert branches[i + 1] == b;
      MergeRefsBring(r, branches, chances, note, r.tracking[b]);
      assert BehindAny(r, branches[1..], r.tracking[b]) by { BehindOne(r, branches[1..], b); }
    }
    assert forall b :: b in branches <==> b == branches[0] || b in branches[1..];
  }

  const FIRST := Commit([], map[])

  /** A clone on `sync/a` with an unfinished merge of commit 1, and two branches of others at 1 and 2. */
  const UNFINISHED := Repo([FIRST, FIRST, FIRST], map["sync/a" := 0], map["sync/b" := 1, "sync/c" := 2],
                           OnBranch("sync/a"), map[], [], map[], Some(1))

  /** Merging `sync/c` then "succeeds" without bringing in its commit. */
  lemma PendingMergePassesOver(note: NoteWriter)
    ensures Valid(UNFINISHED) && HeadCommit(UNFINISHED).Some?
    ensures var (after, merged) := MergeRefs(UNFINISHED, ["sync/c"], [Chance(Refused, [])], note);
      merged == Ok(["sync/c"]) && !Reach(after.dag, 2, Tip(after))
  {
    var r, branches, chances := UNFINISHED, ["sync/c"], [Chance(Refused, [])];
    var (resolved, notes) := ResolveModifyDelete(r, [], note);
    assert resolved == r && notes == Ok([]);
    var (next, error) := MergeOne(r, branches[0], chances[0], note);
    assert error == None;
    assert MergeRefs(next, [], [], note).1 == Ok([]);
    assert branches[1..] == [] && chances[1..] == [] && [branches[0]] + [] == branches;
    assert MergeRefs(next, branches[1..], chances[1..], note) == (next, Ok([]));
    assert MergeRefs(r, branches, chances, note).1 == Ok(branches);
    MergeRefsBring(r, branches, chances, note, 2);
    NoneBehind(r, 2);
    assert !Reach(r.dag, 2, 0) && !Reach(r.dag, 2, 1);
  }

  // Modify/delete conflicts

  /** The notes are written beside everything the merge touched, each under its own name. */
  predicate NotesApart(conflicts: seq<Conflict>, names: seq<string>) {
    && (forall i, j :: 0 <= i < j < |names| ==> names[i] != names[j])
    && (forall c :: c in conflicts ==> c.path !in names)
  }

  predicate FilesThere(conflicts: seq<Conflict>, work: Tree) {
    forall c :: c in conflicts ==> c.path in work
  }

  predicate OnPath(conflicts: seq<Conflict>, p: string) {
    exists c :: c in conflicts && c.path == p
  }

  lemma OnPathSplits(conflicts: seq<Conflict>, p: string)
    requires conflicts != []
    ensures OnPath(conflicts, p) <==> conflicts[0].path == p || OnPath(conflicts[1..], p)
  {
    assert forall c :: c in conflicts <==> c == conflicts[0] || c in conflicts[1..];
  }

  /** Staging one path: a file as it is, or its absence; a path that git does not know and that is no file fails. */
  lemma AddStages(r: Repo, path: string, p: string, c: Conflict)
    ensures Add(r, path).Ok? <==> path in r.work || path in r.index || exists x :: x in r.unmerged && x.path == path
    ensures Add(r, path).Ok? ==>
      var after := Add(r, path).value;
      && At(after.index, p) == (if p == path then At(r.work, p) else At(r.index, p))
      && (c in after.unmerged <==> c in r.unmerged && c.path != path)
      && after.(index := r.index, unmerged := r.unmerged) == r
    ensures Add(r, path).Err? ==> Add(r, path).error == NoSuchFile(path)
  {
  }

  /** The clone after one conflict has been resolved and noted. */
  function Noted(r: Repo, c: Conflict, name: string, note: NoteWriter): Repo
    requires c.kind.ModifyDelete? && c.path in r.work
  {
    WriteNote(Entered(r, c.path, r.work[c.path]), name, c, note)
  }

  lemma NotedAt(r: Repo, conflicts: seq<Conflict>, names: seq<string>, note: NoteWriter, p: string)
    requires conflicts != [] && names != [] && conflicts[0].kind.ModifyDelete?
    requires NotesApart(conflicts, names) && FilesThere(conflicts, r.work)
    ensures var next := Noted(r, conflicts[0], names[0], note);
      && NotesApart(conflicts[1..], names[1..]) && FilesThere(conflicts[1..], next.work)
      && (p != names[0] ==> At(next.work, p) == At(r.work, p))
      && At(next.index, p) == if p == names[0] then Some(note(conflicts[0].path, conflicts[0].kind.deletedBy))
                              else if p == conflicts[0].path then At(r.work, p) else At(r.index, p)
  {
    assert forall c :: c in conflicts[1..] ==> c in conflicts;
    assert forall n :: n in names[1..] ==> n in names;
  }

  lemma ResolveStep(r: Repo, conflicts: seq<Conflict>, names: seq<string>, note: NoteWriter)
    requires forall c :: c in conflicts ==> c.kind.ModifyDelete?
    requires conflicts != [] && names != [] && conflicts[0].path in r.work
    ensures var (after, rest) := ResolveAll(Noted(r, conflicts[0], names[0], note), conflicts[1..], names[1..], note);
      && ResolveAll(r, conflicts, names, note).0 == after
      && (rest.Ok? ==> ResolveAll(r, conflicts, names, note).1 == Ok([names[0]] + rest.value))
  {
    hide WriteNote;
  }

  lemma {:induction false} ResolvedAt(r: Repo, conflicts: seq<Conflict>, names: seq<string>, note: NoteWriter,
                                      p: string)
    requires forall c :: c in conflicts ==> c.kind.ModifyDelete?
    requires |names| >= |conflicts| && NotesApart(conflicts, names) && FilesThere(conflicts, r.work)
    ensures var (after, notes) := ResolveAll(r, conflicts, names, note);
      && notes == Ok(names[..|conflicts|])
      && (p !in names[..|conflicts|] ==>
            At(after.index, p) == if OnPath(conflicts, p) then At(r.work, p) else At(r.index, p))
    decreases |conflicts|
  {
    if conflicts == [] {
      NothingOnPath(p);
    } else {
      hide Noted, NotesApart, OnPath, ResolveAll;
      NotedAt(r, conflicts, names, note, p);
      assert conflicts[0] in conflicts && conflicts[0].path in r.work;
      var next := Noted(r, conflicts[0], names[0], note);
      ResolvedAt(next, conflicts[1..], names[1..], note, p);
      ResolveStep(r, conflicts, names, note);
      OnPathSplits(conflicts, p);
      assert names[..|conflicts|] == [names[0]] + names[1..][..|conflicts| - 1];
      if OnPath(conflicts[1..], p) { PathIsNoNote(conflicts, names, p); }
    }
  }

  /** Every note is staged under its name. */
  lemma {:induction false} NoteAt(r: Repo, conflicts: seq<Conflict>, names: seq<string>, note: NoteWriter, i: nat)
    requires forall c :: c in conflicts ==> c.kind.ModifyDelete?
    requires |names| >= |conflicts| && NotesApart(conflicts, names) && FilesThere(conflicts, r.work) && i < |conflicts|
    ensures At(ResolveAll(r, conflicts, names, note).0.index, names[i])
         == Some(note(conflicts[i].path, conflicts[i].kind.deletedBy))
    decreases |conflicts|
  {
    hide Noted, ResolveAll;
    NotedAt(r, conflicts, names, note, names[i]);
    assert conflicts[0] in conflicts;
    var next := Noted(r, conflicts[0], names[0], note);
    ResolveStep(r, conflicts, names, note);
    if i == 0 {
      ResolvedAt(next, conflicts[1..], names[1..], note, names[0]);
      if OnPath(conflicts[1..], names[0]) {
        OnPathSplits(conflicts, names[0]);
        PathIsNoNote(conflicts, names, names[0]);
      }
    } else {
      NoteAt(next, conflicts[1..], names[1..], note, i - 1);
    }
  }

  /** What is left unmerged: the conflicts on no path that was staged. */
  lemma {:induction false} StillUnmerged(r: Repo, conflicts: seq<Conflict>, names: seq<string>, note: NoteWriter,
                                         c: Conflict)
    requires forall c :: c in conflicts ==> c.kind.ModifyDelete?
    requires |names| >= |conflicts| && NotesApart(conflicts, names) && FilesThere(conflicts, r.work)
    ensures c in ResolveAll(r, conflicts, names, note).0.unmerged ==> c in r.unmerged && !OnPath(conflicts, c.path)
    ensures c in r.unmerged && !OnPath(conflicts, c.path) && c.path !in names ==>
      c in ResolveAll(r, conflicts, names, note).0.unmerged
    decreases |conflicts|
  {
    if conflicts == [] {
      NothingOnPath(c.path);
    } else {
      NotedAt(r, conflicts, names, note, "");
      assert conflicts[0] in conflicts;
      var next := Noted(r, conflicts[0], names[0], note);
      assert c in next.unmerged ==> c in r.unmerged && c.path != conflicts[0].path;
      assert c in r.unmerged && c.path != conflicts[0].path && c.path !in names ==> c in next.unmerged;
      hide Noted, ResolveAll, OnPath, NotesApart;
      assert forall n :: n in names[1..] ==> n in names;
      StillUnmerged(next, conflicts[1..], names[1..], note, c);
      ResolveStep(r, conflicts, names, note);
      OnPathSplits(conflicts, c.path);
    }
  }

  lemma PathIsNoNote(conflicts: seq<Conflict>, names: seq<string>, p: string)
    requires NotesApart(conflicts, names) && OnPath(conflicts, p)
    ensures p !in names
  {
  }

  lemma NothingOnPath(p: string)
    ensures !OnPath([], p)
  {
  }

  lemma {:induction false} AllModifyDelete(conflicts: seq<Conflict>)
    requires forall c :: c in conflicts ==> c.kind.ModifyDelete?
    ensures ModifyDeletes(conflicts) == conflicts
  {
    if conflicts != [] {
      assert conflicts[0] in conflicts && forall c :: c in conflicts[1..] ==> c in conflicts;
      AllModifyDelete(conflicts[1..]);
      assert conflicts == [conflicts[0]] + conflicts[1..];
    }
  }

  /** Neither side is behind the other, and nothing keeps git from starting. */
  predicate TrueMergeDue(r: Repo, branch: string)
    requires Valid(r) && HeadCommit(r).Some?
  {
    && r.unmerged == [] && r.mergeHead == None && branch in r.tracking && r.index == HeadTree(r)
    && !Reach(r.dag, r.tracking[branch], Tip(r)) && !Reach(r.dag, Tip(r), r.tracking[branch])
  }

  /** The contents that one side of the merge gave a path which the other side deleted. */
  function SurvivingFile(r: Repo, branch: string, c: Conflict): Option<string>
    requires Valid(r) && HeadCommit(r).Some? && branch in r.tracking && c.kind.ModifyDelete?
  {
    match c.kind.deletedBy
    case Theirs => At(HeadTree(r), c.path)
    case Ours => At(r.dag[r.tracking[branch]].tree, c.path)
  }

  /**
   How git leaves conflicts: each path once, and where one side deleted a file the other side's is in the work tree.
   */
  predicate LeftByGit(r: Repo, branch: string, conflicts: seq<Conflict>, work: Tree)
    requires Valid(r) && HeadCommit(r).Some? && branch in r.tracking
  {
    && (forall c, c' :: c in conflicts && c' in conflicts && c.path == c'.path ==> c == c')
    && (forall c :: c in conflicts && c.kind.ModifyDelete? ==>
          c.path in work && At(work, c.path) == SurvivingFile(r, branch, c))
  }

  lemma StopsThenResolves(r: Repo, branch: string, chance: Chance, note: NoteWriter)
    requires Valid(r) && HeadCommit(r).Some? && TrueMergeDue(r, branch) && chance.merge.Stopped?
    requires LeftByGit(r, branch, chance.merge.unmerged, chance.merge.work)
    requires NotesApart(chance.merge.unmerged, chance.noteNames)
    requires |chance.noteNames| >= |ModifyDeletes(chance.merge.unmerged)|
    ensures var Stopped(index, unmerged, work) := chance.merge;
      var stopped := r.(index := index, unmerged := unmerged, work := work, mergeHead := Some(r.tracking[branch]));
      var (resolved, notes) := ResolveAll(stopped, ModifyDeletes(unmerged), chance.noteNames, note);
      && NotesApart(ModifyDeletes(unmerged), chance.noteNames) && FilesThere(ModifyDeletes(unmerged), work)
      && notes.Ok?
      && (MergeOne(r, branch, chance, note).1 == None <==> resolved.unmerged == [])
      && (resolved.unmerged != [] ==> MergeOne(r, branch, chance, note).1 == Some(UnmergedPaths))
      && (resolved.unmerged == [] ==>
            && MergeOne(r, branch, chance, note).0.dag
               == r.dag + [Commit([Tip(r), r.tracking[branch]], resolved.index)]
            && HeadCommit(MergeOne(r, branch, chance, note).0) == Some(|r.dag|))
  {
    hide Reach, ResolveAll, CanSwitch, SurvivingFile;
    var Stopped(index, unmerged, work) := chance.merge;
    var stopped := r.(index := index, unmerged := unmerged, work := work, mergeHead := Some(r.tracking[branch]));
    assert MergeBranch(r, branch, chance.merge) == (stopped, false);
    ResolvedAt(stopped, ModifyDeletes(unmerged), chance.noteNames, note, "");
    ResolvedKeeps(stopped, ModifyDeletes(unmerged), chance.noteNames, note);
  }

  /**
   When a merge stops, it is completed if and only if one side's deletion is the only kind of conflict; otherwise the
   sync gives up.  The merge commit holds the modified file of every such conflict, a note about each, and what git
   had merged everywhere else.
   */
  lemma ModificationsSurvive(r: Repo, branch: string, chance: Chance, note: NoteWriter)
    requires Valid(r) && HeadCommit(r).Some? && TrueMergeDue(r, branch) && chance.merge.Stopped?
    requires LeftByGit(r, branch, chance.merge.unmerged, chance.merge.work)
    requires NotesApart(chance.merge.unmerged, chance.noteNames)
    requires |chance.noteNames| >= |ModifyDeletes(chance.merge.unmerged)|
    ensures var (after, error) := MergeOne(r, branch, chance, note);
      var Stopped(index, unmerged, _) := chance.merge;
      && (error == None <==> forall c :: c in unmerged ==> c.kind.ModifyDelete?)
      && (error != None ==> error == Some(UnmergedPaths))
      && (error == None ==>
            && |after.dag| == |r.dag| + 1 && HeadCommit(after) == Some(|r.dag|)
            && after.dag[|r.dag|].parents == [Tip(r), r.tracking[branch]]
            && |chance.noteNames| >= |unmerged|
            && var tree := after.dag[|r.dag|].tree;
               && (forall c :: c in unmerged ==> At(tree, c.path) == SurvivingFile(r, branch, c))
               && (forall i :: 0 <= i < |unmerged| ==>
                     At(tree, chance.noteNames[i]) == Some(note(unmerged[i].path, unmerged[i].kind.deletedBy)))
               && (forall p :: p !in chance.noteNames[..|unmerged|] && !OnPath(unmerged, p) ==>
                   At(tree, p) == At(index, p)))
  {
    hide MergeOne, ResolveAll, Reach, OnPath;
    StopsThenResolves(r, branch, chance, note);
    var Stopped(index, unmerged, work) := chance.merge;
    var stopped := r.(index := index, unmerged := unmerged, work := work, mergeHead := Some(r.tracking[branch]));
    var deletions, names := ModifyDeletes(unmerged), chance.noteNames;
    var resolved := ResolveAll(stopped, deletions, names, note).0;
    if forall c :: c in unmerged ==> c.kind.ModifyDelete? {
      AllModifyDelete(unmerged);
      if resolved.unmerged != [] {
        var c := resolved.unmerged[0];
        StillUnmerged(stopped, deletions, names, note, c);
        ConflictOnPath(unmerged, c);
        assert false;
      }
      TreeHoldsAll(r, branch, chance, note);
    } else {
      var c :| c in unmerged && !c.kind.ModifyDelete?;
      if OnPath(deletions, c.path) { OnlyConflictOnPath(r, branch, unmerged, work, c); }
      StillUnmerged(stopped, deletions, names, note, c);
    }
  }

  lemma ConflictOnPath(conflicts: seq<Conflict>, c: Conflict)
    requires c in conflicts
    ensures OnPath(conflicts, c.path)
  {
  }

  lemma OnlyConflictOnPath(r: Repo, branch: string, conflicts: seq<Conflict>, work: Tree, c: Conflict)
    requires Valid(r) && HeadCommit(r).Some? && branch in r.tracking
    requires LeftByGit(r, branch, conflicts, work) && c in conflicts && OnPath(ModifyDeletes(conflicts), c.path)
    ensures c.kind.ModifyDelete?
  {
  }

  lemma TreeHoldsAll(r: Repo, branch: string, chance: Chance, note: NoteWriter)
    requires Valid(r) && HeadCommit(r).Some? && branch in r.tracking && chance.merge.Stopped?
    requires LeftByGit(r, branch, chance.merge.unmerged, chance.merge.work)
    requires NotesApart(chance.merge.unmerged, chance.noteNames) && |chance.noteNames| >= |chance.merge.unmerged|
    requires forall c :: c in chance.merge.unmerged ==> c.kind.ModifyDelete?
    ensures var Stopped(index, unmerged, work) := chance.merge;
      var stopped := r.(index := index, unmerged := unmerged, work := work, mergeHead := Some(r.tracking[branch]));
      var tree := ResolveAll(stopped, unmerged, chance.noteNames, note).0.index;
      && (forall c :: c in unmerged ==> At(tree, c.path) == SurvivingFile(r, branch, c))
      && (forall i :: 0 <= i < |unmerged| ==>
            At(tree, chance.noteNames[i]) == Some(note(unmerged[i].path, unmerged[i].kind.deletedBy)))
      && (forall p :: p !in chance.noteNames[..|unmerged|] && !OnPath(unmerged, p) ==> At(tree, p) == At(index, p))
  {
    hide ResolveAll, SurvivingFile, OnPath;
    var Stopped(index, unmerged, work) := chance.merge;
    var stopped := r.(index := index, unmerged := unmerged, work := work, mergeHead := Some(r.tracking[branch]));
    var tree := ResolveAll(stopped, unmerged, chance.noteNames, note).0.index;
    assert FilesThere(unmerged, work);
    forall c | c in unmerged ensures At(tree, c.path) == SurvivingFile(r, branch, c) {
      ResolvedAt(stopped, unmerged, chance.noteNames, note, c.path);
      ConflictOnPath(unmerged, c);
    }
    forall i | 0 <= i < |unmerged|
      ensures At(tree, chance.noteNames[i]) == Some(note(unmerged[i].path, unmerged[i].kind.deletedBy))
    {
      NoteAt(stopped, unmerged, chance.noteNames, note, i);
    }
    forall p | p !in chance.noteNames[..|unmerged|] && !OnPath(unmerged, p) ensures At(tree, p) == At(index, p) {
      ResolvedAt(stopped, unmerged, chance.noteNames, note, p);
    }
  }

  // Merges that git completes itself

  /**
   A merge that git completes leaves edited files alone, and an index with nothing staged without anything staged.  A
   commit it makes has both sides as parents and the merged tree.
   */
  lemma CleanMergeKeepsEdits(r: Repo, branch: string, outcome: TrueMerge, p: string)
    requires Valid(r) && HeadCommit(r).Some? && MergeBranch(r, branch, outcome).1
    ensures var after := MergeBranch(r, branch, outcome).0;
      && Valid(after)
      && (D.Edited(r, p) ==> D.Edited(after, p) && At(after.work, p) == At(r.work, p))
      && (r.index == HeadTree(r) ==> after.index == HeadTree(after))
      && (|after.dag| > |r.dag| ==>
            && outcome.Clean? && branch in r.tracking
            && after.dag == r.dag + [Commit([Tip(r), r.tracking[branch]], outcome.tree)] && after.index == outcome.tree)
  {
    hide Reach, CanSwitch, SwitchedIndex, SwitchedWork;
    MergedValid(r, branch, outcome);
    var head, target := Tip(r), r.tracking[branch];
    if Reach(r.dag, target, head) {
    } else if Reach(r.dag, head, target) {
      FastForwardKeepsEdits(r, target, p);
    } else {
      SwitchOfClean(HeadTree(r), outcome.tree);
      if D.Edited(r, p) { D.EditsSurviveSwitch(HeadTree(r), outcome.tree, r.index, r.work, p); }
    }
  }

  lemma SwitchOfClean(from: Tree, to: Tree)
    ensures SwitchedIndex(from, to, from) == to
  {
    forall p ensures At(SwitchedIndex(from, to, from), p) == At(to, p) { SwitchedAt(from, to, from, from, p); }
    SameTree(SwitchedIndex(from, to, from), to);
  }

  lemma FastForwardKeepsEdits(r: Repo, target: CommitId, p: string)
    requires Valid(r) && target < |r.dag| && FastForward(r, target).1
    ensures var after := FastForward(r, target).0;
      && Valid(after) && after.dag == r.dag
      && (D.Edited(r, p) ==> D.Edited(after, p) && At(after.work, p) == At(r.work, p))
      && (r.index == HeadTree(r) ==> after.index == HeadTree(after))
  {
    hide CanSwitch, SwitchedIndex, SwitchedWork;
    SwitchOfClean(HeadTree(r), r.dag[target].tree);
    if D.Edited(r, p) { D.EditsSurviveSwitch(HeadTree(r), r.dag[target].tree, r.index, r.work, p); }
  }
}

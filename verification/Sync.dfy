/**
 A sync on one device: fetch, move onto the device's branch, merge what was fetched, push
 (crates/wkp-cli/src/sync_cmd.rs and resolve_conflicts.rs, crates/wkp-git/src/remote.rs and conflicts.rs).

 What git makes of a true merge, the names that notes are written under, and whether the network and the disk
 cooperate are parameters.
 */
module Sync {
  import opened Wrappers
  import opened CommitGraph
  import opened Git
  import opened DeviceBranch
  import Protocol

  type DeviceId = Protocol.DeviceId

  /** The text left in the inbox about a file that one side deleted. */
  type NoteWriter = (string, Side) -> string

  /** Git merges into a new tree, stops with something left to do, or declines to start. */
  datatype TrueMerge = Clean(tree: Tree) | Stopped(index: Tree, unmerged: seq<Conflict>, work: Tree) | Refused

  /** What decides how one ref is merged; the disk is full when the note names run out. */
  datatype Chance = Chance(merge: TrueMerge, noteNames: seq<string>)

  /** `merge_branch`: false when git stops or declines. */
  function MergeBranch(r: Repo, branch: string, outcome: TrueMerge): (Repo, bool)
    requires Valid(r) && HeadCommit(r).Some?
  {
    if branch !in r.tracking || r.unmerged != [] || r.mergeHead.Some? then (r, false)
    else
      var head, target := HeadCommit(r).value, r.tracking[branch];
      if Reach(r.dag, target, head) then (r, true)
      else if Reach(r.dag, head, target) then FastForward(r, target)
      else if r.index != HeadTree(r) then (r, false)
      else TrulyMerged(r, head, target, outcome)
  }

  function FastForward(r: Repo, target: CommitId): (Repo, bool)
    requires Valid(r) && target < |r.dag|
  {
    var from, to := HeadTree(r), r.dag[target].tree;
    if CanSwitch(from, to, r.index, r.work) then
      (MoveHead(r.(index := SwitchedIndex(from, to, r.index), work := SwitchedWork(from, to, r.index, r.work)), target),
       true)
    else (r, false)
  }

  function TrulyMerged(r: Repo, head: CommitId, target: CommitId, outcome: TrueMerge): (Repo, bool)
    requires Valid(r)
  {
    match outcome
    case Refused => (r, false)
    case Clean(tree) =>
      if CanSwitch(HeadTree(r), tree, r.index, r.work) then
        (NewCommit(r.(index := tree, work := SwitchedWork(HeadTree(r), tree, r.index, r.work)), [head, target]), true)
      else (r, false)
    case Stopped(index, unmerged, work) =>
      (r.(index := index, unmerged := unmerged, work := work, mergeHead := Some(target)), false)
  }

  /** `modify_delete_conflicts`. */
  function ModifyDeletes(conflicts: seq<Conflict>): (kept: seq<Conflict>)
    ensures forall c :: c in kept <==> c in conflicts && c.kind.ModifyDelete?
  {
    if conflicts == [] then []
    else (if conflicts[0].kind.ModifyDelete? then [conflicts[0]] else []) + ModifyDeletes(conflicts[1..])
  }

  function WriteNote(r: Repo, name: string, c: Conflict, note: NoteWriter): Repo
    requires c.kind.ModifyDelete?
  {
    var text := note(c.path, c.kind.deletedBy);
    Entered(r.(work := r.work[name := text]), name, text)
  }

  /** Stages each modification and a note about its deletion. */
  function ResolveAll(r: Repo, conflicts: seq<Conflict>, names: seq<string>, note: NoteWriter)
    : (Repo, Result<seq<string>, Error>)
    requires forall c :: c in conflicts ==> c.kind.ModifyDelete?
    decreases |conflicts|
  {
    hide WriteNote;
    if conflicts == [] then (r, Ok([]))
    else
      match Add(r, conflicts[0].path)
      case Err(e) => (r, Err(e))
      case Ok(staged) =>
        if names == [] then (staged, Err(WriteFailed))
        else
          var (after, rest) := ResolveAll(WriteNote(staged, names[0], conflicts[0], note), conflicts[1..], names[1..],
                                          note);
          (after, match rest case Ok(notes) => Ok([names[0]] + notes) case Err(e) => Err(e))
  }

  function ResolveModifyDelete(r: Repo, names: seq<string>, note: NoteWriter): (Repo, Result<seq<string>, Error>) {
    ResolveAll(r, ModifyDeletes(r.unmerged), names, note)
  }

  /** `git commit` drops a parent that another one reaches. */
  function MergeParents(dag: Dag, head: CommitId, other: CommitId): seq<CommitId>
    requires head < |dag| && other < |dag|
  {
    if Reach(dag, other, head) then [head] else if Reach(dag, head, other) then [other] else [head, other]
  }

  /** `finish_merge`: without a merge to finish there is no message, and git makes no commit. */
  function FinishMerge(r: Repo): Result<Repo, Error>
    requires Valid(r) && HeadCommit(r).Some?
  {
    if r.unmerged != [] then Err(UnmergedPaths)
    else
      match r.mergeHead
      case None => Err(NoMergeToFinish)
      case Some(other) => Ok(NewCommit(r.(mergeHead := None), MergeParents(r.dag, HeadCommit(r).value, other)))
  }

  lemma {:induction false} ResolvedKeeps(r: Repo, conflicts: seq<Conflict>, names: seq<string>, note: NoteWriter)
    requires forall c :: c in conflicts ==> c.kind.ModifyDelete?
    ensures var after := ResolveAll(r, conflicts, names, note).0;
      after.(index := r.index, unmerged := r.unmerged, work := r.work) == r
    decreases |conflicts|
  {
    if conflicts != [] && names != [] && Add(r, conflicts[0].path).Ok? {
      var staged := Add(r, conflicts[0].path).value;
      ResolvedKeeps(WriteNote(staged, names[0], conflicts[0], note), conflicts[1..], names[1..], note);
    }
  }

  lemma MergedValid(r: Repo, branch: string, outcome: TrueMerge)
    requires Valid(r) && HeadCommit(r).Some?
    ensures Valid(MergeBranch(r, branch, outcome).0) && HeadCommit(MergeBranch(r, branch, outcome).0).Some?
    ensures r.head.OnBranch? ==> MergeBranch(r, branch, outcome).0.head == r.head
  {
    hide CanSwitch, SwitchedIndex, SwitchedWork, Reach, HeadTree;
  }

  /** One turn of the loop in `merge_refs_into_current_branch`. */
  function MergeOne(r: Repo, branch: string, chance: Chance, note: NoteWriter): (result: (Repo, Option<Error>))
    requires Valid(r) && HeadCommit(r).Some?
    ensures Valid(result.0) && HeadCommit(result.0).Some?
    ensures r.head.OnBranch? ==> result.0.head == r.head
  {
    hide CanSwitch, SwitchedIndex, SwitchedWork, Reach, ResolveAll, MergeBranch;
    MergedValid(r, branch, chance.merge);
    var (merged, clean) := MergeBranch(r, branch, chance.merge);
    if clean then (merged, None)
    else
      var (resolved, notes) := ResolveModifyDelete(merged, chance.noteNames, note);
      ResolvedKeeps(merged, ModifyDeletes(merged.unmerged), chance.noteNames, note);
      if notes.Err? then (resolved, Some(notes.error))
      else
        match FinishMerge(resolved)
        case Err(e) => (resolved, Some(e))
        case Ok(finished) => (finished, None)
  }

  function MergeRefs(r: Repo, branches: seq<string>, chances: seq<Chance>, note: NoteWriter)
    : (result: (Repo, Result<seq<string>, Error>))
    requires Valid(r) && HeadCommit(r).Some? && |chances| >= |branches|
    ensures Valid(result.0) && HeadCommit(result.0).Some?
    ensures r.head.OnBranch? ==> result.0.head == r.head
    decreases |branches|
  {
    if branches == [] then (r, Ok([]))
    else
      var (next, error) := MergeOne(r, branches[0], chances[0], note);
      if error.Some? then (next, Err(error.value))
      else
        var (after, rest) := MergeRefs(next, branches[1..], chances[1..], note);
        (after, match rest case Ok(merged) => Ok([branches[0]] + merged) case Err(e) => Err(e))
  }

  // The whole command

  type Remote = map<string, CommitId>

  /** Which of the steps that leave the clone succeed. */
  datatype Luck = Luck(fetches: bool, reports: bool, pushes: bool)

  datatype Synced = Synced(repo: Repo, remote: Remote, result: Result<seq<string>, Error>)

  function Fetched(r: Repo, remote: Remote): Repo { r.(tracking := r.tracking + remote) }

  /** `other_device_sync_refs`: the listed branches without the device's own. */
  function OtherBranches(listing: seq<string>, own: string): (others: seq<string>)
    ensures |others| <= |listing|
    ensures forall b :: b in others <==> b in listing && b != own
  {
    if listing == [] then []
    else (if listing[0] == own then [] else [listing[0]]) + OtherBranches(listing[1..], own)
  }

  function RefsToMerge(r: Repo, listing: seq<string>, own: string): (branches: seq<string>)
    ensures |branches| <= |listing| + 1
  {
    (if "main" in r.tracking then ["main"] else []) + OtherBranches(listing, own)
  }

  /** What `git for-each-ref` prints for the fetched sync branches. */
  ghost predicate Lists(listing: seq<string>, tracking: map<string, CommitId>) {
    forall b :: b in listing <==> b in tracking && Protocol.IsSyncBranch(b)
  }

  predicate PushAccepted(r: Repo, remote: Remote, branch: string)
    requires Valid(r) && branch in r.refs
  {
    branch in remote ==> Reach(r.dag, remote[branch], r.refs[branch])
  }

  function Push(r: Repo, remote: Remote, branch: string, luck: Luck, merged: seq<string>): Synced
    requires Valid(r) && branch in r.refs
  {
    if luck.pushes && PushAccepted(r, remote, branch) then
      Synced(r.(tracking := r.tracking[branch := r.refs[branch]]), remote[branch := r.refs[branch]], Ok(merged))
    else Synced(r, remote, Err(PushRejected))
  }

  /** Onto the device's branch as every command gets there before it merges. */
  lemma EnteredOwn(r: Repo, d: DeviceId)
    requires Valid(r) && EnterDeviceBranch(r, d).1 == None
    ensures HeadCommit(EnterDeviceBranch(r, d).0).Some?
    ensures EnterDeviceBranch(r, d).0.head == OnBranch(Protocol.OwnBranch(d))
  {
    hide CanSwitch, SwitchedIndex, SwitchedWork;
  }

  function MergeAndPush(r: Repo, remote: Remote, d: DeviceId, listing: seq<string>, chances: seq<Chance>, luck: Luck,
                        note: NoteWriter): Synced
    requires Valid(r) && HeadCommit(r).Some? && r.head == OnBranch(Protocol.OwnBranch(d)) && |chances| > |listing|
  {
    var own := Protocol.OwnBranch(d);
    var (merged, branches) := MergeRefs(r, RefsToMerge(r, listing, own), chances, note);
    if branches.Err? then Synced(merged, remote, Err(branches.error))
    else if !luck.reports then Synced(merged, remote, Err(ReportFailed))
    else Push(merged, remote, own, luck, branches.value)
  }

  function RunSync(r: Repo, remote: Remote, d: DeviceId, listing: seq<string>, chances: seq<Chance>, luck: Luck,
                   note: NoteWriter): Synced
    requires Valid(r) && Protocol.Commits(r.dag, remote) && |chances| > |listing|
  {
    if !luck.fetches then Synced(r, remote, Err(FetchFailed))
    else
      var (entered, error) := EnterDeviceBranch(Fetched(r, remote), d);
      if error.Some? then Synced(entered, remote, Err(error.value))
      else
        EnteredOwn(Fetched(r, remote), d);
        MergeAndPush(entered, remote, d, listing, chances, luck, note)
  }
}

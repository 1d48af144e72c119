/**
 Committing on the device's own branch from wherever HEAD is (crates/wkp-git/src/signed_commit.rs and sync.rs).
 Whether the commit can be signed is a parameter.
 */
module DeviceBranch {
  import opened Wrappers
  import opened CommitGraph
  import opened Git
  import opened Protocol

  /** Enters each path's file in the index; stops at the first path without a file, keeping what it has staged. */
  function StageAll(r: Repo, paths: seq<string>): (Repo, Option<Error>)
    decreases |paths|
  {
    if paths == [] then (r, None)
    else if paths[0] !in r.work then (r, Some(NoSuchFile(paths[0])))
    else StageAll(Entered(r, paths[0], r.work[paths[0]]), paths[1..])
  }

  function CommitIndex(r: Repo, signs: bool): (Repo, Result<CommitId, Error>) {
    if r.unmerged != [] then (r, Err(UnmergedPaths))
    else if !signs then (r, Err(SigningFailed))
    else
      var parents := match HeadCommit(r) case Some(c) => [c] case None => [];
      (NewCommit(r, parents), Ok(|r.dag|))
  }

  function SignedCommit(r: Repo, paths: seq<string>, signs: bool): (Repo, Result<CommitId, Error>) {
    if paths == [] then (r, Err(NoPaths))
    else
      var (staged, error) := StageAll(r, paths);
      if error.Some? then (staged, Err(error.value)) else CommitIndex(staged, signs)
  }

  /** `update-index --remove`: a path whose file still exists is brought up to date instead. */
  function RemoveAll(r: Repo, paths: seq<string>): (Repo, Option<Error>)
    decreases |paths|
  {
    if paths == [] then (r, None)
    else
      var p := paths[0];
      if p !in r.work then RemoveAll(r.(index := r.index - {p}, unmerged := Without(r.unmerged, p)), paths[1..])
      else if p in r.index || IsUnmerged(r.unmerged, p) then RemoveAll(Entered(r, p, r.work[p]), paths[1..])
      else (r, Some(NoSuchFile(p)))
  }

  function SignedRemovalCommit(r: Repo, paths: seq<string>, signs: bool): (Repo, Result<CommitId, Error>) {
    if paths == [] then (r, Err(NoPaths))
    else
      var (staged, error) := RemoveAll(r, paths);
      if error.Some? then (staged, Err(error.value)) else CommitIndex(staged, signs)
  }

  function EnsureDeviceBranch(r: Repo, d: DeviceId): Result<Repo, Error> {
    if OwnBranch(d) in r.refs then Ok(r) else Branch(r, OwnBranch(d))
  }

  lemma EnsuredValid(r: Repo, d: DeviceId)
    requires Valid(r)
    ensures EnsureDeviceBranch(r, d).Ok? ==> Valid(EnsureDeviceBranch(r, d).value)
  {
  }

  lemma CheckedOutValid(r: Repo, target: Head)
    requires Valid(r)
    ensures Checkout(r, target).Ok? ==> Valid(Checkout(r, target).value)
  {
  }

  lemma {:induction false} StagedKeeps(r: Repo, paths: seq<string>)
    ensures StageAll(r, paths).0.(index := r.index, unmerged := r.unmerged) == r
    decreases |paths|
  {
    if paths != [] && paths[0] in r.work {
      StagedKeeps(Entered(r, paths[0], r.work[paths[0]]), paths[1..]);
    }
  }

  lemma SignedValid(r: Repo, paths: seq<string>, signs: bool)
    requires Valid(r)
    ensures Valid(SignedCommit(r, paths, signs).0)
  {
    hide StageAll;
    StagedKeeps(r, paths);
  }

  /** Creates the branch if need be and moves onto it. */
  function EnterDeviceBranch(r: Repo, d: DeviceId): (result: (Repo, Option<Error>))
    requires Valid(r)
    ensures Valid(result.0)
  {
    match EnsureDeviceBranch(r, d)
    case Err(e) => (r, Some(e))
    case Ok(ensured) =>
      EnsuredValid(r, d);
      CheckedOutValid(ensured, OnBranch(OwnBranch(d)));
      match Checkout(ensured, OnBranch(OwnBranch(d)))
      case Err(e) => (ensured, Some(e))
      case Ok(entered) => (entered, None)
  }

  function Restore(r: Repo, committed: Result<CommitId, Error>, previous: Head): (Repo, Result<CommitId, Error>)
    requires Valid(r)
  {
    match Checkout(r, previous)
    case Ok(restored) => (restored, committed)
    case Err(_) => (r, if committed.Ok? then Err(NotRestored) else committed)
  }

  function CommitToDeviceBranch(r: Repo, d: DeviceId, paths: seq<string>, signs: bool)
    : (Repo, Result<CommitId, Error>)
    requires Valid(r)
  {
    if HeadCommit(r) == None then SignedCommit(r.(head := OnBranch(OwnBranch(d))), paths, signs)
    else
      var (entered, error) := EnterDeviceBranch(r, d);
      if error.Some? then (entered, Err(error.value))
      else
        var (committed, result) := SignedCommit(entered, paths, signs);
        SignedValid(entered, paths, signs);
        Restore(committed, result, r.head)
  }

  // What staging and committing do

  lemma {:induction false} StagedAt(r: Repo, paths: seq<string>, p: string)
    requires StageAll(r, paths).1 == None
    ensures At(StageAll(r, paths).0.index, p) == if p in paths then At(r.work, p) else At(r.index, p)
    decreases |paths|
  {
    if paths != [] {
      var next := Entered(r, paths[0], r.work[paths[0]]);
      StagedAt(next, paths[1..], p);
      assert p in paths <==> p == paths[0] || p in paths[1..];
    }
  }

  lemma {:induction false} StagedIff(r: Repo, paths: seq<string>)
    ensures StageAll(r, paths).1 == None <==> forall p :: p in paths ==> p in r.work
    ensures r.unmerged == [] ==> StageAll(r, paths).0.unmerged == []
    decreases |paths|
  {
    if paths != [] {
      assert forall p :: p in paths <==> p == paths[0] || p in paths[1..];
      if paths[0] in r.work {
        StagedIff(Entered(r, paths[0], r.work[paths[0]]), paths[1..]);
      }
    }
  }

  /** Staging resolves exactly the conflicts on the given paths. */
  lemma {:induction false} StagedConflicts(r: Repo, paths: seq<string>, c: Conflict)
    requires StageAll(r, paths).1 == None
    ensures c in StageAll(r, paths).0.unmerged <==> c in r.unmerged && c.path !in paths
    decreases |paths|
  {
    if paths != [] {
      StagedConflicts(Entered(r, paths[0], r.work[paths[0]]), paths[1..], c);
      assert c.path in paths <==> c.path == paths[0] || c.path in paths[1..];
    }
  }

  predicate ConflictsOnlyOn(r: Repo, paths: seq<string>) {
    forall c :: c in r.unmerged ==> c.path in paths
  }

  lemma StagedClean(r: Repo, paths: seq<string>)
    requires StageAll(r, paths).1 == None
    ensures StageAll(r, paths).0.unmerged == [] <==> ConflictsOnlyOn(r, paths)
  {
    hide StageAll;
    var staged := StageAll(r, paths).0;
    forall c ensures c in staged.unmerged <==> c in r.unmerged && c.path !in paths {
      StagedConflicts(r, paths, c);
    }
    if staged.unmerged != [] { assert staged.unmerged[0] in staged.unmerged; }
  }

  /** A commit is made exactly if there is a key, paths are given, each with a file, and no other is in conflict. */
  lemma SignedIff(r: Repo, paths: seq<string>, signs: bool)
    ensures SignedCommit(r, paths, signs).1.Ok?
       <==> paths != [] && signs && (forall p :: p in paths ==> p in r.work) && ConflictsOnlyOn(r, paths)
  {
    hide StageAll, ConflictsOnlyOn;
    StagedIff(r, paths);
    if StageAll(r, paths).1 == None { StagedClean(r, paths); }
  }

  /** Of a path given twice only the file counts, so staging the paths in any order gives the same index. */
  lemma StagingOrder(r: Repo, paths: seq<string>, others: seq<string>)
    requires forall p :: p in paths <==> p in others
    requires StageAll(r, paths).1 == None
    ensures StageAll(r, others).1 == None && StageAll(r, paths).0.index == StageAll(r, others).0.index
  {
    StagedIff(r, paths);
    StagedIff(r, others);
    forall p ensures At(StageAll(r, paths).0.index, p) == At(StageAll(r, others).0.index, p) {
      StagedAt(r, paths, p);
      StagedAt(r, others, p);
    }
    SameTree(StageAll(r, paths).0.index, StageAll(r, others).0.index);
  }

  lemma {:induction false} RemovedAt(r: Repo, paths: seq<string>, p: string)
    requires RemoveAll(r, paths).1 == None
    ensures At(RemoveAll(r, paths).0.index, p) == if p in paths then At(r.work, p) else At(r.index, p)
    ensures RemoveAll(r, paths).0.(index := r.index, unmerged := r.unmerged) == r
    decreases |paths|
  {
    if paths != [] {
      var q := paths[0];
      var next := if q in r.work then Entered(r, q, r.work[q])
                  else r.(index := r.index - {q}, unmerged := Without(r.unmerged, q));
      RemovedAt(next, paths[1..], p);
      assert p in paths <==> p == q || p in paths[1..];
    }
  }

  /** Removal gets through exactly if git knows every path that still has a file; it leaves the other conflicts. */
  lemma {:induction false} RemovedIff(r: Repo, paths: seq<string>)
    ensures RemoveAll(r, paths).1 == None
       <==> forall p :: p in paths && p in r.work ==> p in r.index || exists c :: c in r.unmerged && c.path == p
    ensures RemoveAll(r, paths).1 == None ==>
      forall c :: c in RemoveAll(r, paths).0.unmerged <==> c in r.unmerged && c.path !in paths
    decreases |paths|
  {
    if paths != [] {
      var q := paths[0];
      assert forall p :: p in paths <==> p == q || p in paths[1..];
      if q !in r.work {
        RemovedIff(r.(index := r.index - {q}, unmerged := Without(r.unmerged, q)), paths[1..]);
      } else if q in r.index || IsUnmerged(r.unmerged, q) {
        RemovedIff(Entered(r, q, r.work[q]), paths[1..]);
      }
    }
  }

  /** Exactly when a removal commit is made. */
  lemma SignedRemovalIff(r: Repo, paths: seq<string>, signs: bool)
    ensures SignedRemovalCommit(r, paths, signs).1.Ok?
       <==> && paths != [] && signs && ConflictsOnlyOn(r, paths)
            && forall p :: p in paths && p in r.work ==> p in r.index || exists c :: c in r.unmerged && c.path == p
  {
    hide RemoveAll;
    RemovedIff(r, paths);
    var (removed, error) := RemoveAll(r, paths);
    if error == None && removed.unmerged != [] { assert removed.unmerged[0] in removed.unmerged; }
  }

  /**
   A removal commit removes a path just when its file is gone from the work tree; of a file that still exists it
   commits the contents.  Every other path keeps its staged contents.
   */
  lemma RemovalRemovesIff(r: Repo, paths: seq<string>, signs: bool)
    requires SignedRemovalCommit(r, paths, signs).1.Ok?
    ensures var (after, result) := SignedRemovalCommit(r, paths, signs);
      && result.value == |r.dag| && |after.dag| == |r.dag| + 1
      && (forall p :: p in paths ==> At(after.dag[result.value].tree, p) == At(r.work, p))
      && (forall p :: p !in paths ==> At(after.dag[result.value].tree, p) == At(r.index, p))
  {
    hide RemoveAll;
    var (staged, error) := RemoveAll(r, paths);
    RemovedAt(r, paths, "");
    var (after, result) := SignedRemovalCommit(r, paths, signs);
    assert after.dag[result.value].tree == staged.index;
    forall p ensures At(after.dag[result.value].tree, p) == if p in paths then At(r.work, p) else At(r.index, p) {
      RemovedAt(r, paths, p);
    }
  }
}

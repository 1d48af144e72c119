/**
 What a commit on the device's branch does to the clone: which ref moves, what it contains, where HEAD ends up, and
 exactly when it succeeds.
 */
module DeviceBranchTheorems {
  import opened Wrappers
  import opened CommitGraph
  import opened Git
  import opened Protocol
  import opened DeviceBranch

  /** Where the device's branch is, or will be created. */
  function BranchTip(r: Repo, d: DeviceId): CommitId
    requires HeadCommit(r).Some?
  {
    if OwnBranch(d) in r.refs then r.refs[OwnBranch(d)] else HeadCommit(r).value
  }

  function BranchTree(r: Repo, d: DeviceId): Tree
    requires Valid(r) && HeadCommit(r).Some?
  {
    r.dag[BranchTip(r, d)].tree
  }

  lemma CanSwitchAt(from: Tree, to: Tree, index: Tree, work: Tree)
    ensures CanSwitch(from, to, index, work)
       <==> forall p :: PathSwitches(At(from, p), At(to, p), At(index, p), At(work, p))
  {
  }

  /** The clone on the device's branch, before anything is staged. */
  function OnDeviceBranch(r: Repo, d: DeviceId): Repo
    requires Valid(r) && HeadCommit(r).Some?
  {
    r.(refs := r.refs[OwnBranch(d) := BranchTip(r, d)],
       head := OnBranch(OwnBranch(d)),
       index := SwitchedIndex(HeadTree(r), BranchTree(r, d), r.index),
       work := SwitchedWork(HeadTree(r), BranchTree(r, d), r.index, r.work),
       mergeHead := None)
  }

  predicate CanEnter(r: Repo, d: DeviceId)
    requires Valid(r) && HeadCommit(r).Some?
  {
    r.unmerged == [] && CanSwitch(HeadTree(r), BranchTree(r, d), r.index, r.work)
  }

  lemma EnterIff(r: Repo, d: DeviceId)
    requires Valid(r) && HeadCommit(r).Some?
    ensures EnterDeviceBranch(r, d).1 == None <==> CanEnter(r, d)
    ensures CanEnter(r, d) ==> EnterDeviceBranch(r, d).0 == OnDeviceBranch(r, d)
    ensures !CanEnter(r, d) ==> EnterDeviceBranch(r, d).0 == r.(refs := r.refs[OwnBranch(d) := BranchTip(r, d)])
  {
    hide CanSwitch, SwitchedIndex, SwitchedWork;
    if OwnBranch(d) in r.refs {
      assert r.refs[OwnBranch(d) := BranchTip(r, d)] == r.refs;
    }
    var ensured := EnsureDeviceBranch(r, d).value;
    assert ensured == r.(refs := r.refs[OwnBranch(d) := BranchTip(r, d)]);
    assert HeadTree(ensured) == HeadTree(r);
  }

  /** The clone after a commit on the device's branch, before HEAD goes back. */
  function AfterCommit(e: Repo, d: DeviceId, tree: Tree): Repo
    requires HeadCommit(e).Some?
  {
    e.(dag := e.dag + [Commit([HeadCommit(e).value], tree)], refs := e.refs[OwnBranch(d) := |e.dag|], index := tree)
  }

  function Overwritten(index: Tree, work: Tree, paths: seq<string>): Tree {
    map p | p in index.Keys + work.Keys && (if p in paths then p in work else p in index)
        :: if p in paths then work[p] else index[p]
  }

  lemma CommitIff(e: Repo, d: DeviceId, paths: seq<string>, signs: bool)
    requires e.head == OnBranch(OwnBranch(d)) && HeadCommit(e).Some? && e.unmerged == []
    ensures SignedCommit(e, paths, signs).1.Ok? <==> paths != [] && signs && forall p :: p in paths ==> p in e.work
    ensures SignedCommit(e, paths, signs).1.Ok? ==>
      && SignedCommit(e, paths, signs).1.value == |e.dag|
      && SignedCommit(e, paths, signs).0 == AfterCommit(e, d, Overwritten(e.index, e.work, paths))
    ensures SignedCommit(e, paths, signs).1.Err? ==>
      SignedCommit(e, paths, signs).0 == e.(index := SignedCommit(e, paths, signs).0.index)
  {
    hide StageAll;
    StagedIff(e, paths);
    StagedKeeps(e, paths);
    var (staged, error) := StageAll(e, paths);
    if error == None {
      forall p ensures At(staged.index, p) == At(Overwritten(e.index, e.work, paths), p) { StagedAt(e, paths, p); }
      SameTree(staged.index, Overwritten(e.index, e.work, paths));
    } else {
      StagedUnmerged(e, paths);
    }
  }

  lemma {:induction false} StagedUnmerged(r: Repo, paths: seq<string>)
    requires r.unmerged == []
    ensures StageAll(r, paths).0.unmerged == []
    decreases |paths|
  {
    if paths != [] && paths[0] in r.work {
      StagedUnmerged(Entered(r, paths[0], r.work[paths[0]]), paths[1..]);
    }
  }

  // Which refs move

  predicate OnlyMoves(before: Repo, after: Repo, branch: string) {
    && (forall b :: b in before.refs && b != branch ==> b in after.refs && after.refs[b] == before.refs[b])
    && (forall b :: b in after.refs && b != branch ==> b in before.refs)
    && after.tracking == before.tracking
    && before.dag <= after.dag && |after.dag| <= |before.dag| + 1
  }

  lemma SignedCommitMoves(e: Repo, branch: string, paths: seq<string>, signs: bool)
    requires e.head == OnBranch(branch)
    ensures OnlyMoves(e, SignedCommit(e, paths, signs).0, branch)
  {
    hide StageAll;
    StagedKeeps(e, paths);
  }

  lemma RestoreMovesNothing(c: Repo, committed: Result<CommitId, Error>, previous: Head)
    requires Valid(c)
    ensures var after := Restore(c, committed, previous).0;
      after.(head := c.head, index := c.index, work := c.work, mergeHead := c.mergeHead) == c
  {
    hide CanSwitch, SwitchedIndex, SwitchedWork;
  }

  /** Only the device's branch moves, whatever fails; commits are only added, and at most one. */
  lemma OnlyDeviceBranchMoves(r: Repo, d: DeviceId, paths: seq<string>, signs: bool)
    requires Valid(r)
    ensures OnlyMoves(r, CommitToDeviceBranch(r, d, paths, signs).0, OwnBranch(d))
  {
    hide EnterDeviceBranch, SignedCommit, CanEnter, Restore, SwitchedIndex, SwitchedWork;
    if HeadCommit(r) == None {
      SignedCommitMoves(r.(head := OnBranch(OwnBranch(d))), OwnBranch(d), paths, signs);
    } else {
      EnterIff(r, d);
      if CanEnter(r, d) {
        var e := OnDeviceBranch(r, d);
        var (c, result) := SignedCommit(e, paths, signs);
        SignedCommitMoves(e, OwnBranch(d), paths, signs);
        SignedValid(e, paths, signs);
        RestoreMovesNothing(c, result, r.head);
      }
    }
  }

  // The first commit of a store

  /**
   On an unborn HEAD the device's branch becomes the current one even when the commit fails, and nothing is checked
   out.  The commit holds the index overwritten at the paths.
   */
  lemma UnbornHeadIsRetargeted(r: Repo, d: DeviceId, paths: seq<string>, signs: bool)
    requires Valid(r) && HeadCommit(r) == None
    ensures var (after, result) := CommitToDeviceBranch(r, d, paths, signs);
      && after.head == OnBranch(OwnBranch(d))
      && after.work == r.work
      && (result.Ok? ==>
            && result.value == |r.dag| && OwnBranch(d) in after.refs && after.refs[OwnBranch(d)] == result.value
            && |after.dag| == |r.dag| + 1
            && after.dag[result.value].parents == (if OwnBranch(d) in r.refs then [r.refs[OwnBranch(d)]] else [])
            && after.dag[result.value].tree == Overwritten(r.index, r.work, paths))
  {
    hide StageAll;
    var e := r.(head := OnBranch(OwnBranch(d)));
    StagedKeeps(e, paths);
    var (staged, error) := StageAll(e, paths);
    if error == None {
      forall p ensures At(staged.index, p) == At(Overwritten(e.index, e.work, paths), p) { StagedAt(e, paths, p); }
      SameTree(staged.index, Overwritten(e.index, e.work, paths));
    }
  }

  /** On an unborn HEAD the call succeeds exactly if the commit does. */
  lemma UnbornSucceedsIff(r: Repo, d: DeviceId, paths: seq<string>, signs: bool)
    requires Valid(r) && HeadCommit(r) == None
    ensures CommitToDeviceBranch(r, d, paths, signs).1.Ok?
       <==> paths != [] && signs && (forall p :: p in paths ==> p in r.work) && ConflictsOnlyOn(r, paths)
  {
    hide SignedCommit;
    SignedIff(r.(head := OnBranch(OwnBranch(d))), paths, signs);
  }

  // Going back to where HEAD was

  /** A path with a staged change and a further change to the file. */
  predicate EditedTwice(r: Repo, p: string)
    requires Valid(r)
  {
    At(r.index, p) != At(HeadTree(r), p) && p in r.work && At(r.work, p) != At(r.index, p)
  }

  ghost predicate NoneEditedTwice(r: Repo, paths: seq<string>)
    requires Valid(r)
  {
    forall p :: p !in paths ==> !EditedTwice(r, p)
  }

  /** The tree of the commit that a call makes. */
  function CommittedTree(r: Repo, d: DeviceId, paths: seq<string>): Tree
    requires Valid(r) && HeadCommit(r).Some?
  {
    Overwritten(OnDeviceBranch(r, d).index, OnDeviceBranch(r, d).work, paths)
  }

  lemma CommittedAt(r: Repo, d: DeviceId, paths: seq<string>, p: string)
    requires Valid(r) && HeadCommit(r).Some?
    ensures At(CommittedTree(r, d, paths), p)
         == if p in paths then At(OnDeviceBranch(r, d).work, p)
            else if At(HeadTree(r), p) == At(BranchTree(r, d), p) then At(r.index, p)
            else At(BranchTree(r, d), p)
  {
    SwitchedAt(HeadTree(r), BranchTree(r, d), r.index, r.work, p);
  }

  lemma RestoreAt(r: Repo, d: DeviceId, paths: seq<string>, p: string)
    requires Valid(r) && HeadCommit(r).Some? && CanEnter(r, d)
    ensures var tree, work := CommittedTree(r, d, paths), OnDeviceBranch(r, d).work;
      PathSwitches(At(tree, p), At(HeadTree(r), p), At(tree, p), At(work, p)) <==> p in paths || !EditedTwice(r, p)
  {
    hide CanSwitch, Overwritten, SwitchedIndex, SwitchedWork;
    CommittedAt(r, d, paths, p);
    CanSwitchAt(HeadTree(r), BranchTree(r, d), r.index, r.work);
    assert PathSwitches(At(HeadTree(r), p), At(BranchTree(r, d), p), At(r.index, p), At(r.work, p));
    SwitchedAt(HeadTree(r), BranchTree(r, d), r.index, r.work, p);
  }

  lemma RestoreIff(r: Repo, d: DeviceId, paths: seq<string>)
    requires Valid(r) && HeadCommit(r).Some? && CanEnter(r, d)
    requires r.head != OnBranch(OwnBranch(d))
    ensures var tree, work := CommittedTree(r, d, paths), OnDeviceBranch(r, d).work;
      CanSwitch(tree, HeadTree(r), tree, work) <==> NoneEditedTwice(r, paths)
  {
    hide CanSwitch, PathSwitches, EditedTwice, CommittedTree, OnDeviceBranch;
    var tree, work := CommittedTree(r, d, paths), OnDeviceBranch(r, d).work;
    CanSwitchAt(tree, HeadTree(r), tree, work);
    forall p
      ensures PathSwitches(At(tree, p), At(HeadTree(r), p), At(tree, p), At(work, p))
        <==> p in paths || !EditedTwice(r, p)
    {
      RestoreAt(r, d, paths, p);
    }
  }

  /** The clone once HEAD is back. */
  function Returned(c: Repo, r: Repo): Repo
    requires Valid(r)
  {
    c.(head := r.head,
       index := SwitchedIndex(c.index, HeadTree(r), c.index),
       work := SwitchedWork(c.index, HeadTree(r), c.index, c.work),
       mergeHead := None)
  }

  lemma RestoreFromElsewhere(r: Repo, d: DeviceId, tree: Tree)
    requires Valid(r) && HeadCommit(r).Some? && CanEnter(r, d)
    requires r.head != OnBranch(OwnBranch(d))
    ensures var c := AfterCommit(OnDeviceBranch(r, d), d, tree);
      && Valid(c)
      && (Checkout(c, r.head).Ok? <==> CanSwitch(tree, HeadTree(r), tree, c.work))
      && (Checkout(c, r.head).Ok? ==> Checkout(c, r.head).value == Returned(c, r))
  {
    hide CanSwitch, SwitchedIndex, SwitchedWork;
    var c := AfterCommit(OnDeviceBranch(r, d), d, tree);
    assert HeadTree(c) == tree;
    assert CommitOf(c, r.head) == HeadCommit(r);
    assert c.dag[HeadCommit(r).value] == r.dag[HeadCommit(r).value];
  }

  lemma RestoreFromOwn(r: Repo, d: DeviceId, tree: Tree)
    requires Valid(r) && HeadCommit(r).Some? && CanEnter(r, d)
    requires r.head == OnBranch(OwnBranch(d))
    ensures var c := AfterCommit(OnDeviceBranch(r, d), d, tree);
      && Valid(c) && Checkout(c, r.head).Ok? && Checkout(c, r.head).value == c
  {
    var c := AfterCommit(OnDeviceBranch(r, d), d, tree);
    assert HeadTree(c) == tree;
    SwitchToSame(tree, c.index, c.work);
  }

  lemma SwitchToSame(tree: Tree, index: Tree, work: Tree)
    ensures CanSwitch(tree, tree, index, work)
    ensures SwitchedIndex(tree, tree, index) == index && SwitchedWork(tree, tree, index, work) == work
  {
    forall p { SwitchedAt(tree, tree, index, work, p); }
    SameTree(SwitchedIndex(tree, tree, index), index);
    SameTree(SwitchedWork(tree, tree, index, work), work);
  }

  predicate AllFilesThere(r: Repo, d: DeviceId, paths: seq<string>)
    requires Valid(r) && HeadCommit(r).Some?
  {
    forall p :: p in paths ==> p in OnDeviceBranch(r, d).work
  }

  /**
   Exactly when the call succeeds, told from the clone before it: there is something to commit and a key to sign it,
   git lets HEAD move to the device's branch, every path has a file there, and, unless HEAD was on that branch
   already, no other path has both a staged change and a further edit.
   */
  lemma SucceedsIff(r: Repo, d: DeviceId, paths: seq<string>, signs: bool)
    requires Valid(r) && HeadCommit(r).Some?
    ensures CommitToDeviceBranch(r, d, paths, signs).1.Ok?
       <==> && paths != [] && signs && CanEnter(r, d) && AllFilesThere(r, d, paths)
            && (r.head == OnBranch(OwnBranch(d)) || NoneEditedTwice(r, paths))
  {
    hide CanEnter, OnDeviceBranch, EnterDeviceBranch, SignedCommit, Overwritten, Checkout, NoneEditedTwice;
    EnterIff(r, d);
    if CanEnter(r, d) {
      var e := OnDeviceBranch(r, d);
      OnDeviceBranchShape(r, d);
      CommitIff(e, d, paths, signs);
      RestoreCases(r, d, paths);
    }
  }

  lemma OnDeviceBranchShape(r: Repo, d: DeviceId)
    requires Valid(r) && HeadCommit(r).Some? && CanEnter(r, d)
    ensures var e := OnDeviceBranch(r, d);
      && Valid(e) && e.dag == r.dag && e.head == OnBranch(OwnBranch(d)) && HeadCommit(e) == Some(BranchTip(r, d))
      && e.unmerged == [] && HeadTree(e) == BranchTree(r, d)
  {
  }

  lemma RestoreCases(r: Repo, d: DeviceId, paths: seq<string>)
    requires Valid(r) && HeadCommit(r).Some? && CanEnter(r, d)
    requires HeadCommit(OnDeviceBranch(r, d)).Some?
    ensures var c := AfterCommit(OnDeviceBranch(r, d), d, CommittedTree(r, d, paths));
      && Valid(c)
      && (Checkout(c, r.head).Ok? <==> r.head == OnBranch(OwnBranch(d)) || NoneEditedTwice(r, paths))
  {
    hide CanEnter, OnDeviceBranch, Checkout, NoneEditedTwice, CommittedTree, CanSwitch;
    var tree := CommittedTree(r, d, paths);
    if r.head == OnBranch(OwnBranch(d)) {
      RestoreFromOwn(r, d, tree);
    } else {
      RestoreFromElsewhere(r, d, tree);
      RestoreIff(r, d, paths);
    }
  }

  /** If HEAD is not back, the call has failed and git refuses, in the clone it leaves behind, to go back. */
  lemma HeadIsRestored(r: Repo, d: DeviceId, paths: seq<string>, signs: bool)
    requires Valid(r) && HeadCommit(r).Some?
    ensures var (after, result) := CommitToDeviceBranch(r, d, paths, signs);
      && Valid(after)
      && (after.head == r.head
          || (result.Err? && after.head == OnBranch(OwnBranch(d)) && Checkout(after, r.head).Err?))
  {
    hide CanSwitch, CanEnter, SwitchedIndex, SwitchedWork, StageAll;
    EnterIff(r, d);
    if CanEnter(r, d) {
      var e := OnDeviceBranch(r, d);
      var (c, result) := SignedCommit(e, paths, signs);
      SignedValid(e, paths, signs);
      StagedKeeps(e, paths);
      CheckedOutValid(c, r.head);
    }
  }

  // What a successful call commits

  /** The new commit sits on top of the device's branch and nothing else, and HEAD is back. */
  lemma CommitShape(r: Repo, d: DeviceId, paths: seq<string>, signs: bool)
    requires Valid(r) && HeadCommit(r).Some?
    requires CommitToDeviceBranch(r, d, paths, signs).1.Ok?
    ensures CanEnter(r, d)
    ensures var (after, result) := CommitToDeviceBranch(r, d, paths, signs);
      && result.value == |r.dag|
      && after.dag == r.dag + [Commit([BranchTip(r, d)], CommittedTree(r, d, paths))]
      && after.refs == r.refs[OwnBranch(d) := result.value]
      && after.head == r.head
      && (after == if r.head == OnBranch(OwnBranch(d))
                   then AfterCommit(OnDeviceBranch(r, d), d, CommittedTree(r, d, paths))
                   else Returned(AfterCommit(OnDeviceBranch(r, d), d, CommittedTree(r, d, paths)), r))
  {
    hide CanEnter, EnterDeviceBranch, SignedCommit, Overwritten, Checkout, NoneEditedTwice, HeadTree, BranchTree;
    hide SwitchedIndex, SwitchedWork;
    EnterIff(r, d);
    var e := OnDeviceBranch(r, d);
    assert CanEnter(r, d);
    OnDeviceBranchShape(r, d);
    CommitIff(e, d, paths, signs);
    if r.head == OnBranch(OwnBranch(d)) {
      RestoreFromOwn(r, d, CommittedTree(r, d, paths));
    } else {
      RestoreFromElsewhere(r, d, CommittedTree(r, d, paths));
    }
  }

  /**
   The commit changes nothing but the given paths if and only if no other path on which HEAD and the device's branch
   agree had a staged change: such a change is committed along with them.
   */
  lemma ExactlyPathsIff(r: Repo, d: DeviceId, paths: seq<string>, signs: bool)
    requires Valid(r) && HeadCommit(r).Some?
    requires CommitToDeviceBranch(r, d, paths, signs).1.Ok?
    ensures CommitToDeviceBranch(r, d, paths, signs).1.value < |CommitToDeviceBranch(r, d, paths, signs).0.dag|
    ensures var (after, result) := CommitToDeviceBranch(r, d, paths, signs);
      (forall p :: p !in paths ==> At(after.dag[result.value].tree, p) == At(BranchTree(r, d), p))
      <==> (forall p :: p !in paths && At(HeadTree(r), p) == At(BranchTree(r, d), p) ==>
            At(r.index, p) == At(HeadTree(r), p))
  {
    hide CommitToDeviceBranch, CommittedTree, HeadTree, BranchTree, OnDeviceBranch;
    CommitShape(r, d, paths, signs);
    var tree := CommittedTree(r, d, paths);
    forall p
      ensures p !in paths ==>
        At(tree, p) == if At(HeadTree(r), p) == At(BranchTree(r, d), p) then At(r.index, p) else At(BranchTree(r, d), p)
    {
      CommittedAt(r, d, paths, p);
    }
  }

  /**
   Coming back to another branch leaves an index with nothing staged, and a work tree where every path shows what HEAD
   has, except those not asked for, without a staged change and the same on both branches: their files stay.  The
   files just committed are gone from the work tree unless HEAD has them too.
   */
  lemma CloneAfterCommit(r: Repo, d: DeviceId, paths: seq<string>, signs: bool, p: string)
    requires Valid(r) && HeadCommit(r).Some? && r.head != OnBranch(OwnBranch(d))
    requires CommitToDeviceBranch(r, d, paths, signs).1.Ok?
    ensures var after := CommitToDeviceBranch(r, d, paths, signs).0;
      && after.index == HeadTree(r)
      && At(after.work, p) == if p !in paths && At(HeadTree(r), p) == At(BranchTree(r, d), p) == At(r.index, p)
                              then At(r.work, p) else At(HeadTree(r), p)
  {
    hide CommitToDeviceBranch, CommittedTree, HeadTree, BranchTree, CanSwitch;
    hide SwitchedIndex, SwitchedWork, EditedTwice;
    SucceedsIff(r, d, paths, signs);
    CommitShape(r, d, paths, signs);
    var tree, work := CommittedTree(r, d, paths), OnDeviceBranch(r, d).work;
    var after := CommitToDeviceBranch(r, d, paths, signs).0;
    forall q ensures At(after.index, q) == At(HeadTree(r), q) { SwitchedAt(tree, HeadTree(r), tree, work, q); }
    SameTree(after.index, HeadTree(r));
    SwitchedAt(tree, HeadTree(r), tree, work, p);
    CommittedAt(r, d, paths, p);
    SwitchedAt(HeadTree(r), BranchTree(r, d), r.index, r.work, p);
    CanSwitchAt(HeadTree(r), BranchTree(r, d), r.index, r.work);
    assert PathSwitches(At(HeadTree(r), p), At(BranchTree(r, d), p), At(r.index, p), At(r.work, p));
  }

  // What a failed call leaves behind

  /**
   When the commit cannot be signed, what was staged for it stays in the index (where HEAD and the device's branch
   agree, such as for a new file) although HEAD is back.
   */
  lemma FailedCommitStaysStaged(r: Repo, d: DeviceId, paths: seq<string>, p: string)
    requires Valid(r) && HeadCommit(r).Some? && CanEnter(r, d) && AllFilesThere(r, d, paths)
    requires p in paths && At(HeadTree(r), p) == At(BranchTree(r, d), p)
    requires CommitToDeviceBranch(r, d, paths, false).0.head == r.head
    ensures var (after, result) := CommitToDeviceBranch(r, d, paths, false);
      && result == Err(SigningFailed)
      && Valid(after) && HeadCommit(after).Some?
      && HeadTree(after) == HeadTree(r) && BranchTree(after, d) == BranchTree(r, d)
      && At(after.index, p) == At(r.work, p)
  {
    hide CanEnter, CanSwitch, SwitchedIndex, SwitchedWork, StageAll, EnterDeviceBranch;
    EnterIff(r, d);
    var e := OnDeviceBranch(r, d);
    OnDeviceBranchShape(r, d);
    var (c, result) := SignedCommit(e, paths, false);
    SignedValid(e, paths, false);
    StagedIff(e, paths);
    StagedKeeps(e, paths);
    StagedAt(e, paths, p);
    SwitchedAt(HeadTree(r), BranchTree(r, d), r.index, r.work, p);
    SwitchedAt(BranchTree(r, d), HeadTree(r), c.index, c.work, p);
    if r.head == OnBranch(OwnBranch(d)) {
      SwitchToSame(HeadTree(c), c.index, c.work);
    }
    CheckedOutValid(c, r.head);
  }

  /** The paths that get staged: those before the first without a file. */
  function FilesBefore(work: Tree, paths: seq<string>): seq<string> {
    if paths == [] || paths[0] !in work then [] else [paths[0]] + FilesBefore(work, paths[1..])
  }

  lemma {:induction false} PartlyStagedAt(r: Repo, paths: seq<string>, p: string)
    ensures At(StageAll(r, paths).0.index, p)
         == if p in FilesBefore(r.work, paths) then At(r.work, p) else At(r.index, p)
    decreases |paths|
  {
    if paths != [] && paths[0] in r.work {
      PartlyStagedAt(Entered(r, paths[0], r.work[paths[0]]), paths[1..], p);
    }
  }

  /** A failed call leaves this path of the index as it was. */
  predicate StaysPut(r: Repo, d: DeviceId, staged: seq<string>, p: string)
    requires Valid(r) && HeadCommit(r).Some?
  {
    if At(HeadTree(r), p) == At(BranchTree(r, d), p) then p in staged ==> At(r.work, p) == At(r.index, p)
    else At(r.index, p) == At(HeadTree(r), p)
  }

  ghost predicate AllStayPut(r: Repo, d: DeviceId, staged: seq<string>)
    requires Valid(r) && HeadCommit(r).Some?
  {
    forall p :: StaysPut(r, d, staged, p)
  }

  lemma SignedIndexAt(e: Repo, paths: seq<string>, signs: bool, p: string)
    ensures At(SignedCommit(e, paths, signs).0.index, p)
         == if p in FilesBefore(e.work, paths) then At(e.work, p) else At(e.index, p)
  {
    hide StageAll;
    PartlyStagedAt(e, paths, p);
  }

  /** The clone after a failed call, when HEAD is back. */
  lemma FailedShape(r: Repo, d: DeviceId, paths: seq<string>, signs: bool)
    requires Valid(r) && HeadCommit(r).Some? && CanEnter(r, d)
    requires CommitToDeviceBranch(r, d, paths, signs).1.Err?
    requires CommitToDeviceBranch(r, d, paths, signs).0.head == r.head
    ensures var staged := SignedCommit(OnDeviceBranch(r, d), paths, signs).0;
      CommitToDeviceBranch(r, d, paths, signs).0.index == SwitchedIndex(BranchTree(r, d), HeadTree(r), staged.index)
  {
    hide CanEnter, CanSwitch, SwitchedIndex, SwitchedWork, SignedCommit, EnterDeviceBranch;
    EnterIff(r, d);
    var e := OnDeviceBranch(r, d);
    OnDeviceBranchShape(r, d);
    var (c, result) := SignedCommit(e, paths, signs);
    CommitIff(e, d, paths, signs);
    SignedValid(e, paths, signs);
    if r.head == OnBranch(OwnBranch(d)) {
      SwitchToSame(HeadTree(c), c.index, c.work);
      if result.Ok? { RestoreFromOwn(r, d, CommittedTree(r, d, paths)); }
    }
  }

  lemma FailedIndexAt(r: Repo, d: DeviceId, paths: seq<string>, signs: bool, p: string)
    requires Valid(r) && HeadCommit(r).Some? && CanEnter(r, d)
    requires CommitToDeviceBranch(r, d, paths, signs).1.Err?
    requires CommitToDeviceBranch(r, d, paths, signs).0.head == r.head
    ensures At(CommitToDeviceBranch(r, d, paths, signs).0.index, p) == At(r.index, p)
       <==> StaysPut(r, d, FilesBefore(OnDeviceBranch(r, d).work, paths), p)
  {
    hide CanEnter, CommitToDeviceBranch, SwitchedIndex, SwitchedWork, SignedCommit, FilesBefore;
    FailedShape(r, d, paths, signs);
    var e := OnDeviceBranch(r, d);
    SignedIndexAt(e, paths, signs, p);
    SwitchedAt(HeadTree(r), BranchTree(r, d), r.index, r.work, p);
    SwitchedAt(BranchTree(r, d), HeadTree(r), SignedCommit(e, paths, signs).0.index, e.work, p);
  }

  /**
   A failed call after which HEAD is back leaves the index as it was if and only if HEAD could not move at all, or no
   file that it staged had changes where HEAD and the device's branch agree, and nothing was staged where they differ.
   */
  lemma FailedCommitKeepsIndexIff(r: Repo, d: DeviceId, paths: seq<string>, signs: bool)
    requires Valid(r) && HeadCommit(r).Some?
    requires CommitToDeviceBranch(r, d, paths, signs).1.Err?
    requires CommitToDeviceBranch(r, d, paths, signs).0.head == r.head
    ensures CommitToDeviceBranch(r, d, paths, signs).0.index == r.index
       <==> (CanEnter(r, d) ==> AllStayPut(r, d, FilesBefore(OnDeviceBranch(r, d).work, paths)))
  {
    if CanEnter(r, d) {
      hide CanEnter, CommitToDeviceBranch, StaysPut, FilesBefore, OnDeviceBranch;
      var after, staged := CommitToDeviceBranch(r, d, paths, signs).0, FilesBefore(OnDeviceBranch(r, d).work, paths);
      forall p ensures At(after.index, p) == At(r.index, p) <==> StaysPut(r, d, staged, p) {
        FailedIndexAt(r, d, paths, signs, p);
      }
      if AllStayPut(r, d, staged) { SameTree(after.index, r.index); }
    } else {
      EnterIff(r, d);
    }
  }

  /** The next successful call then commits those files as well, although it was not given their paths. */
  lemma FailedCommitIsSweptUp(r: Repo, d: DeviceId, paths: seq<string>, next: seq<string>, p: string)
    requires Valid(r) && HeadCommit(r).Some? && CanEnter(r, d) && AllFilesThere(r, d, paths)
    requires p in paths && p !in next && At(HeadTree(r), p) == At(BranchTree(r, d), p)
    requires CommitToDeviceBranch(r, d, paths, false).0.head == r.head
    ensures var r1 := CommitToDeviceBranch(r, d, paths, false).0;
      && Valid(r1)
      && var (after, result) := CommitToDeviceBranch(r1, d, next, true);
         result.Ok? ==> result.value < |after.dag| && At(after.dag[result.value].tree, p) == At(r.work, p)
  {
    hide CommitToDeviceBranch, CanEnter, AllFilesThere, CommittedTree, HeadTree, BranchTree, OnDeviceBranch;
    FailedCommitStaysStaged(r, d, paths, p);
    var r1 := CommitToDeviceBranch(r, d, paths, false).0;
    if CommitToDeviceBranch(r1, d, next, true).1.Ok? {
      CommitShape(r1, d, next, true);
      CommittedAt(r1, d, next, p);
    }
  }

  // Edits that were never staged

  /** A file of the work tree that differs from the index, or is not in it. */
  predicate Edited(r: Repo, p: string) { p in r.work && At(r.work, p) != At(r.index, p) }

  lemma EditsSurviveSwitch(from: Tree, to: Tree, index: Tree, work: Tree, p: string)
    requires CanSwitch(from, to, index, work) && p in work && At(work, p) != At(index, p)
    ensures At(SwitchedWork(from, to, index, work), p) == At(work, p)
    ensures At(SwitchedIndex(from, to, index), p) == At(index, p)
  {
    hide CanSwitch, SwitchedIndex, SwitchedWork;
    CanSwitchAt(from, to, index, work);
    assert PathSwitches(At(from, p), At(to, p), At(index, p), At(work, p));
    SwitchedAt(from, to, index, work, p);
  }

  lemma EditsSurviveCheckout(r: Repo, target: Head, p: string)
    requires Valid(r) && Edited(r, p) && Checkout(r, target).Ok?
    ensures Edited(Checkout(r, target).value, p) && At(Checkout(r, target).value.work, p) == At(r.work, p)
  {
    hide CanSwitch, SwitchedIndex, SwitchedWork;
    var c := CommitOf(r, target).value;
    EditsSurviveSwitch(HeadTree(r), r.dag[c].tree, r.index, r.work, p);
    assert At(Checkout(r, target).value.work, p).Some?;
  }

  lemma {:induction false} StagingTouches(r: Repo, paths: seq<string>, p: string)
    requires p !in paths
    ensures At(StageAll(r, paths).0.index, p) == At(r.index, p)
    decreases |paths|
  {
    if paths != [] && paths[0] in r.work {
      StagingTouches(Entered(r, paths[0], r.work[paths[0]]), paths[1..], p);
    }
  }

  lemma EditsSurviveCommit(r: Repo, paths: seq<string>, signs: bool, p: string)
    requires Edited(r, p) && p !in paths
    ensures Edited(SignedCommit(r, paths, signs).0, p) && SignedCommit(r, paths, signs).0.work == r.work
  {
    hide StageAll;
    StagingTouches(r, paths, p);
    StagedKeeps(r, paths);
  }

  /**
   However the call ends and wherever HEAD was, a file with changes that were never staged, other than those asked for,
   keeps its contents.
   */
  lemma UncommittedEditsSurvive(r: Repo, d: DeviceId, paths: seq<string>, signs: bool, p: string)
    requires Valid(r) && Edited(r, p) && p !in paths
    ensures var after := CommitToDeviceBranch(r, d, paths, signs).0;
      Edited(after, p) && At(after.work, p) == At(r.work, p)
  {
    hide Checkout, SignedCommit, CanEnter, StageAll;
    if HeadCommit(r) == None {
      EditsSurviveCommit(r.(head := OnBranch(OwnBranch(d))), paths, signs, p);
    } else {
      var (entered, error) := EnterDeviceBranch(r, d);
      EditsSurviveEntering(r, d, p);
      if error == None {
        EditsSurviveCommit(entered, paths, signs, p);
        SignedValid(entered, paths, signs);
        var committed := SignedCommit(entered, paths, signs).0;
        if Checkout(committed, r.head).Ok? { EditsSurviveCheckout(committed, r.head, p); }
      }
    }
  }

  lemma EditsSurviveEntering(r: Repo, d: DeviceId, p: string)
    requires Valid(r) && Edited(r, p)
    ensures Edited(EnterDeviceBranch(r, d).0, p) && At(EnterDeviceBranch(r, d).0.work, p) == At(r.work, p)
  {
    hide Checkout;
    var ensured := EnsureDeviceBranch(r, d);
    if ensured.Ok? {
      EnsuredValid(r, d);
      assert ensured.value.index == r.index && ensured.value.work == r.work;
      if Checkout(ensured.value, OnBranch(OwnBranch(d))).Ok? {
        EditsSurviveCheckout(ensured.value, OnBranch(OwnBranch(d)), p);
      }
    }
  }
}

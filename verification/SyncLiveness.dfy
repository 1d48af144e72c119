/**
 When merging and syncing succeed, told from the clone: turn by turn, for a sync that finds nothing new, and for a clone
 with nothing uncommitted.
 */
module SyncLiveness {
  import opened Wrappers
  import opened CommitGraph
  import opened Git
  import opened Protocol
  import opened DeviceBranch
  import opened SyncProtocol
  import S = Sync
  import D = DeviceBranchTheorems
  import T = SyncTheorems

  // One ref

  /** Going from commit `from` to `to` would lose nothing on any path. */
  ghost predicate LosesNoFile(r: Repo, from: Tree, to: Tree) {
    forall p ::
      || At(from, p) == At(to, p)
      || At(r.index, p) == At(to, p)
      || (At(r.index, p) == At(from, p) && (p !in r.work || At(r.work, p) == At(r.index, p)))
  }

  /** What going there makes of the index and the work tree. */
  ghost predicate WentTo(r: Repo, after: Repo, from: Tree, to: Tree) {
    forall p ::
      && At(after.index, p) == (if At(from, p) == At(to, p) then At(r.index, p) else At(to, p))
      && (At(from, p) == At(to, p) || At(r.index, p) == At(to, p) ==> At(after.work, p) == At(r.work, p))
      && (At(from, p) != At(to, p) && At(r.index, p) != At(to, p) ==> At(after.work, p) == At(to, p))
  }

  lemma CanSwitchIff(r: Repo, from: Tree, to: Tree)
    ensures CanSwitch(from, to, r.index, r.work) <==> LosesNoFile(r, from, to)
  {
  }

  lemma SwitchedWentTo(r: Repo, after: Repo, from: Tree, to: Tree)
    requires after.index == SwitchedIndex(from, to, r.index) && after.work == SwitchedWork(from, to, r.index, r.work)
    ensures WentTo(r, after, from, to)
  {
    hide SwitchedIndex, SwitchedWork;
    forall p
      ensures At(after.index, p) == (if At(from, p) == At(to, p) then At(r.index, p) else At(to, p))
      ensures At(after.work, p)
           == if At(from, p) == At(to, p) || At(r.index, p) == At(to, p) then At(r.work, p) else At(to, p)
    {
      SwitchedAt(from, to, r.index, r.work, p);
    }
  }

  /** A turn that git does not complete, and in which it leaves nothing to finish, fails and changes nothing. */
  lemma NothingToFinish(r: Repo, branch: string, chance: S.Chance, note: S.NoteWriter)
    requires Valid(r) && HeadCommit(r).Some? && r.unmerged == [] && r.mergeHead == None
    requires S.MergeBranch(r, branch, chance.merge) == (r, false)
    ensures S.MergeOne(r, branch, chance, note) == (r, Some(NoMergeToFinish))
  {
    hide S.MergeBranch;
    assert S.ResolveModifyDelete(r, chance.noteNames, note) == (r, Ok([]));
  }

  /** A ref that is behind HEAD, or no ref at all. */
  lemma UpToDateTurn(r: Repo, branch: string, chance: S.Chance, note: S.NoteWriter)
    requires Valid(r) && HeadCommit(r).Some? && r.unmerged == [] && r.mergeHead == None
    ensures branch in r.tracking && Reach(r.dag, r.tracking[branch], T.Tip(r)) ==>
      S.MergeOne(r, branch, chance, note) == (r, None)
    ensures branch !in r.tracking ==> S.MergeOne(r, branch, chance, note) == (r, Some(NoMergeToFinish))
  {
    hide Reach, S.FastForward, S.TrulyMerged;
    if branch !in r.tracking { NothingToFinish(r, branch, chance, note); }
  }

  /** A ref that is ahead of HEAD: exactly when the turn succeeds, and what the clone is then. */
  lemma FastForwardTurnIff(r: Repo, branch: string, chance: S.Chance, note: S.NoteWriter)
    requires Valid(r) && HeadCommit(r).Some? && r.unmerged == [] && r.mergeHead == None && branch in r.tracking
    requires !Reach(r.dag, r.tracking[branch], T.Tip(r)) && Reach(r.dag, T.Tip(r), r.tracking[branch])
    ensures var (after, error) := S.MergeOne(r, branch, chance, note);
      var from, to := HeadTree(r), r.dag[r.tracking[branch]].tree;
      && (error == None <==> LosesNoFile(r, from, to))
      && (error == None ==>
            && HeadCommit(after) == Some(r.tracking[branch]) && WentTo(r, after, from, to)
            && after.dag == r.dag && after.unmerged == [] && after.mergeHead == None)
      && (error != None ==> error == Some(NoMergeToFinish) && after == r)
  {
    hide Reach, LosesNoFile, WentTo, CanSwitch, SwitchedIndex, SwitchedWork;
    var from, to := HeadTree(r), r.dag[r.tracking[branch]].tree;
    CanSwitchIff(r, from, to);
    if CanSwitch(from, to, r.index, r.work) {
      SwitchedWentTo(r, S.MergeBranch(r, branch, chance.merge).0, from, to);
    } else {
      NothingToFinish(r, branch, chance, note);
    }
  }

  /** Two histories that have parted, which git can merge by itself, or declines to. */
  lemma TrueMergeTurnIff(r: Repo, branch: string, chance: S.Chance, note: S.NoteWriter)
    requires Valid(r) && HeadCommit(r).Some? && r.unmerged == [] && r.mergeHead == None && branch in r.tracking
    requires !Reach(r.dag, r.tracking[branch], T.Tip(r)) && !Reach(r.dag, T.Tip(r), r.tracking[branch])
    requires chance.merge.Stopped? ==> r.index != HeadTree(r)
    ensures var (after, error) := S.MergeOne(r, branch, chance, note);
      && (error == None <==>
            chance.merge.Clean? && r.index == HeadTree(r) && LosesNoFile(r, HeadTree(r), chance.merge.tree))
      && (error == None ==>
            && after.dag == r.dag + [Commit([T.Tip(r), r.tracking[branch]], chance.merge.tree)]
            && HeadCommit(after) == Some(|r.dag|) && after.index == chance.merge.tree
            && WentTo(r, after, HeadTree(r), chance.merge.tree)
            && after.unmerged == [] && after.mergeHead == None)
      && (error != None ==> error == Some(NoMergeToFinish) && after == r)
  {
    hide Reach, LosesNoFile, WentTo, CanSwitch, SwitchedIndex, SwitchedWork;
    if chance.merge.Clean? {
      var from, to := HeadTree(r), chance.merge.tree;
      CanSwitchIff(r, from, to);
      if r.index == from && CanSwitch(from, to, r.index, r.work) {
        var after := S.MergeBranch(r, branch, chance.merge).0;
        T.SwitchOfClean(from, to);
        SwitchedWentTo(r, after, from, to);
      } else {
        NothingToFinish(r, branch, chance, note);
      }
    } else {
      NothingToFinish(r, branch, chance, note);
    }
  }

  // A sync that finds nothing new

  lemma {:induction false} UpToDateRefs(r: Repo, branches: seq<string>, chances: seq<S.Chance>, note: S.NoteWriter)
    requires Valid(r) && HeadCommit(r).Some? && |chances| >= |branches| && r.unmerged == [] && r.mergeHead == None
    requires forall b :: b in branches ==> b in r.tracking && Reach(r.dag, r.tracking[b], T.Tip(r))
    ensures S.MergeRefs(r, branches, chances, note) == (r, Ok(branches))
    decreases |branches|
  {
    hide Reach, S.MergeOne;
    if branches != [] {
      assert branches[0] in branches && forall b :: b in branches[1..] ==> b in branches;
      UpToDateTurn(r, branches[0], chances[0], note);
      UpToDateRefs(r, branches[1..], chances[1..], note);
      assert branches == [branches[0]] + branches[1..];
    }
  }

  /** Checking out the branch that is checked out changes nothing but forgets an unfinished merge. */
  lemma EnterOwn(r: Repo, d: DeviceId)
    requires Valid(r) && r.head == OnBranch(OwnBranch(d)) && OwnBranch(d) in r.refs && r.unmerged == []
    ensures EnterDeviceBranch(r, d) == (r.(mergeHead := None), None)
  {
    var tree := HeadTree(r);
    forall p
      ensures At(SwitchedIndex(tree, tree, r.index), p) == At(r.index, p)
      ensures At(SwitchedWork(tree, tree, r.index, r.work), p) == At(r.work, p)
    {
      SwitchedAt(tree, tree, r.index, r.work, p);
    }
    SameTree(SwitchedIndex(tree, tree, r.index), r.index);
    SameTree(SwitchedWork(tree, tree, r.index, r.work), r.work);
  }

  /** All that a sync fetches, the device's own branch included, is behind that branch already. */
  ghost predicate NothingNew(r: Repo, remote: S.Remote, d: DeviceId)
    requires Valid(r) && Commits(r.dag, remote) && OwnBranch(d) in r.refs
  {
    && (forall b :: Merges(r.tracking + remote, d, b) ==>
          Reach(r.dag, (r.tracking + remote)[b], r.refs[OwnBranch(d)]))
    && (OwnBranch(d) in remote ==> Reach(r.dag, remote[OwnBranch(d)], r.refs[OwnBranch(d)]))
  }

  /**
   On its own branch, with all that is fetched behind it, a device syncs whatever is edited or staged: nothing of the
   clone changes but what was fetched and pushed, and no commit is made.
   */
  lemma NothingNewSync(r: Repo, remote: S.Remote, d: DeviceId, listing: seq<string>, chances: seq<S.Chance>,
                       note: S.NoteWriter)
    requires Valid(r) && Commits(r.dag, remote) && |chances| > |listing| && S.Lists(listing, r.tracking + remote)
    requires r.head == OnBranch(OwnBranch(d)) && OwnBranch(d) in r.refs && r.unmerged == []
    requires NothingNew(r, remote, d)
    ensures var s := S.RunSync(r, remote, d, listing, chances, S.Luck(true, true, true), note);
      var own, tip := OwnBranch(d), r.refs[OwnBranch(d)];
      && s.result.Ok? && s.remote == remote[own := tip]
      && s.repo == r.(tracking := (r.tracking + remote)[own := tip], mergeHead := None)
  {
    hide Reach, EnterDeviceBranch, S.MergeRefs, S.RefsToMerge, S.Lists;
    var own, fetched := OwnBranch(d), S.Fetched(r, remote);
    EnterOwn(fetched, d);
    var entered := fetched.(mergeHead := None);
    ListedRefs(entered, listing, d);
    OwnBranchInjective(d, d);
    var branches := S.RefsToMerge(entered, listing, own);
    forall b | b in branches ensures b in entered.tracking && Reach(entered.dag, entered.tracking[b], T.Tip(entered)) {
      assert Merges(entered.tracking, d, b);
    }
    UpToDateRefs(entered, branches, chances, note);
  }

  /** With no commit and no branch of its own yet, a device cannot sync: its branch has nowhere to start. */
  lemma UnbornSyncFails(r: Repo, remote: S.Remote, d: DeviceId, listing: seq<string>, chances: seq<S.Chance>,
                        luck: S.Luck, note: S.NoteWriter)
    requires Valid(r) && Commits(r.dag, remote) && |chances| > |listing|
    requires HeadCommit(r) == None && OwnBranch(d) !in r.refs
    ensures var s := S.RunSync(r, remote, d, listing, chances, luck, note);
      && s.result == Err(if luck.fetches then NotACommit else FetchFailed) && s.remote == remote
      && s.repo == r.(tracking := s.repo.tracking)
  {
    hide S.MergeAndPush, Checkout;
  }

  /** A second sync, with the remote as the first one left it, succeeds and changes nothing at all. */
  lemma SecondSyncChangesNothing(r: Repo, remote: S.Remote, d: DeviceId, listing: seq<string>, chances: seq<S.Chance>,
                                 luck: S.Luck, note: S.NoteWriter, again: seq<string>, chances': seq<S.Chance>)
    requires Valid(r) && Commits(r.dag, remote) && |chances| > |listing| && S.Lists(listing, r.tracking + remote)
    requires S.RunSync(r, remote, d, listing, chances, luck, note).result.Ok?
    requires var first := S.RunSync(r, remote, d, listing, chances, luck, note);
      |chances'| > |again| && S.Lists(again, first.repo.tracking + first.remote)
    ensures var first := S.RunSync(r, remote, d, listing, chances, luck, note);
      && Valid(first.repo) && Commits(first.repo.dag, first.remote)
      && var second := S.RunSync(first.repo, first.remote, d, again, chances', S.Luck(true, true, true), note);
         second.result.Ok? && second.repo == first.repo && second.remote == first.remote
  {
    hide S.RunSync, Reach, S.Lists, Ensured, Valid, Commits, Merges;
    SyncedShape(r, remote, d, listing, chances, luck, note);
    SyncBringsAll(r, remote, d, listing, chances, luck, note);
    var first := S.RunSync(r, remote, d, listing, chances, luck, note);
    SyncAgain(first.repo, first.remote, r.tracking, remote, d, again, chances', note);
  }

  lemma SyncAgain(first: Repo, pushed: S.Remote, tracking: map<string, CommitId>, remote: S.Remote, d: DeviceId,
                  again: seq<string>, chances: seq<S.Chance>, note: S.NoteWriter)
    requires Valid(first) && Commits(first.dag, pushed) && OwnBranch(d) in first.refs
    requires first.head == OnBranch(OwnBranch(d)) && first.unmerged == [] && first.mergeHead == None
    requires first.tracking == (tracking + remote)[OwnBranch(d) := first.refs[OwnBranch(d)]]
    requires pushed == remote[OwnBranch(d) := first.refs[OwnBranch(d)]]
    requires forall b :: Merges(tracking + remote, d, b) ==>
      Reach(first.dag, (tracking + remote)[b], first.refs[OwnBranch(d)])
    requires |chances| > |again| && S.Lists(again, first.tracking + pushed)
    ensures var second := S.RunSync(first, pushed, d, again, chances, S.Luck(true, true, true), note);
      second.result.Ok? && second.repo == first && second.remote == pushed
  {
    hide S.RunSync, Reach, S.Lists, Valid, Commits, Merges, NothingNew;
    AllBehind(first, pushed, tracking, remote, d);
    NothingNewSync(first, pushed, d, again, chances, note);
    var tip := first.refs[OwnBranch(d)];
    assert first.tracking[OwnBranch(d) := tip] == first.tracking && pushed[OwnBranch(d) := tip] == pushed;
  }

  lemma AllBehind(first: Repo, pushed: S.Remote, tracking: map<string, CommitId>, remote: S.Remote, d: DeviceId)
    requires Valid(first) && Commits(first.dag, pushed) && OwnBranch(d) in first.refs
    requires first.tracking == (tracking + remote)[OwnBranch(d) := first.refs[OwnBranch(d)]]
    requires pushed == remote[OwnBranch(d) := first.refs[OwnBranch(d)]]
    requires forall b :: Merges(tracking + remote, d, b) ==>
      Reach(first.dag, (tracking + remote)[b], first.refs[OwnBranch(d)])
    ensures first.tracking + pushed == first.tracking && NothingNew(first, pushed, d)
  {
    hide Reach;
    assert first.tracking + pushed == first.tracking;
    T.ReachItself(first.dag, first.refs[OwnBranch(d)]);
    forall b | Merges(first.tracking, d, b) ensures Reach(first.dag, first.tracking[b], first.refs[OwnBranch(d)]) {
      OwnBranchInjective(d, d);
      assert Merges(tracking + remote, d, b);
    }
  }

  lemma PushedShape(merged: Repo, remote: S.Remote, own: string, luck: S.Luck, branches: seq<string>)
    requires Valid(merged) && own in merged.refs && Commits(merged.dag, remote)
    requires S.Push(merged, remote, own, luck, branches).result.Ok?
    ensures var s := S.Push(merged, remote, own, luck, branches);
      && Valid(s.repo) && Commits(s.repo.dag, s.remote)
      && s.repo == merged.(tracking := merged.tracking[own := merged.refs[own]])
      && s.remote == remote[own := merged.refs[own]]
  {
    hide S.PushAccepted;
  }

  /** The clone after a sync that succeeded. */
  lemma SyncedShape(r: Repo, remote: S.Remote, d: DeviceId, listing: seq<string>, chances: seq<S.Chance>, luck: S.Luck,
                    note: S.NoteWriter)
    requires Valid(r) && Commits(r.dag, remote) && |chances| > |listing|
    requires S.RunSync(r, remote, d, listing, chances, luck, note).result.Ok?
    ensures var s := S.RunSync(r, remote, d, listing, chances, luck, note);
      var own := OwnBranch(d);
      && Valid(s.repo) && Commits(s.repo.dag, s.remote) && own in s.repo.refs
      && s.repo.tracking == (r.tracking + remote)[own := s.repo.refs[own]]
      && s.remote == remote[own := s.repo.refs[own]]
      && s.repo.unmerged == [] && s.repo.mergeHead == None && s.repo.head == OnBranch(own)
  {
    SyncShape(r, remote, d, listing, chances, luck, note);
    MergedShape(r, remote, d, listing, chances, note);
    var merged := MergedFetched(r, remote, d, listing, chances, note).0;
    MergedClears(r, remote, d, listing, chances, note);
    CommitsGrow(r.dag, merged.dag, remote);
    hide S.RunSync, EnteredFetched, MergedFetched, Reach, S.RefsToMerge, S.MergeRefs, S.Push, Valid, Commits;
    PushedShape(merged, remote, OwnBranch(d), luck, MergedFetched(r, remote, d, listing, chances, note).1.value);
  }

  lemma CommitsGrow(dag: Dag, dag': Dag, remote: S.Remote)
    requires Commits(dag, remote) && dag <= dag'
    ensures Commits(dag', remote)
  {
  }

  lemma MergedClears(r: Repo, remote: S.Remote, d: DeviceId, listing: seq<string>, chances: seq<S.Chance>,
                     note: S.NoteWriter)
    requires Valid(r) && Commits(r.dag, remote) && |chances| > |listing| && EnteredFetched(r, remote, d).1 == None
    requires MergedFetched(r, remote, d, listing, chances, note).1.Ok?
    ensures var merged := MergedFetched(r, remote, d, listing, chances, note).0;
      merged.unmerged == [] && merged.mergeHead == None
  {
    hide EnterDeviceBranch, S.MergeRefs, S.RefsToMerge, Reach;
    EnteredShape(S.Fetched(r, remote), d);
    S.EnteredOwn(S.Fetched(r, remote), d);
    var entered := EnteredFetched(r, remote, d).0;
    T.MergeRefsKeeps(entered, S.RefsToMerge(entered, listing, OwnBranch(d)), chances, note);
  }

  // A clone with nothing uncommitted

  /** Nothing staged, nothing edited, no conflict: the files are those of HEAD and `extra` ones git does not track. */
  predicate Tidy(r: Repo, extra: Tree)
    requires Valid(r)
  {
    && HeadCommit(r).Some? && r.unmerged == [] && r.index == HeadTree(r) && r.work == HeadTree(r) + extra
    && Apart(r, extra)
  }

  /** No commit has a file where an untracked one is. */
  predicate Apart(r: Repo, extra: Tree) {
    forall c :: 0 <= c < |r.dag| ==> r.dag[c].tree.Keys !! extra.Keys
  }

  lemma TidySwitches(from: Tree, to: Tree, extra: Tree)
    requires from.Keys !! extra.Keys && to.Keys !! extra.Keys
    ensures CanSwitch(from, to, from, from + extra)
    ensures SwitchedIndex(from, to, from) == to && SwitchedWork(from, to, from, from + extra) == to + extra
  {
    forall p
      ensures At(SwitchedIndex(from, to, from), p) == At(to, p)
      ensures At(SwitchedWork(from, to, from, from + extra), p) == At(to + extra, p)
    {
      SwitchedAt(from, to, from, from + extra, p);
    }
    SameTree(SwitchedIndex(from, to, from), to);
    SameTree(SwitchedWork(from, to, from, from + extra), to + extra);
  }

  lemma TidyEnters(r: Repo, d: DeviceId, extra: Tree)
    requires Valid(r) && Tidy(r, extra)
    ensures EnterDeviceBranch(r, d).1 == None
    ensures var entered := EnterDeviceBranch(r, d).0; Tidy(entered, extra) && entered.mergeHead == None
  {
    hide CanSwitch, SwitchedIndex, SwitchedWork;
    assert HeadTree(r).Keys !! extra.Keys && D.BranchTree(r, d).Keys !! extra.Keys;
    TidySwitches(HeadTree(r), D.BranchTree(r, d), extra);
    D.EnterIff(r, d);
  }

  lemma TidyFastForward(r: Repo, target: CommitId, extra: Tree)
    requires Valid(r) && Tidy(r, extra) && target < |r.dag|
    ensures var (after, moved) := S.FastForward(r, target);
      && moved && Valid(after) && Tidy(after, extra)
      && after.(head := r.head, refs := r.refs, index := r.index, work := r.work) == r
  {
    hide CanSwitch, SwitchedIndex, SwitchedWork;
    TidySwitches(HeadTree(r), r.dag[target].tree, extra);
  }

  lemma CommitIsTidy(q: Repo, parents: seq<CommitId>, extra: Tree)
    requires Valid(q) && q.unmerged == [] && q.work == q.index + extra && q.index.Keys !! extra.Keys && Apart(q, extra)
    ensures var after := NewCommit(q, parents);
      && Valid(after) && Tidy(after, extra) && after.mergeHead == q.mergeHead && after.tracking == q.tracking
  {
  }

  lemma TidyTrueMerge(r: Repo, target: CommitId, tree: Tree, extra: Tree)
    requires Valid(r) && Tidy(r, extra) && target < |r.dag| && tree.Keys !! extra.Keys
    ensures var (after, merged) := S.TrulyMerged(r, HeadCommit(r).value, target, S.Clean(tree));
      merged && Valid(after) && Tidy(after, extra) && after.mergeHead == r.mergeHead && after.tracking == r.tracking
  {
    hide CanSwitch, SwitchedIndex, SwitchedWork, NewCommit;
    TidySwitches(HeadTree(r), tree, extra);
    CommitIsTidy(r.(index := tree, work := tree + extra), [HeadCommit(r).value, target], extra);
  }

  lemma TidyMergeOne(r: Repo, branch: string, chance: S.Chance, note: S.NoteWriter, extra: Tree)
    requires Valid(r) && Tidy(r, extra) && r.mergeHead == None && branch in r.tracking
    requires chance.merge.Clean? && chance.merge.tree.Keys !! extra.Keys
    ensures var (after, error) := S.MergeOne(r, branch, chance, note);
      error == None && Tidy(after, extra) && after.mergeHead == None && after.tracking == r.tracking
  {
    hide Reach, S.FastForward, S.TrulyMerged, Apart, HeadTree;
    TidyFastForward(r, r.tracking[branch], extra);
    TidyTrueMerge(r, r.tracking[branch], chance.merge.tree, extra);
  }

  lemma {:induction false} TidyMerges(r: Repo, branches: seq<string>, chances: seq<S.Chance>, note: S.NoteWriter,
                                      extra: Tree)
    requires Valid(r) && Tidy(r, extra) && r.mergeHead == None && |chances| >= |branches|
    requires forall b :: b in branches ==> b in r.tracking
    requires forall c :: c in chances ==> c.merge.Clean? && c.merge.tree.Keys !! extra.Keys
    ensures var (after, merged) := S.MergeRefs(r, branches, chances, note); merged.Ok? && Tidy(after, extra)
    decreases |branches|
  {
    hide S.MergeOne, Tidy;
    assert Tidy(r, extra) ==> HeadCommit(r).Some? by { TidyHasHead(r, extra); }
    if branches != [] {
      assert branches[0] in branches && chances[0] in chances && forall b :: b in branches[1..] ==> b in branches;
      assert forall c :: c in chances[1..] ==> c in chances;
      TidyMergeOne(r, branches[0], chances[0], note, extra);
      TidyMerges(S.MergeOne(r, branches[0], chances[0], note).0, branches[1..], chances[1..], note, extra);
    }
  }

  lemma TidyHasHead(r: Repo, extra: Tree)
    requires Valid(r)
    ensures Tidy(r, extra) ==> HeadCommit(r).Some?
  {
  }

  /**
   From a clone with nothing uncommitted, wherever HEAD is, a sync succeeds whenever the network and the report do, git
   can merge what has parted, and the remote's copy of the device's branch is behind.  Afterwards the files are those of
   the new tip and the untracked ones, which are as they were.
   */
  lemma TidySyncSucceeds(r: Repo, remote: S.Remote, d: DeviceId, listing: seq<string>, chances: seq<S.Chance>,
                         note: S.NoteWriter, extra: Tree)
    requires Valid(r) && Commits(r.dag, remote) && |chances| > |listing| && S.Lists(listing, r.tracking + remote)
    requires Tidy(r, extra) && forall c :: c in chances ==> c.merge.Clean? && c.merge.tree.Keys !! extra.Keys
    requires OwnBranch(d) in remote ==>
      OwnBranch(d) in r.refs && Reach(r.dag, remote[OwnBranch(d)], r.refs[OwnBranch(d)])
    ensures var s := S.RunSync(r, remote, d, listing, chances, S.Luck(true, true, true), note);
      && s.result.Ok? && Valid(s.repo) && Tidy(s.repo, extra)
      && OwnBranch(d) in s.remote && HeadCommit(s.repo) == Some(s.remote[OwnBranch(d)])
  {
    var luck := S.Luck(true, true, true);
    hide S.MergeRefs, S.RefsToMerge, Reach, S.Lists, S.RunSync, Tidy, EnteredFetched, MergedFetched;
    TidyMergesFetched(r, remote, d, listing, chances, note, extra);
    SyncSucceedsIff(r, remote, d, listing, chances, luck, note);
    SyncedShape(r, remote, d, listing, chances, luck, note);
    SyncShape(r, remote, d, listing, chances, luck, note);
    PushKeepsTidy(MergedFetched(r, remote, d, listing, chances, note).0,
                  S.RunSync(r, remote, d, listing, chances, luck, note).repo, extra);
  }

  lemma TidyMergesFetched(r: Repo, remote: S.Remote, d: DeviceId, listing: seq<string>, chances: seq<S.Chance>,
                          note: S.NoteWriter, extra: Tree)
    requires Valid(r) && Commits(r.dag, remote) && |chances| > |listing| && S.Lists(listing, r.tracking + remote)
    requires Tidy(r, extra) && forall c :: c in chances ==> c.merge.Clean? && c.merge.tree.Keys !! extra.Keys
    ensures EnteredFetched(r, remote, d).1 == None
    ensures var (merged, result) := MergedFetched(r, remote, d, listing, chances, note);
      result.Ok? && Valid(merged) && Tidy(merged, extra)
  {
    var fetched := S.Fetched(r, remote);
    FetchKeepsTidy(r, remote, extra);
    hide EnterDeviceBranch, S.MergeRefs, S.RefsToMerge, Reach, S.Lists, Tidy;
    TidyEnters(fetched, d, extra);
    S.EnteredOwn(fetched, d);
    EnteredShape(fetched, d);
    var entered := EnteredFetched(r, remote, d).0;
    ListedRefs(entered, listing, d);
    var branches := S.RefsToMerge(entered, listing, OwnBranch(d));
    forall b | b in branches ensures b in entered.tracking { assert Merges(entered.tracking, d, b); }
    TidyMerges(entered, branches, chances, note, extra);
  }

  lemma FetchKeepsTidy(r: Repo, remote: S.Remote, extra: Tree)
    requires Valid(r) && Commits(r.dag, remote) && Tidy(r, extra)
    ensures Valid(S.Fetched(r, remote)) && Tidy(S.Fetched(r, remote), extra)
  {
  }

  lemma PushKeepsTidy(merged: Repo, pushed: Repo, extra: Tree)
    requires Valid(merged) && Valid(pushed) && Tidy(merged, extra)
    requires pushed == merged.(tracking := pushed.tracking)
    ensures Tidy(pushed, extra)
  {
  }
}

/**
 The commands against the protocol: what a whole sync brings in, and that syncs and commits on any clone are runs of
 the protocol's steps, so that its invariant holds between any commands of any devices.
 */
module SyncProtocol {
  import opened Wrappers
  import opened CommitGraph
  import opened Git
  import opened Protocol
  import opened DeviceBranch
  import S = Sync
  import T = SyncTheorems

  // Onto the device's branch

  /** The local branches once the device has one of its own, if it can have. */
  function Ensured(r: Repo, d: DeviceId): map<string, CommitId> {
    if OwnBranch(d) in r.refs || HeadCommit(r) == None then r.refs else r.refs[OwnBranch(d) := HeadCommit(r).value]
  }

  lemma EnteredShape(r: Repo, d: DeviceId)
    requires Valid(r)
    ensures var (entered, error) := EnterDeviceBranch(r, d);
      && entered.refs == Ensured(r, d)
      && entered.dag == r.dag && entered.tracking == r.tracking
      && (error == None ==>
            && OwnBranch(d) in entered.refs && entered.head == OnBranch(OwnBranch(d))
            && HeadCommit(entered) == Some(entered.refs[OwnBranch(d)])
            && entered.mergeHead == None && entered.unmerged == [])
  {
    hide CanSwitch, SwitchedIndex, SwitchedWork, HeadTree;
    var ensured := EnsureDeviceBranch(r, d);
    if ensured.Ok? {
      assert ensured.value.refs == Ensured(r, d) && ensured.value == r.(refs := Ensured(r, d));
      assert Valid(ensured.value);
    }
  }

  // A whole sync

  /** The branches a sync of `d` merges. */
  predicate Merges(fetched: map<string, CommitId>, d: DeviceId, b: string) {
    b in fetched && (b == "main" || (IsSyncBranch(b) && b != OwnBranch(d)))
  }

  lemma ListedRefs(r: Repo, listing: seq<string>, d: DeviceId)
    requires S.Lists(listing, r.tracking)
    ensures forall b :: b in S.RefsToMerge(r, listing, OwnBranch(d)) <==> Merges(r.tracking, d, b)
    ensures Listed(S.RefsToMerge(r, listing, OwnBranch(d)), r.tracking, d)
  {
    OwnBranchInjective(d, d);
  }

  /** The clone on the device's branch, and what merging makes of it. */
  function EnteredFetched(r: Repo, remote: S.Remote, d: DeviceId): (Repo, Option<Error>)
    requires Valid(r) && Commits(r.dag, remote)
  {
    EnterDeviceBranch(S.Fetched(r, remote), d)
  }

  function MergedFetched(r: Repo, remote: S.Remote, d: DeviceId, listing: seq<string>, chances: seq<S.Chance>,
                         note: S.NoteWriter): (Repo, Result<seq<string>, Error>)
    requires Valid(r) && Commits(r.dag, remote) && |chances| > |listing| && EnteredFetched(r, remote, d).1 == None
  {
    S.EnteredOwn(S.Fetched(r, remote), d);
    var entered := EnteredFetched(r, remote, d).0;
    S.MergeRefs(entered, S.RefsToMerge(entered, listing, OwnBranch(d)), chances, note)
  }

  lemma MergedShape(r: Repo, remote: S.Remote, d: DeviceId, listing: seq<string>, chances: seq<S.Chance>,
                    note: S.NoteWriter)
    requires Valid(r) && Commits(r.dag, remote) && |chances| > |listing| && EnteredFetched(r, remote, d).1 == None
    ensures var own := OwnBranch(d);
      var entered := EnteredFetched(r, remote, d).0;
      var (merged, branches) := MergedFetched(r, remote, d, listing, chances, note);
      && entered.refs == Ensured(r, d) && entered.dag == r.dag && entered.tracking == r.tracking + remote
      && entered.head == OnBranch(own) && HeadCommit(entered).Some? && entered.mergeHead == None
          && entered.unmerged == []
      && own in entered.refs && entered.refs[own] < |r.dag|
      && Valid(merged) && merged.head == OnBranch(own) && own in merged.refs && merged.refs[own] < |merged.dag|
      && merged.refs == r.refs[own := merged.refs[own]]
      && merged.tracking == entered.tracking && r.dag <= merged.dag
      && Reach(merged.dag, entered.refs[own], merged.refs[own])
      && (branches.Ok? ==> branches.value == S.RefsToMerge(entered, listing, own))
  {
    hide EnterDeviceBranch, S.MergeRefs, S.RefsToMerge, Reach;
    EnteredShape(S.Fetched(r, remote), d);
    var entered := EnteredFetched(r, remote, d).0;
    T.MergeRefsKeeps(entered, S.RefsToMerge(entered, listing, OwnBranch(d)), chances, note);
    var merged := MergedFetched(r, remote, d, listing, chances, note).0;
    assert merged.refs == entered.refs[OwnBranch(d) := merged.refs[OwnBranch(d)]];
  }

  lemma SyncShape(r: Repo, remote: S.Remote, d: DeviceId, listing: seq<string>, chances: seq<S.Chance>, luck: S.Luck,
                  note: S.NoteWriter)
    requires Valid(r) && Commits(r.dag, remote) && |chances| > |listing|
    ensures var s := S.RunSync(r, remote, d, listing, chances, luck, note);
      && (!luck.fetches ==> s == S.Synced(r, remote, Err(FetchFailed)))
      && (luck.fetches ==>
            var (entered, error) := EnteredFetched(r, remote, d);
            if error.Some? then s == S.Synced(entered, remote, Err(error.value))
            else
              var (merged, branches) := MergedFetched(r, remote, d, listing, chances, note);
              && Valid(merged) && OwnBranch(d) in merged.refs
              && (branches.Err? ==> s == S.Synced(merged, remote, Err(branches.error)))
              && (branches.Ok? && !luck.reports ==> s == S.Synced(merged, remote, Err(ReportFailed)))
              && (branches.Ok? && luck.reports ==> s == S.Push(merged, remote, OwnBranch(d), luck, branches.value)))
  {
    hide EnterDeviceBranch, S.MergeRefs, S.RefsToMerge, Reach;
    if luck.fetches && EnteredFetched(r, remote, d).1 == None {
      MergedShape(r, remote, d, listing, chances, note);
    }
  }

  /** A sync that fails leaves the remote as it was, and every branch but the device's own. */
  lemma FailedSyncPushesNothing(r: Repo, remote: S.Remote, d: DeviceId, listing: seq<string>, chances: seq<S.Chance>,
                                luck: S.Luck, note: S.NoteWriter)
    requires Valid(r) && Commits(r.dag, remote) && |chances| > |listing|
    ensures var s := S.RunSync(r, remote, d, listing, chances, luck, note);
      && (s.result.Err? ==> s.remote == remote)
      && (s.repo.refs == r.refs
          || (OwnBranch(d) in s.repo.refs && s.repo.refs == r.refs[OwnBranch(d) := s.repo.refs[OwnBranch(d)]]))
      && r.dag <= s.repo.dag
  {
    SyncShape(r, remote, d, listing, chances, luck, note);
    EnteredRefs(r, remote, d);
    hide S.RunSync, MergedFetched, EnteredFetched, S.PushAccepted, EnterDeviceBranch, Valid, Commits, Reach, Ensured;
    if luck.fetches && EnteredFetched(r, remote, d).1 == None { MergedShape(r, remote, d, listing, chances, note); }
  }

  lemma EnteredRefs(r: Repo, remote: S.Remote, d: DeviceId)
    requires Valid(r) && Commits(r.dag, remote)
    ensures var entered := EnteredFetched(r, remote, d).0;
      && entered.dag == r.dag && entered.tracking == r.tracking + remote && entered.refs == Ensured(r, d)
      && (Ensured(r, d) == r.refs
          || (OwnBranch(d) in Ensured(r, d) && Ensured(r, d) == r.refs[OwnBranch(d) := Ensured(r, d)[OwnBranch(d)]]))
  {
    hide EnterDeviceBranch;
    EnteredShape(S.Fetched(r, remote), d);
  }

  /** A sync that succeeds: what is pushed, and that it is above the device's old branch and all that was fetched. */
  lemma SyncBringsAll(r: Repo, remote: S.Remote, d: DeviceId, listing: seq<string>, chances: seq<S.Chance>,
                      luck: S.Luck, note: S.NoteWriter)
    requires Valid(r) && Commits(r.dag, remote) && |chances| > |listing|
    requires S.Lists(listing, r.tracking + remote)
    requires S.RunSync(r, remote, d, listing, chances, luck, note).result.Ok?
    ensures var s := S.RunSync(r, remote, d, listing, chances, luck, note);
      var own, fetched := OwnBranch(d), r.tracking + remote;
      && own in s.repo.refs && s.repo.refs[own] < |s.repo.dag| && r.dag <= s.repo.dag
      && s.remote == remote[own := s.repo.refs[own]]
      && s.repo.refs == r.refs[own := s.repo.refs[own]]
      && s.repo.head == OnBranch(own)
      && own in Ensured(r, d) && Reach(s.repo.dag, Ensured(r, d)[own], s.repo.refs[own])
      && (forall b :: Merges(fetched, d, b) ==> Reach(s.repo.dag, fetched[b], s.repo.refs[own]))
      && (forall b :: b in s.result.value <==> Merges(fetched, d, b))
  {
    SyncShape(r, remote, d, listing, chances, luck, note);
    MergedShape(r, remote, d, listing, chances, note);
    hide S.RunSync, MergedFetched, EnteredFetched, S.PushAccepted, Reach, S.RefsToMerge, S.Lists, Merges;
    hide Valid, Commits, Ensured;
    var entered := EnteredFetched(r, remote, d).0;
    ListedRefs(entered, listing, d);
    MergedAll(r, remote, d, listing, chances, note);
  }

  lemma MergedAll(r: Repo, remote: S.Remote, d: DeviceId, listing: seq<string>, chances: seq<S.Chance>,
                  note: S.NoteWriter)
    requires Valid(r) && Commits(r.dag, remote) && |chances| > |listing| && EnteredFetched(r, remote, d).1 == None
    requires MergedFetched(r, remote, d, listing, chances, note).1.Ok?
    requires S.Lists(listing, r.tracking + remote)
    ensures var fetched := r.tracking + remote;
      var merged := MergedFetched(r, remote, d, listing, chances, note).0;
      && OwnBranch(d) in merged.refs && merged.refs[OwnBranch(d)] < |merged.dag|
      && forall b :: Merges(fetched, d, b) ==> Reach(merged.dag, fetched[b], merged.refs[OwnBranch(d)])
  {
    MergedShape(r, remote, d, listing, chances, note);
    hide EnteredFetched, S.MergeRefs, S.RefsToMerge, Reach, Merges, S.Lists;
    var entered := EnteredFetched(r, remote, d).0;
    ListedRefs(entered, listing, d);
    T.MergedAllRefs(entered, S.RefsToMerge(entered, listing, OwnBranch(d)), chances, note);
  }

  /** ... and above nothing else. */
  lemma SyncBringsNothingElse(r: Repo, remote: S.Remote, d: DeviceId, listing: seq<string>, chances: seq<S.Chance>,
                              luck: S.Luck, note: S.NoteWriter, x: CommitId)
    requires Valid(r) && Commits(r.dag, remote) && |chances| > |listing|
    requires S.Lists(listing, r.tracking + remote)
    requires S.RunSync(r, remote, d, listing, chances, luck, note).result.Ok? && x < |r.dag|
    ensures var s := S.RunSync(r, remote, d, listing, chances, luck, note);
      var own, fetched := OwnBranch(d), r.tracking + remote;
      && own in s.repo.refs && s.repo.refs[own] < |s.repo.dag|
      && own in Ensured(r, d) && Ensured(r, d)[own] < |r.dag|
      && (Reach(s.repo.dag, x, s.repo.refs[own]) ==>
            || Reach(r.dag, x, Ensured(r, d)[own])
            || exists b :: Merges(fetched, d, b) && fetched[b] < |r.dag| && Reach(r.dag, x, fetched[b]))
  {
    SyncShape(r, remote, d, listing, chances, luck, note);
    MergedShape(r, remote, d, listing, chances, note);
    hide S.RunSync, EnteredFetched, S.PushAccepted, Reach, S.RefsToMerge, S.Lists, S.MergeRefs, T.BehindAny;
    var entered := EnteredFetched(r, remote, d).0;
    var branches := S.RefsToMerge(entered, listing, OwnBranch(d));
    ListedRefs(entered, listing, d);
    if branches == [] {
      NothingMerged(entered, chances, note);
    } else {
      T.MergeRefsBring(entered, branches, chances, note, x);
      assert branches[0] in branches;
      T.BehindSplits(entered, branches, x);
      if T.BehindAny(entered, branches, x) { BehindMerged(entered, branches, d, x); }
    }
  }

  lemma BehindMerged(r: Repo, branches: seq<string>, d: DeviceId, x: CommitId)
    requires T.BehindAny(r, branches, x) && forall b :: b in branches <==> Merges(r.tracking, d, b)
    ensures exists b :: Merges(r.tracking, d, b) && r.tracking[b] < |r.dag| && Reach(r.dag, x, r.tracking[b])
  {
  }

  lemma NothingMerged(r: Repo, chances: seq<S.Chance>, note: S.NoteWriter)
    requires Valid(r) && HeadCommit(r).Some?
    ensures S.MergeRefs(r, [], chances, note).0 == r
  {
  }

  /**
   If the remote's copy of the device's branch is behind the device's own, the push is accepted: a sync then succeeds
   exactly if the network and the report do, and every merge.
   */
  lemma SyncSucceedsIff(r: Repo, remote: S.Remote, d: DeviceId, listing: seq<string>, chances: seq<S.Chance>,
                        luck: S.Luck, note: S.NoteWriter)
    requires Valid(r) && Commits(r.dag, remote) && |chances| > |listing|
    requires OwnBranch(d) in remote ==>
      OwnBranch(d) in r.refs && Reach(r.dag, remote[OwnBranch(d)], r.refs[OwnBranch(d)])
    ensures S.RunSync(r, remote, d, listing, chances, luck, note).result.Ok?
       <==> && luck == S.Luck(true, true, true) && EnteredFetched(r, remote, d).1 == None
            && MergedFetched(r, remote, d, listing, chances, note).1.Ok?
  {
    SyncShape(r, remote, d, listing, chances, luck, note);
    hide S.RunSync, EnteredFetched, MergedFetched, Reach;
    if luck.fetches && EnteredFetched(r, remote, d).1 == None {
      MergedShape(r, remote, d, listing, chances, note);
      var own, merged := OwnBranch(d), MergedFetched(r, remote, d, listing, chances, note).0;
      if own in remote {
        assert Ensured(r, d)[own] == r.refs[own];
        ReachStable(r.dag, merged.dag, remote[own], r.refs[own]);
        ReachTransitive(merged.dag, remote[own], r.refs[own], merged.refs[own]);
      }
    }
  }

  // A merge that stopped

  /** While paths are in conflict every sync fails when it enters, and touches nothing but what it fetches. */
  lemma UnmergedFails(r: Repo, remote: S.Remote, d: DeviceId, listing: seq<string>, chances: seq<S.Chance>,
                      luck: S.Luck, note: S.NoteWriter)
    requires Valid(r) && Commits(r.dag, remote) && |chances| > |listing|
    requires r.unmerged != [] && HeadCommit(r).Some?
    ensures var s := S.RunSync(r, remote, d, listing, chances, luck, note);
      && s.result == Err(if luck.fetches then UnmergedPaths else FetchFailed) && s.remote == remote
      && s.repo == r.(refs := s.repo.refs, tracking := s.repo.tracking)
      && s.repo.refs == (if luck.fetches then Ensured(r, d) else r.refs)
      && HeadCommit(s.repo) == HeadCommit(r)
  {
    hide CanSwitch, SwitchedIndex, SwitchedWork, HeadTree, S.MergeAndPush;
  }

  lemma MergeOneStops(r: Repo, branch: string, chance: S.Chance, note: S.NoteWriter)
    requires Valid(r) && HeadCommit(r).Some? && S.MergeOne(r, branch, chance, note).1 == Some(UnmergedPaths)
    ensures S.MergeOne(r, branch, chance, note).0.unmerged != []
  {
    hide CanSwitch, SwitchedIndex, SwitchedWork, Reach, S.ResolveAll, S.MergeBranch;
    S.MergedValid(r, branch, chance.merge);
    var merged := S.MergeBranch(r, branch, chance.merge).0;
    ResolveErrors(merged, S.ModifyDeletes(merged.unmerged), chance.noteNames, note);
  }

  lemma {:induction false} ResolveErrors(r: Repo, conflicts: seq<Conflict>, names: seq<string>, note: S.NoteWriter)
    requires forall c :: c in conflicts ==> c.kind.ModifyDelete?
    ensures S.ResolveAll(r, conflicts, names, note).1 != Err(UnmergedPaths)
    decreases |conflicts|
  {
    hide S.WriteNote;
    if conflicts != [] && names != [] && Add(r, conflicts[0].path).Ok? {
      var staged := Add(r, conflicts[0].path).value;
      ResolveErrors(S.WriteNote(staged, names[0], conflicts[0], note), conflicts[1..], names[1..], note);
    }
  }

  lemma {:induction false} MergeRefsStops(r: Repo, branches: seq<string>, chances: seq<S.Chance>, note: S.NoteWriter)
    requires Valid(r) && HeadCommit(r).Some? && |chances| >= |branches|
    requires S.MergeRefs(r, branches, chances, note).1 == Err(UnmergedPaths)
    ensures S.MergeRefs(r, branches, chances, note).0.unmerged != []
    decreases |branches|
  {
    hide S.MergeOne;
    var (next, error) := S.MergeOne(r, branches[0], chances[0], note);
    if error.Some? {
      MergeOneStops(r, branches[0], chances[0], note);
    } else {
      MergeRefsStops(next, branches[1..], chances[1..], note);
    }
  }

  lemma EntersUnlessUnmerged(r: Repo, d: DeviceId)
    requires Valid(r) && r.unmerged == []
    ensures EnterDeviceBranch(r, d).1 != Some(UnmergedPaths)
  {
    hide CanSwitch, SwitchedIndex, SwitchedWork, HeadTree;
  }

  lemma MergingStops(r: Repo, remote: S.Remote, d: DeviceId, listing: seq<string>, chances: seq<S.Chance>, luck: S.Luck,
                     note: S.NoteWriter)
    requires Valid(r) && HeadCommit(r).Some? && r.head == OnBranch(OwnBranch(d)) && |chances| > |listing|
    requires S.MergeAndPush(r, remote, d, listing, chances, luck, note).result == Err(UnmergedPaths)
    ensures var s := S.MergeAndPush(r, remote, d, listing, chances, luck, note);
      s.repo.unmerged != [] && HeadCommit(s.repo).Some?
  {
    hide S.MergeRefs, S.RefsToMerge, S.PushAccepted;
    MergeRefsStops(r, S.RefsToMerge(r, listing, OwnBranch(d)), chances, note);
  }

  /** A sync that reports unmerged paths leaves them, whether it met them or made them. */
  lemma StoppedLeavesConflicts(r: Repo, remote: S.Remote, d: DeviceId, listing: seq<string>, chances: seq<S.Chance>,
                               luck: S.Luck, note: S.NoteWriter)
    requires Valid(r) && Commits(r.dag, remote) && |chances| > |listing| && HeadCommit(r).Some?
    requires S.RunSync(r, remote, d, listing, chances, luck, note).result == Err(UnmergedPaths)
    ensures var s := S.RunSync(r, remote, d, listing, chances, luck, note);
      s.repo.unmerged != [] && HeadCommit(s.repo).Some?
  {
    hide S.MergeAndPush, EnterDeviceBranch;
    if r.unmerged != [] {
      UnmergedFails(r, remote, d, listing, chances, luck, note);
    } else {
      var entered := EnterDeviceBranch(S.Fetched(r, remote), d).0;
      EntersUnlessUnmerged(S.Fetched(r, remote), d);
      S.EnteredOwn(S.Fetched(r, remote), d);
      MergingStops(entered, remote, d, listing, chances, luck, note);
    }
  }
}

/**
 Every sync and every commit on a clone is a run of the protocol's steps, so the protocol's invariant holds between
 any commands of any devices.
 */
module Refinement {
  import opened Wrappers
  import opened CommitGraph
  import opened Git
  import opened Protocol
  import opened DeviceBranch
  import opened SyncProtocol
  import D = DeviceBranchTheorems
  import S = Sync
  import T = SyncTheorems

  /** The steps lead from one world to the other. */
  ghost predicate Executes(w: World, steps: seq<Step>, w': World)
    decreases |steps|
  {
    if steps == [] then w == w' else Enabled(w, steps[0]) && Executes(Apply(w, steps[0]), steps[1..], w')
  }

  lemma {:induction false} ExecutesThen(w: World, first: seq<Step>, mid: World, second: seq<Step>, w': World)
    requires Executes(w, first, mid) && Executes(mid, second, w')
    ensures Executes(w, first + second, w')
    decreases |first|
  {
    hide Enabled, Apply;
    if first == [] {
      assert first + second == second;
    } else {
      ExecutesThen(Apply(w, first[0]), first[1..], mid, second, w');
      assert (first + second)[1..] == first[1..] + second;
    }
  }

  lemma OneStep(w: World, s: Step)
    requires Enabled(w, s)
    ensures Executes(w, [s], Apply(w, s))
  {
    hide Enabled, Apply;
    assert [s][1..] == [];
  }

  lemma {:induction false} ExecutesInv(w: World, steps: seq<Step>, w': World)
    requires Inv(w) && Executes(w, steps, w')
    ensures Inv(w') && w.dag <= w'.dag
    decreases |steps|
  {
    hide Inv, Enabled, Apply;
    if steps != [] {
      StepInv(w, steps[0]);
      StepGrows(w, steps[0]);
      ExecutesInv(Apply(w, steps[0]), steps[1..], w');
    }
  }

  /** What the remote's copy of a device's branch reaches is never lost. */
  lemma {:induction false} ExecutesKeepsRemote(w: World, steps: seq<Step>, w': World, d: DeviceId)
    requires Inv(w) && Executes(w, steps, w') && d in w.devices && OwnBranch(d) in w.remote
    ensures w.dag <= w'.dag && OwnBranch(d) in w'.remote && w'.remote[OwnBranch(d)] < |w'.dag|
    ensures Reach(w'.dag, w.remote[OwnBranch(d)], w'.remote[OwnBranch(d)])
    decreases |steps|
  {
    hide Inv, Enabled, Apply, Reach;
    InvAt(w, d);
    if steps == [] {
      T.ReachItself(w.dag, w.remote[OwnBranch(d)]);
    } else {
      StepInv(w, steps[0]);
      StepGrows(w, steps[0]);
      RemoteStep(w, steps[0], d);
      var mid := Apply(w, steps[0]);
      ExecutesInv(mid, steps[1..], w');
      ExecutesKeepsRemote(mid, steps[1..], w', d);
      var a, b, c := w.remote[OwnBranch(d)], mid.remote[OwnBranch(d)], w'.remote[OwnBranch(d)];
      ReachStable(mid.dag, w'.dag, a, b);
      ReachTransitive(w'.dag, a, b, c);
    }
  }

  /** A device's own branch only moves forward. */
  lemma {:induction false} ExecutesTipGrows(w: World, steps: seq<Step>, w': World, d: DeviceId)
    requires Inv(w) && Executes(w, steps, w') && d in w.devices && w.devices[d].tip.Some?
    ensures w.dag <= w'.dag && w.devices[d].tip.value < |w.dag|
    ensures d in w'.devices && w'.devices[d].tip.Some? && w'.devices[d].tip.value < |w'.dag|
    ensures Reach(w'.dag, w.devices[d].tip.value, w'.devices[d].tip.value)
    decreases |steps|
  {
    hide Inv, Enabled, Apply, Reach;
    InvAt(w, d);
    if steps == [] {
      T.ReachItself(w.dag, w.devices[d].tip.value);
    } else {
      StepInv(w, steps[0]);
      StepGrows(w, steps[0]);
      var mid := Apply(w, steps[0]);
      assert TipGrows(w, mid, d);
      ExecutesInv(mid, steps[1..], w');
      ExecutesTipGrows(mid, steps[1..], w', d);
      var a, b, c := w.devices[d].tip.value, mid.devices[d].tip.value, w'.devices[d].tip.value;
      ReachStable(mid.dag, w'.dag, a, b);
      ReachTransitive(w'.dag, a, b, c);
    }
  }

  function OwnTip(r: Repo, d: DeviceId): Option<CommitId> {
    if OwnBranch(d) in r.refs then Some(r.refs[OwnBranch(d)]) else None
  }

  /** The world with the clone of `d` and the remote in it. */
  function View(w: World, r: Repo, remote: S.Remote, d: DeviceId, todo: Option<seq<string>>): World {
    World(r.dag, remote, w.devices[d := Local(OwnTip(r, d), r.tracking, todo)])
  }

  // Merging

  lemma MergeOneIsMergeInto(r: Repo, branch: string, chance: S.Chance, note: S.NoteWriter)
    requires Valid(r) && HeadCommit(r).Some? && r.mergeHead == None
    requires S.MergeOne(r, branch, chance, note).1 == None
    ensures branch in r.tracking
    ensures var after := S.MergeOne(r, branch, chance, note).0;
      (after.dag, T.Tip(after)) == MergeInto(r.dag, T.Tip(r), r.tracking[branch], HeadTree(after))
  {
    hide Reach, S.ResolveAll, CanSwitch, SwitchedIndex, SwitchedWork;
    var (merged, clean) := S.MergeBranch(r, branch, chance.merge);
    S.MergedValid(r, branch, chance.merge);
    if !clean {
      StoppedMerge(r, branch, chance.merge);
      S.ResolvedKeeps(merged, S.ModifyDeletes(merged.unmerged), chance.noteNames, note);
      var (resolved, notes) := S.ResolveModifyDelete(merged, chance.noteNames, note);
      T.FinishJoins(resolved);
    }
  }

  lemma StoppedMerge(r: Repo, branch: string, outcome: S.TrueMerge)
    requires Valid(r) && HeadCommit(r).Some? && r.mergeHead == None && !S.MergeBranch(r, branch, outcome).1
    ensures var stopped := S.MergeBranch(r, branch, outcome).0;
      && stopped.(index := r.index, unmerged := r.unmerged, work := r.work, mergeHead := None) == r
      && (stopped.mergeHead.Some? ==>
            && branch in r.tracking && stopped.mergeHead.value == r.tracking[branch]
            && !Reach(r.dag, r.tracking[branch], T.Tip(r)) && !Reach(r.dag, T.Tip(r), r.tracking[branch]))
  {
    hide Reach, CanSwitch, SwitchedIndex, SwitchedWork;
  }

  lemma MergeOneIsStep(w: World, r: Repo, remote: S.Remote, d: DeviceId, branches: seq<string>, chance: S.Chance,
                       note: S.NoteWriter)
    requires Valid(r) && r.head == OnBranch(OwnBranch(d)) && HeadCommit(r).Some? && r.mergeHead == None
      && branches != []
    requires S.MergeOne(r, branches[0], chance, note).1 == None
    ensures var after := S.MergeOne(r, branches[0], chance, note).0;
      var v, step := View(w, r, remote, d, Some(branches)), Merge(d, HeadTree(after));
      && Enabled(v, step) && Apply(v, step) == View(w, after, remote, d, Some(branches[1..]))
      && after.mergeHead == None
  {
    hide S.MergeOne, MergeInto, T.Joins;
    var after := S.MergeOne(r, branches[0], chance, note).0;
    MergeOneIsMergeInto(r, branches[0], chance, note);
    T.MergeOneJoins(r, branches[0], chance, note);
    var v := View(w, r, remote, d, Some(branches));
    var l := Local(OwnTip(after, d), after.tracking, Some(branches[1..]));
    assert v.devices[d := l] == w.devices[d := l];
  }

  /** The merges that are made, and the refs that are left when one fails. */
  function MergeSteps(r: Repo, branches: seq<string>, chances: seq<S.Chance>, note: S.NoteWriter, d: DeviceId)
    : (seq<Step>, seq<string>)
    requires Valid(r) && HeadCommit(r).Some? && |chances| >= |branches|
    decreases |branches|
  {
    if branches == [] then ([], [])
    else
      var (next, error) := S.MergeOne(r, branches[0], chances[0], note);
      if error.Some? then ([], branches)
      else
        var (steps, left) := MergeSteps(next, branches[1..], chances[1..], note, d);
        ([Merge(d, HeadTree(next))] + steps, left)
  }

  lemma {:induction false} MergingIsARun(w: World, r: Repo, remote: S.Remote, d: DeviceId, branches: seq<string>,
                                         chances: seq<S.Chance>, note: S.NoteWriter)
    requires Valid(r) && r.head == OnBranch(OwnBranch(d)) && HeadCommit(r).Some? && r.mergeHead == None
    requires |chances| >= |branches|
    ensures var (after, merged) := S.MergeRefs(r, branches, chances, note);
      var (steps, left) := MergeSteps(r, branches, chances, note, d);
      && Executes(View(w, r, remote, d, Some(branches)), steps, View(w, after, remote, d, Some(left)))
      && (merged.Ok? ==> left == [])
    decreases |branches|
  {
    hide S.MergeOne, Enabled, Apply, View, T.Joins;
    if branches != [] {
      var (next, error) := S.MergeOne(r, branches[0], chances[0], note);
      if error == None {
        MergeOneIsStep(w, r, remote, d, branches, chances[0], note);
        MergingIsARun(w, next, remote, d, branches[1..], chances[1..], note);
        var (steps, left) := MergeSteps(next, branches[1..], chances[1..], note, d);
        var step := Merge(d, HeadTree(next));
        assert ([step] + steps)[0] == step && ([step] + steps)[1..] == steps;
      } else {
        T.MergeOneJoins(r, branches[0], chances[0], note);
        SameView(w, r, next, remote, d, Some(branches));
      }
    }
  }

  lemma SameView(w: World, r: Repo, after: Repo, remote: S.Remote, d: DeviceId, todo: Option<seq<string>>)
    requires after.dag == r.dag && after.refs == r.refs && after.tracking == r.tracking
    ensures View(w, after, remote, d, todo) == View(w, r, remote, d, todo)
  {
  }

  // Creating the branch

  function EnsureSteps(r: Repo, d: DeviceId): seq<Step> {
    if OwnBranch(d) in r.refs || HeadCommit(r) == None then [] else [Ensure(d, HeadCommit(r).value)]
  }

  lemma EnsureIsARun(w: World, r: Repo, remote: S.Remote, d: DeviceId, ensured: Repo)
    requires Valid(r) && ensured.dag == r.dag && ensured.tracking == r.tracking && ensured.refs == Ensured(r, d)
    ensures Executes(View(w, r, remote, d, None), EnsureSteps(r, d), View(w, ensured, remote, d, None))
  {
    var v := View(w, r, remote, d, None);
    if EnsureSteps(r, d) != [] {
      var step := Ensure(d, HeadCommit(r).value);
      assert Enabled(v, step);
      assert v.devices[d := Local(OwnTip(ensured, d), r.tracking, None)]
        == w.devices[d := Local(OwnTip(ensured, d), r.tracking, None)];
      OneStep(v, step);
    } else {
      SameView(w, r, ensured, remote, d, None);
    }
  }

  // A whole sync

  function SyncSteps(r: Repo, remote: S.Remote, d: DeviceId, listing: seq<string>, chances: seq<S.Chance>, luck: S.Luck,
                     note: S.NoteWriter): seq<Step>
    requires Valid(r) && Commits(r.dag, remote) && |chances| > |listing|
  {
    if !luck.fetches then []
    else
      var (entered, error) := EnteredFetched(r, remote, d);
      if error.Some? then EnsureSteps(r, d) + [Fetch(d)]
      else
        MergedShape(r, remote, d, listing, chances, note);
        var branches := S.RefsToMerge(entered, listing, OwnBranch(d));
        var merges := MergeSteps(entered, branches, chances, note, d).0;
        EnsureSteps(r, d) + ([Begin(d, branches)] + (merges
          + (if S.RunSync(r, remote, d, listing, chances, luck, note).result.Ok? then [Finish(d)] else [Abort(d)])))
  }

  lemma FetchIsStep(w: World, r: Repo, remote: S.Remote, d: DeviceId)
    requires Valid(r)
    ensures Executes(View(w, r, remote, d, None), [Fetch(d)], View(w, S.Fetched(r, remote), remote, d, None))
  {
    var v, l := View(w, r, remote, d, None), Local(OwnTip(r, d), r.tracking + remote, None);
    assert v.devices[d := l] == w.devices[d := l];
    OneStep(v, Fetch(d));
  }

  /** `ensured` has not fetched yet, `entered` has. */
  lemma BeginIsStep(w: World, ensured: Repo, entered: Repo, remote: S.Remote, d: DeviceId, branches: seq<string>)
    requires OwnBranch(d) in ensured.refs && entered.refs == ensured.refs && entered.dag == ensured.dag
    requires entered.tracking == ensured.tracking + remote && Listed(branches, entered.tracking, d)
    ensures Executes(View(w, ensured, remote, d, None), [Begin(d, branches)],
                     View(w, entered, remote, d, Some(branches)))
  {
    hide Listed;
    var v, l := View(w, ensured, remote, d, None), Local(OwnTip(ensured, d), entered.tracking, Some(branches));
    assert v.devices[d := l] == w.devices[d := l];
    OneStep(v, Begin(d, branches));
  }

  lemma AbortIsStep(w: World, r: Repo, remote: S.Remote, d: DeviceId, left: seq<string>)
    ensures Executes(View(w, r, remote, d, Some(left)), [Abort(d)], View(w, r, remote, d, None))
  {
    var v, l := View(w, r, remote, d, Some(left)), Local(OwnTip(r, d), r.tracking, None);
    assert v.devices[d := l] == w.devices[d := l];
    OneStep(v, Abort(d));
  }

  lemma PushIsStep(w: World, r: Repo, remote: S.Remote, d: DeviceId)
    requires OwnBranch(d) in r.refs
    ensures var own := OwnBranch(d);
      Executes(View(w, r, remote, d, Some([])), [Finish(d)],
               View(w, r.(tracking := r.tracking[own := r.refs[own]]), remote[own := r.refs[own]], d, None))
  {
    var own := OwnBranch(d);
    var v, l := View(w, r, remote, d, Some([])), Local(OwnTip(r, d), r.tracking[own := r.refs[own]], None);
    assert v.devices[d := l] == w.devices[d := l];
    OneStep(v, Finish(d));
  }

  lemma AfterMerging(w: World, r: Repo, remote: S.Remote, d: DeviceId, listing: seq<string>, chances: seq<S.Chance>,
                     luck: S.Luck, note: S.NoteWriter, left: seq<string>)
    requires Valid(r) && Commits(r.dag, remote) && |chances| > |listing|
    requires luck.fetches && EnteredFetched(r, remote, d).1 == None
    requires MergedFetched(r, remote, d, listing, chances, note).1.Ok? ==> left == []
    ensures var s := S.RunSync(r, remote, d, listing, chances, luck, note);
      var merged := MergedFetched(r, remote, d, listing, chances, note).0;
      Executes(View(w, merged, remote, d, Some(left)), if s.result.Ok? then [Finish(d)] else [Abort(d)],
               View(w, s.repo, s.remote, d, None))
  {
    hide MergedFetched, EnteredFetched, Reach, View, Enabled, Apply, Executes;
    SyncShape(r, remote, d, listing, chances, luck, note);
    hide S.RunSync;
    var merged := MergedFetched(r, remote, d, listing, chances, note).0;
    MergedShape(r, remote, d, listing, chances, note);
    if S.RunSync(r, remote, d, listing, chances, luck, note).result.Ok? {
      PushIsStep(w, merged, remote, d);
    } else {
      AbortIsStep(w, merged, remote, d, left);
    }
  }

  lemma MergesIs(r: Repo, remote: S.Remote, d: DeviceId, listing: seq<string>, chances: seq<S.Chance>,
                 note: S.NoteWriter)
    requires Valid(r) && Commits(r.dag, remote) && |chances| > |listing| && EnteredFetched(r, remote, d).1 == None
    ensures HeadCommit(EnteredFetched(r, remote, d).0).Some?
    ensures var entered := EnteredFetched(r, remote, d).0;
      MergedFetched(r, remote, d, listing, chances, note)
      == S.MergeRefs(entered, S.RefsToMerge(entered, listing, OwnBranch(d)), chances, note)
  {
    hide S.MergeRefs, EnteredFetched;
    MergedShape(r, remote, d, listing, chances, note);
  }

  /** A sync, however it ends, is a run of the protocol. */
  lemma SyncIsARun(w: World, r: Repo, remote: S.Remote, d: DeviceId, listing: seq<string>, chances: seq<S.Chance>,
                   luck: S.Luck, note: S.NoteWriter)
    requires Valid(r) && Commits(r.dag, remote) && |chances| > |listing|
    requires S.Lists(listing, r.tracking + remote)
    ensures var s := S.RunSync(r, remote, d, listing, chances, luck, note);
      Executes(View(w, r, remote, d, None), SyncSteps(r, remote, d, listing, chances, luck, note),
               View(w, s.repo, s.remote, d, None))
  {
    SyncShape(r, remote, d, listing, chances, luck, note);
    hide EnteredFetched, MergedFetched, Reach, View, Enabled, Apply, Executes, S.RunSync, MergeSteps, S.MergeRefs;
    hide EnsureSteps, Ensured, S.Lists, Listed, S.RefsToMerge;
    var v, s := View(w, r, remote, d, None), S.RunSync(r, remote, d, listing, chances, luck, note);
    if !luck.fetches {
      StandStill(v);
    } else {
      EnteredRefs(r, remote, d);
      var (entered, error) := EnteredFetched(r, remote, d);
      var ensured := r.(refs := Ensured(r, d));
      EnsureIsARun(w, r, remote, d, ensured);
      if error.Some? {
        EnsuredIsValid(r, d);
        FetchIsStep(w, ensured, remote, d);
        SameView(w, S.Fetched(ensured, remote), entered, remote, d, None);
        ExecutesThen(v, EnsureSteps(r, d), View(w, ensured, remote, d, None), [Fetch(d)],
                     View(w, entered, remote, d, None));
      } else {
        MergedShape(r, remote, d, listing, chances, note);
        MergesIs(r, remote, d, listing, chances, note);
        SyncRest(w, r, remote, d, listing, chances, luck, note, ensured);
      }
    }
  }

  lemma StandStill(w: World)
    ensures Executes(w, [], w)
  {
  }

  lemma EnsuredIsValid(r: Repo, d: DeviceId)
    requires Valid(r)
    ensures Valid(r.(refs := Ensured(r, d)))
  {
  }

  lemma SyncRest(w: World, r: Repo, remote: S.Remote, d: DeviceId, listing: seq<string>, chances: seq<S.Chance>,
                 luck: S.Luck, note: S.NoteWriter, ensured: Repo)
    requires Valid(r) && Commits(r.dag, remote) && |chances| > |listing|
    requires S.Lists(listing, r.tracking + remote)
    requires luck.fetches && EnteredFetched(r, remote, d).1 == None
    requires ensured == r.(refs := Ensured(r, d))
    requires Executes(View(w, r, remote, d, None), EnsureSteps(r, d), View(w, ensured, remote, d, None))
    ensures var s := S.RunSync(r, remote, d, listing, chances, luck, note);
      Executes(View(w, r, remote, d, None), SyncSteps(r, remote, d, listing, chances, luck, note),
               View(w, s.repo, s.remote, d, None))
  {
    hide EnteredFetched, MergedFetched, Reach, View, Enabled, Apply, Executes, S.RunSync, MergeSteps, S.MergeRefs;
    hide EnsureSteps, Ensured, S.Lists, Listed, S.RefsToMerge;
    MergedShape(r, remote, d, listing, chances, note);
    MergesIs(r, remote, d, listing, chances, note);
    var v, s := View(w, r, remote, d, None), S.RunSync(r, remote, d, listing, chances, luck, note);
    var entered := EnteredFetched(r, remote, d).0;
    var branches := S.RefsToMerge(entered, listing, OwnBranch(d));
    var merged := MergedFetched(r, remote, d, listing, chances, note).0;
    MergedIsValid(r, remote, d, listing, chances, note);
    var (merges, left) := MergeSteps(entered, branches, chances, note, d);
    var ending := if s.result.Ok? then [Finish(d)] else [Abort(d)];
    ListedRefs(entered, listing, d);
    BeginIsStep(w, ensured, entered, remote, d, branches);
    MergingIsARun(w, entered, remote, d, branches, chances, note);
    AfterMerging(w, r, remote, d, listing, chances, luck, note, left);
    var v1, v2, v3 := View(w, ensured, remote, d, None), View(w, entered, remote, d, Some(branches)),
      View(w, merged, remote, d, Some(left));
    var v4 := View(w, s.repo, s.remote, d, None);
    ExecutesThen(v2, merges, v3, ending, v4);
    ExecutesThen(v1, [Begin(d, branches)], v2, merges + ending, v4);
    ExecutesThen(v, EnsureSteps(r, d), v1, [Begin(d, branches)] + (merges + ending), v4);
  }

  lemma MergedIsValid(r: Repo, remote: S.Remote, d: DeviceId, listing: seq<string>, chances: seq<S.Chance>,
                      note: S.NoteWriter)
    requires Valid(r) && Commits(r.dag, remote) && |chances| > |listing| && EnteredFetched(r, remote, d).1 == None
    ensures Valid(EnteredFetched(r, remote, d).0)
  {
  }

  /** A sync keeps the protocol's invariant. */
  lemma SyncKeepsInv(w: World, r: Repo, remote: S.Remote, d: DeviceId, listing: seq<string>, chances: seq<S.Chance>,
                     luck: S.Luck, note: S.NoteWriter)
    requires Valid(r) && Commits(r.dag, remote) && |chances| > |listing|
    requires S.Lists(listing, r.tracking + remote) && Inv(View(w, r, remote, d, None))
    ensures var s := S.RunSync(r, remote, d, listing, chances, luck, note);
      Inv(View(w, s.repo, s.remote, d, None))
  {
    hide Inv, View, S.RunSync, SyncSteps, Executes, S.Lists;
    SyncIsARun(w, r, remote, d, listing, chances, luck, note);
    var s := S.RunSync(r, remote, d, listing, chances, luck, note);
    ExecutesInv(View(w, r, remote, d, None), SyncSteps(r, remote, d, listing, chances, luck, note),
                View(w, s.repo, s.remote, d, None));
  }

  // A commit on the device's branch

  /** The steps of a commit: perhaps the branch is created, perhaps a commit is made. */
  function CommitSteps(r: Repo, d: DeviceId, paths: seq<string>, signs: bool): seq<Step>
    requires Valid(r)
  {
    var after := CommitToDeviceBranch(r, d, paths, signs).0;
    EnsureSteps(r, d) + (if |after.dag| > |r.dag| then [Write(d, after.dag[|r.dag|].tree)] else [])
  }

  /** No commit was made, or one on top of the device's branch if that exists. */
  predicate AtMostOneCommit(r: Repo, d: DeviceId, after: Repo) {
    && after.tracking == r.tracking
    && (|| (after.dag == r.dag && after.refs == Ensured(r, d))
        || (&& |after.dag| == |r.dag| + 1
            && after.dag == r.dag + [Commit(if OwnBranch(d) in Ensured(r, d) then [Ensured(r, d)[OwnBranch(d)]] else [],
                                            after.dag[|r.dag|].tree)]
            && after.refs == Ensured(r, d)[OwnBranch(d) := |r.dag|]))
  }

  lemma UnbornCommitDag(r: Repo, d: DeviceId, paths: seq<string>, signs: bool)
    requires Valid(r) && HeadCommit(r) == None
    ensures AtMostOneCommit(r, d, CommitToDeviceBranch(r, d, paths, signs).0)
  {
    hide StageAll;
    StagedKeeps(r.(head := OnBranch(OwnBranch(d))), paths);
  }

  /** However the call ends. */
  lemma CommitDagCases(r: Repo, d: DeviceId, paths: seq<string>, signs: bool)
    requires Valid(r)
    ensures AtMostOneCommit(r, d, CommitToDeviceBranch(r, d, paths, signs).0)
  {
    hide EnterDeviceBranch, D.CanEnter, SignedCommit, Restore, SwitchedIndex, SwitchedWork, D.Overwritten;
    if HeadCommit(r) == None {
      UnbornCommitDag(r, d, paths, signs);
    } else {
      D.EnterIff(r, d);
      if D.CanEnter(r, d) {
        var e := D.OnDeviceBranch(r, d);
        D.OnDeviceBranchShape(r, d);
        D.CommitIff(e, d, paths, signs);
        var (c, result) := SignedCommit(e, paths, signs);
        SignedValid(e, paths, signs);
        D.RestoreMovesNothing(c, result, r.head);
      }
    }
  }

  lemma WriteIsStep(w: World, ensured: Repo, after: Repo, remote: S.Remote, d: DeviceId, tree: Tree)
    requires after.tracking == ensured.tracking && after.refs == ensured.refs[OwnBranch(d) := |ensured.dag|]
    requires after.dag
          == ensured.dag + [Commit(if OwnBranch(d) in ensured.refs then [ensured.refs[OwnBranch(d)]] else [], tree)]
    ensures Executes(View(w, ensured, remote, d, None), [Write(d, tree)], View(w, after, remote, d, None))
  {
    var v, l := View(w, ensured, remote, d, None), Local(Some(|ensured.dag|), ensured.tracking, None);
    assert v.devices[d := l] == w.devices[d := l];
    OneStep(v, Write(d, tree));
  }

  /** A commit on the device's branch, however it ends, is a run of the protocol. */
  lemma CommitIsARun(w: World, r: Repo, remote: S.Remote, d: DeviceId, paths: seq<string>, signs: bool)
    requires Valid(r)
    ensures Executes(View(w, r, remote, d, None), CommitSteps(r, d, paths, signs),
                     View(w, CommitToDeviceBranch(r, d, paths, signs).0, remote, d, None))
  {
    hide CommitToDeviceBranch, View, Executes, EnsureSteps, Ensured, Valid;
    CommitDagCases(r, d, paths, signs);
    var after := CommitToDeviceBranch(r, d, paths, signs).0;
    var ensured := r.(refs := Ensured(r, d));
    EnsureIsARun(w, r, remote, d, ensured);
    var v, v1, v2 := View(w, r, remote, d, None), View(w, ensured, remote, d, None), View(w, after, remote, d, None);
    if |after.dag| > |r.dag| {
      var tree := after.dag[|r.dag|].tree;
      WriteIsStep(w, ensured, after, remote, d, tree);
      ExecutesThen(v, EnsureSteps(r, d), v1, [Write(d, tree)], v2);
    } else {
      SameView(w, ensured, after, remote, d, None);
      StandStill(v1);
      ExecutesThen(v, EnsureSteps(r, d), v1, [], v2);
    }
  }

  // Validity

  lemma RestoredIsValid(c: Repo, committed: Result<CommitId, Error>, previous: Head)
    requires Valid(c)
    ensures Valid(Restore(c, committed, previous).0)
  {
    hide CanSwitch, SwitchedIndex, SwitchedWork;
    CheckedOutValid(c, previous);
  }

  lemma CommittedIsValid(r: Repo, d: DeviceId, paths: seq<string>, signs: bool)
    requires Valid(r)
    ensures Valid(CommitToDeviceBranch(r, d, paths, signs).0)
  {
    hide EnterDeviceBranch, SignedCommit, Restore;
    if HeadCommit(r) == None {
      SignedValid(r.(head := OnBranch(OwnBranch(d))), paths, signs);
    } else {
      var (entered, error) := EnterDeviceBranch(r, d);
      SignedValid(entered, paths, signs);
      if error == None {
        var (c, result) := SignedCommit(entered, paths, signs);
        RestoredIsValid(c, result, r.head);
      }
    }
  }

  lemma SyncedIsValid(r: Repo, remote: S.Remote, d: DeviceId, listing: seq<string>, chances: seq<S.Chance>,
                      luck: S.Luck, note: S.NoteWriter)
    requires Valid(r) && Commits(r.dag, remote) && |chances| > |listing|
    ensures Valid(S.RunSync(r, remote, d, listing, chances, luck, note).repo)
  {
    SyncShape(r, remote, d, listing, chances, luck, note);
    hide S.RunSync, MergedFetched, S.PushAccepted;
    assert Valid(EnteredFetched(r, remote, d).0);
  }
}

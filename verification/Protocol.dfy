/**
 The sync protocol as a state machine: any number of devices commit, fetch, merge and push, one git command at a
 time in any order, against one remote (crates/wkp-cli/src/sync_cmd.rs, crates/wkp-git/src/sync.rs and remote.rs).
 */
module Protocol {
  import opened Wrappers
  import opened CommitGraph

  type DeviceId = string

  /** `sync/<device-id>`. */
  function OwnBranch(device: DeviceId): string { "sync/" + device }

  predicate IsSyncBranch(branch: string) { "sync/" <= branch }

  lemma OwnBranchInjective(d: DeviceId, e: DeviceId)
    ensures OwnBranch(d) == OwnBranch(e) ==> d == e
    ensures IsSyncBranch(OwnBranch(d)) && OwnBranch(d) != "main"
  {
    assert OwnBranch(d)[5..] == d && OwnBranch(e)[5..] == e;
    assert OwnBranch(d)[0] == 's';
  }

  /**
   One clone: the tip of its own sync branch if that exists yet, its remote-tracking refs, and while a sync is
   running the refs it still has to merge.
   */
  datatype Local = Local(tip: Option<CommitId>, tracking: map<string, CommitId>, todo: Option<seq<string>>)

  datatype World = World(dag: Dag, remote: map<string, CommitId>, devices: map<DeviceId, Local>)

  datatype Step =
    | Write(d: DeviceId, tree: Tree)            // commit_to_device_branch
    | Ensure(d: DeviceId, at: CommitId)         // the branch is created where HEAD is
    | Fetch(d: DeviceId)                        // fetch, and go no further
    | Begin(d: DeviceId, order: seq<string>)    // fetch, then list the refs to merge
    | Merge(d: DeviceId, tree: Tree)            // git merges the next listed ref
    | Conclude(d: DeviceId, pending: CommitId, tree: Tree) // the next ref is passed over: a stale merge is concluded
    | Finish(d: DeviceId)                       // push
    | Abort(d: DeviceId)                        // any error return
    | MainMoves(at: CommitId)                   // somebody else sets the remote's main
    | Elsewhere(commit: Commit)     // a commit on no sync branch

  /** The refs a sync lists: `main` if it was fetched, and every sync branch but the device's own. */
  ghost predicate Listed(order: seq<string>, tracking: map<string, CommitId>, d: DeviceId) {
    forall b :: b in order <==> b in tracking && (b == "main" || (IsSyncBranch(b) && b != OwnBranch(d)))
  }

  ghost predicate Enabled(w: World, s: Step) {
    match s
    case Write(d, _) => d in w.devices
    case Ensure(d, at) => d in w.devices && w.devices[d].tip == None && at < |w.dag|
    case Fetch(d) => d in w.devices && w.devices[d].todo == None
    case Begin(d, order) =>
      && d in w.devices && w.devices[d].tip.Some? && w.devices[d].todo == None
      && Listed(order, w.devices[d].tracking + w.remote, d)
    case Merge(d, _) => Merging(w, d)
    case Conclude(d, pending, _) => Merging(w, d) && pending < |w.dag|
    case Finish(d) => d in w.devices && w.devices[d].tip.Some? && w.devices[d].todo == Some([])
    case Abort(d) => d in w.devices
    case MainMoves(at) => at < |w.dag|
    case Elsewhere(commit) => forall p :: p in commit.parents ==> p < |w.dag|
  }

  ghost predicate Merging(w: World, d: DeviceId) {
    && d in w.devices && w.devices[d].tip.Some? && w.devices[d].tip.value < |w.dag|
    && w.devices[d].todo.Some? && w.devices[d].todo.value != []
    && w.devices[d].todo.value[0] in w.devices[d].tracking
    && w.devices[d].tracking[w.devices[d].todo.value[0]] < |w.dag|
  }

  function SetDevice(w: World, d: DeviceId, l: Local): World {
    w.(devices := w.devices[d := l])
  }

  /** What `git merge` makes of the commit graph and the tip: nothing, a fast-forward, or a merge commit. */
  function MergeInto(dag: Dag, tip: CommitId, other: CommitId, tree: Tree): (r: (Dag, CommitId))
    requires tip < |dag| && other < |dag|
    ensures dag <= r.0 && r.1 < |r.0|
  {
    if Reach(dag, other, tip) then (dag, tip)
    else if Reach(dag, tip, other) then (dag, other)
    else (dag + [Commit([tip, other], tree)], |dag|)
  }

  ghost function Apply(w: World, s: Step): World
    requires Enabled(w, s)
  {
    match s
    case Write(d, tree) =>
      var l := w.devices[d];
      var parents := if l.tip.Some? then [l.tip.value] else [];
      SetDevice(w.(dag := w.dag + [Commit(parents, tree)]), d, l.(tip := Some(|w.dag|)))
    case Ensure(d, at) => SetDevice(w, d, w.devices[d].(tip := Some(at)))
    case Fetch(d) =>
      var l := w.devices[d];
      SetDevice(w, d, l.(tracking := l.tracking + w.remote))
    case Begin(d, order) =>
      var l := w.devices[d];
      SetDevice(w, d, l.(tracking := l.tracking + w.remote, todo := Some(order)))
    case Merge(d, tree) =>
      var l := w.devices[d];
      var (dag, tip) := MergeInto(w.dag, l.tip.value, l.tracking[l.todo.value[0]], tree);
      SetDevice(w.(dag := dag), d, l.(tip := Some(tip), todo := Some(l.todo.value[1..])))
    case Conclude(d, pending, tree) =>
      var l := w.devices[d];
      SetDevice(w.(dag := w.dag + [Commit([l.tip.value, pending], tree)]), d,
                l.(tip := Some(|w.dag|), todo := Some(l.todo.value[1..])))
    case Finish(d) =>
      var l := w.devices[d];
      SetDevice(w.(remote := w.remote[OwnBranch(d) := l.tip.value]), d,
                l.(tracking := l.tracking[OwnBranch(d) := l.tip.value], todo := None))
    case Abort(d) => SetDevice(w, d, w.devices[d].(todo := None))
    case MainMoves(at) => w.(remote := w.remote["main" := at])
    case Elsewhere(commit) => w.(dag := w.dag + [commit])
  }

  // The invariant

  predicate Commits(dag: Dag, refs: map<string, CommitId>) {
    forall b :: b in refs ==> refs[b] < |dag|
  }

  /** The remote's copy of a device's branch is an ancestor of the device's own. */
  ghost predicate Behind(w: World, d: DeviceId) {
    d in w.devices && OwnBranch(d) in w.remote ==>
      && w.devices[d].tip.Some?
      && w.devices[d].tip.value < |w.dag|
      && Reach(w.dag, w.remote[OwnBranch(d)], w.devices[d].tip.value)
  }

  predicate ValidLocal(dag: Dag, l: Local) {
    && (l.tip.Some? ==> l.tip.value < |dag|)
    && Commits(dag, l.tracking)
    && (l.todo.Some? ==> l.tip.Some? && forall b :: b in l.todo.value ==> b in l.tracking)
  }

  ghost predicate Inv(w: World) {
    && Commits(w.dag, w.remote)
    && (forall d :: d in w.devices ==> ValidLocal(w.dag, w.devices[d]))
    && (forall d :: Behind(w, d))
  }

  /** A fresh start: clones without a sync branch, and a remote that has none of theirs. */
  ghost predicate Init(w: World) {
    && Commits(w.dag, w.remote)
    && (forall d :: d in w.devices ==>
          && w.devices[d].tip == None && w.devices[d].todo == None
          && Commits(w.dag, w.devices[d].tracking)
          && OwnBranch(d) !in w.remote)
  }

  lemma InitInv(w: World)
    requires Init(w)
    ensures Inv(w)
  {
  }

  /** The tip a step leaves a device with, when it had one. */
  ghost predicate TipGrows(w: World, w': World, d: DeviceId)
    requires w.dag <= w'.dag
  {
    d in w.devices && w.devices[d].tip.Some? && w.devices[d].tip.value < |w.dag| ==>
      && d in w'.devices && w'.devices[d].tip.Some?
      && w'.devices[d].tip.value < |w'.dag|
      && Reach(w'.dag, w.devices[d].tip.value, w'.devices[d].tip.value)
  }

  lemma MergeIntoReaches(dag: Dag, tip: CommitId, other: CommitId, tree: Tree)
    requires tip < |dag| && other < |dag|
    ensures var (more, result) := MergeInto(dag, tip, other, tree);
      Reach(more, tip, result) && Reach(more, other, result)
  {
    if !Reach(dag, other, tip) && !Reach(dag, tip, other) {
      var c := Commit([tip, other], tree);
      assert tip in c.parents && other in c.parents;
      NewCommitReach(dag, c, tip);
      NewCommitReach(dag, c, other);
    }
  }

  lemma ChildReaches(dag: Dag, c: Commit, p: CommitId)
    requires p in c.parents && forall q :: q in c.parents ==> q < |dag|
    ensures Reach(dag + [c], p, |dag|)
  {
    NewCommitReach(dag, c, p);
  }

  /** A step changes at most one device, and moves its tip only forward. */
  lemma StepGrows(w: World, s: Step)
    requires Inv(w) && Enabled(w, s)
    ensures w.dag <= Apply(w, s).dag
    ensures forall d :: TipGrows(w, Apply(w, s), d)
    ensures Apply(w, s).devices.Keys == w.devices.Keys
  {
    hide MergeInto;
    var w' := Apply(w, s);
    forall d ensures TipGrows(w, w', d) {
      if d in w.devices && w.devices[d].tip.Some? {
        var tip := w.devices[d].tip.value;
        match s
        case Write(e, tree) =>
          if d == e { ChildReaches(w.dag, Commit([tip], tree), tip); }
        case Merge(e, tree) =>
          if d == e { MergeIntoReaches(w.dag, tip, w.devices[d].tracking[w.devices[d].todo.value[0]], tree); }
        case Conclude(e, pending, tree) =>
          if d == e { ChildReaches(w.dag, Commit([tip, pending], tree), tip); }
        case _ =>
      }
    }
  }

  lemma TrackingStays(w: World, s: Step, d: DeviceId)
    requires Inv(w) && Enabled(w, s) && d in w.devices
    ensures d in Apply(w, s).devices && ValidLocal(Apply(w, s).dag, Apply(w, s).devices[d])
  {
    hide MergeInto;
    assert ValidLocal(w.dag, w.devices[d]);
    match s
    case Merge(e, tree) =>
      if d == e {
        assert forall b :: b in w.devices[d].todo.value[1..] ==> b in w.devices[d].todo.value;
      }
    case Conclude(e, pending, tree) =>
      if d == e {
        assert forall b :: b in w.devices[d].todo.value[1..] ==> b in w.devices[d].todo.value;
      }
    case _ =>
  }

  lemma BehindStays(w: World, s: Step, d: DeviceId)
    requires Inv(w) && Enabled(w, s)
    ensures Behind(Apply(w, s), d)
  {
    hide MergeInto, ValidLocal, Commits, Listed;
    var w' := Apply(w, s);
    OwnBranchInjective(d, d);
    StepGrows(w, s);
    if d in w'.devices && OwnBranch(d) in w'.remote {
      assert ValidTip(w, d) by { TipIsCommit(w, d); }
      assert Behind(w, d);
      assert TipGrows(w, w', d);
      if s.Finish? {
        OwnBranchInjective(d, s.d);
        if d != s.d { assert OwnBranch(d) in w.remote; }
      } else {
        assert OwnBranch(d) in w.remote && w'.remote[OwnBranch(d)] == w.remote[OwnBranch(d)];
        var tip, tip' := w.devices[d].tip.value, w'.devices[d].tip.value;
        ReachStable(w.dag, w'.dag, w.remote[OwnBranch(d)], tip);
        ReachTransitive(w'.dag, w.remote[OwnBranch(d)], tip, tip');
      }
    }
  }

  predicate ValidTip(w: World, d: DeviceId) {
    d in w.devices && w.devices[d].tip.Some? ==> w.devices[d].tip.value < |w.dag|
  }

  lemma TipIsCommit(w: World, d: DeviceId)
    requires Inv(w)
    ensures ValidTip(w, d)
  {
  }

  /** Every step keeps the invariant. */
  lemma StepInv(w: World, s: Step)
    requires Inv(w) && Enabled(w, s)
    ensures Inv(Apply(w, s))
  {
    hide MergeInto, ValidLocal, Behind, Listed;
    var w' := Apply(w, s);
    StepGrows(w, s);
    forall d ensures Behind(w', d) { BehindStays(w, s, d); }
    forall d | d in w'.devices ensures ValidLocal(w'.dag, w'.devices[d]) { TrackingStays(w, s, d); }
    if s.Finish? { TipIsCommit(w, s.d); }
  }

  // Runs

  ghost predicate IsRun(run: seq<World>, steps: seq<Step>) {
    && |run| == |steps| + 1
    && Inv(run[0])
    && forall i :: 0 <= i < |steps| ==> Enabled(run[i], steps[i]) && run[i + 1] == Apply(run[i], steps[i])
  }

  /** The invariant holds in every world of every run, and commits are only ever added. */
  lemma {:induction false} RunInv(run: seq<World>, steps: seq<Step>, i: nat)
    requires IsRun(run, steps) && i < |run|
    ensures Inv(run[i]) && run[0].dag <= run[i].dag
    ensures run[i].devices.Keys == run[0].devices.Keys
    decreases i
  {
    hide Inv, Enabled;
    if i > 0 {
      RunInv(run, steps, i - 1);
      assert Enabled(run[i - 1], steps[i - 1]) && run[i] == Apply(run[i - 1], steps[i - 1]);
      StepInv(run[i - 1], steps[i - 1]);
      StepGrows(run[i - 1], steps[i - 1]);
    }
  }

  lemma {:induction false} DagGrows(run: seq<World>, steps: seq<Step>, i: nat, j: nat)
    requires IsRun(run, steps) && i <= j < |run|
    ensures run[i].dag <= run[j].dag
    decreases j - i
  {
    hide Inv, Enabled;
    if i < j {
      DagGrows(run, steps, i, j - 1);
      RunInv(run, steps, j - 1);
      assert Enabled(run[j - 1], steps[j - 1]) && run[j] == Apply(run[j - 1], steps[j - 1]);
      StepGrows(run[j - 1], steps[j - 1]);
    }
  }

  /** A device's tip only moves forward over any stretch of any run. */
  lemma {:induction false} TipGrowsOverRun(run: seq<World>, steps: seq<Step>, i: nat, j: nat, d: DeviceId)
    requires IsRun(run, steps) && i <= j < |run|
    requires d in run[i].devices && run[i].devices[d].tip.Some?
    ensures run[i].dag <= run[j].dag
    ensures d in run[j].devices && run[j].devices[d].tip.Some?
    ensures run[i].devices[d].tip.value < |run[i].dag| && run[j].devices[d].tip.value < |run[j].dag|
    ensures Reach(run[j].dag, run[i].devices[d].tip.value, run[j].devices[d].tip.value)
    decreases j - i
  {
    hide Enabled, Apply, ValidLocal, Behind;
    RunInv(run, steps, i);
    TipIsCommit(run[i], d);
    if i < j {
      TipGrowsOverRun(run, steps, i, j - 1, d);
      RunInv(run, steps, j - 1);
      RunInv(run, steps, j);
      assert Enabled(run[j - 1], steps[j - 1]) && run[j] == Apply(run[j - 1], steps[j - 1]);
      StepGrows(run[j - 1], steps[j - 1]);
      assert TipGrows(run[j - 1], run[j], d);
      var a, b, c := run[i].devices[d].tip.value, run[j - 1].devices[d].tip.value, run[j].devices[d].tip.value;
      ReachStable(run[j - 1].dag, run[j].dag, a, b);
      ReachTransitive(run[j].dag, a, b, c);
    }
  }

  /** In every world of every run a push of a sync branch is a fast-forward, so it needs no force. */
  lemma PushIsFastForward(run: seq<World>, steps: seq<Step>, i: nat, d: DeviceId)
    requires IsRun(run, steps) && i < |steps| && steps[i] == Finish(d)
    ensures d in run[i].devices && run[i].devices[d].tip.Some? && run[i].devices[d].tip.value < |run[i].dag|
    ensures OwnBranch(d) in run[i].remote ==>
      Reach(run[i].dag, run[i].remote[OwnBranch(d)], run[i].devices[d].tip.value)
    ensures run[i + 1].remote == run[i].remote[OwnBranch(d) := run[i].devices[d].tip.value]
  {
    hide Inv, MergeInto;
    RunInv(run, steps, i);
    assert Enabled(run[i], steps[i]);
    assert Behind(run[i], d) && ValidTip(run[i], d) by { InvAt(run[i], d); }
  }

  lemma InvAt(w: World, d: DeviceId)
    requires Inv(w)
    ensures Behind(w, d) && ValidTip(w, d) && Commits(w.dag, w.remote)
  {
  }

  /** What a remote sync branch of a device reaches is never lost, in any run. */
  lemma {:induction false} RemoteGrows(run: seq<World>, steps: seq<Step>, i: nat, j: nat, d: DeviceId)
    requires IsRun(run, steps) && i <= j < |run|
    requires d in run[i].devices && OwnBranch(d) in run[i].remote
    ensures run[i].dag <= run[j].dag && OwnBranch(d) in run[j].remote
    ensures run[j].remote[OwnBranch(d)] < |run[j].dag|
    ensures Reach(run[j].dag, run[i].remote[OwnBranch(d)], run[j].remote[OwnBranch(d)])
    decreases j - i
  {
    hide Inv, Enabled, Apply;
    RunInv(run, steps, i);
    RunInv(run, steps, j);
    InvAt(run[i], d);
    InvAt(run[j], d);
    if i < j {
      RemoteGrows(run, steps, i, j - 1, d);
      RunInv(run, steps, j - 1);
      var w, w', s := run[j - 1], run[j], steps[j - 1];
      assert Enabled(w, s) && w' == Apply(w, s);
      StepGrows(w, s);
      RemoteStep(w, s, d);
      var a, b, c := run[i].remote[OwnBranch(d)], w.remote[OwnBranch(d)], w'.remote[OwnBranch(d)];
      ReachStable(w.dag, w'.dag, a, b);
      ReachTransitive(w'.dag, a, b, c);
    }
  }

  lemma RemoteStep(w: World, s: Step, d: DeviceId)
    requires Inv(w) && Enabled(w, s) && d in w.devices && OwnBranch(d) in w.remote
    ensures var w' := Apply(w, s);
      && w.dag <= w'.dag && OwnBranch(d) in w'.remote && w'.remote[OwnBranch(d)] < |w'.dag|
      && Reach(w'.dag, w.remote[OwnBranch(d)], w'.remote[OwnBranch(d)])
  {
    hide Inv, MergeInto, ValidLocal, Listed;
    InvAt(w, d);
    StepGrows(w, s);
    OwnBranchInjective(d, d);
    var w' := Apply(w, s);
    if s.Finish? {
      OwnBranchInjective(d, s.d);
    }
  }
}

/**
 Convergence of the sync protocol: how many rounds of syncing bring every commit to every device.
 */
module Convergence {
  import opened Wrappers
  import opened CommitGraph
  import opened Protocol

  /** Device `d` syncs from its fetch at step `k` to its push at step `m` without giving up or passing over a ref. */
  predicate CleanSync(steps: seq<Step>, d: DeviceId, k: nat, m: nat) {
    && k < m < |steps|
    && steps[k].Begin? && steps[k].d == d
    && steps[m] == Finish(d)
    && forall i :: k < i < m ==> !Interrupts(steps[i], d)
  }

  predicate Interrupts(s: Step, d: DeviceId) {
    (s.Begin? || s.Abort? || s.Conclude? || s.Finish?) && s.d == d
  }

  /** While `d` merges: every listed ref is still to come or already behind the tip. */
  ghost predicate Merged(w: World, d: DeviceId, order: seq<string>, fetched: map<string, CommitId>) {
    && d in w.devices && w.devices[d].tip.Some? && w.devices[d].tip.value < |w.dag|
    && w.devices[d].todo.Some?
    && w.devices[d].tracking == fetched
    && (forall b :: b in order ==> b in fetched && fetched[b] < |w.dag|)
    && (forall b :: b in order ==> b in w.devices[d].todo.value || Reach(w.dag, fetched[b], w.devices[d].tip.value))
  }

  lemma MergedStep(w: World, s: Step, d: DeviceId, order: seq<string>, fetched: map<string, CommitId>)
    requires Inv(w) && Enabled(w, s) && !Interrupts(s, d) && Merged(w, d, order, fetched)
    ensures Merged(Apply(w, s), d, order, fetched)
  {
    hide MergeInto, Inv;
    var w' := Apply(w, s);
    StepGrows(w, s);
    assert TipGrows(w, w', d);
    var l, l' := w.devices[d], w'.devices[d];
    var tip, tip' := l.tip.value, l'.tip.value;
    assert l'.tracking == fetched;
    forall b | b in order
      ensures fetched[b] < |w'.dag| && (b in l'.todo.value || Reach(w'.dag, fetched[b], tip'))
    {
      if Reach(w.dag, fetched[b], tip) {
        ReachStable(w.dag, w'.dag, fetched[b], tip);
        ReachTransitive(w'.dag, fetched[b], tip, tip');
      } else if s.Merge? && s.d == d && b == l.todo.value[0] {
        MergeIntoReaches(w.dag, tip, fetched[b], s.tree);
      } else {
        assert b in l.todo.value;
        if s.Merge? && s.d == d {
          assert l.todo.value == [l.todo.value[0]] + l.todo.value[1..];
          assert b in l.todo.value[1..];
        }
      }
    }
  }

  lemma {:induction false} MergedAlong(run: seq<World>, steps: seq<Step>, d: DeviceId, k: nat, m: nat, i: nat)
    requires IsRun(run, steps) && CleanSync(steps, d, k, m) && k < i <= m
    ensures d in run[k].devices
    ensures Merged(run[i], d, steps[k].order, run[k].devices[d].tracking + run[k].remote)
    decreases i
  {
    hide Inv, Apply;
    assert Enabled(run[i - 1], steps[i - 1]) && run[i] == Apply(run[i - 1], steps[i - 1]);
    RunInv(run, steps, i - 1);
    if i == k + 1 {
      assert steps[k] == Begin(d, steps[k].order);
      MergedFirst(run[k], d, steps[k].order);
    } else {
      MergedAlong(run, steps, d, k, m, i - 1);
      MergedStep(run[i - 1], steps[i - 1], d, steps[k].order, run[k].devices[d].tracking + run[k].remote);
    }
  }

  lemma MergedFirst(w: World, d: DeviceId, order: seq<string>)
    requires Inv(w) && Enabled(w, Begin(d, order))
    ensures Merged(Apply(w, Begin(d, order)), d, order, w.devices[d].tracking + w.remote)
  {
    hide Behind;
    assert ValidLocal(w.dag, w.devices[d]);
  }

  /** A clean sync leaves the tip of `d` above every other device's branch as it was on the remote at the fetch. */
  lemma SyncReaches(run: seq<World>, steps: seq<Step>, d: DeviceId, k: nat, m: nat, e: DeviceId)
    requires IsRun(run, steps) && CleanSync(steps, d, k, m)
    requires e != d && OwnBranch(e) in run[k].remote
    ensures d in run[m].devices && run[m].devices[d].tip.Some? && run[m].devices[d].tip.value < |run[m].dag|
    ensures run[k].remote[OwnBranch(e)] < |run[m].dag|
    ensures Reach(run[m].dag, run[k].remote[OwnBranch(e)], run[m].devices[d].tip.value)
  {
    hide Inv, Apply;
    MergedAlong(run, steps, d, k, m, m);
    assert Enabled(run[k], steps[k]) && Enabled(run[m], steps[m]);
    OwnBranchInjective(e, d);
    var fetched := run[k].devices[d].tracking + run[k].remote;
    assert Listed(steps[k].order, fetched, d);
    assert OwnBranch(e) in fetched && fetched[OwnBranch(e)] == run[k].remote[OwnBranch(e)];
    assert OwnBranch(e) in steps[k].order;
    assert run[m].devices[d].todo == Some([]);
  }

  /**
   If `e` pushed after time `t` and `d` then starts and completes a clean sync, the tip of `d` reaches everything
   that `e` had committed by time `t`.
   */
  lemma PushThenSync(run: seq<World>, steps: seq<Step>, t: nat, e: DeviceId, j: nat, d: DeviceId, k: nat, m: nat)
    requires IsRun(run, steps) && t <= j < k && j < |steps| && steps[j] == Finish(e) && CleanSync(steps, d, k, m)
    requires e in run[t].devices && run[t].devices[e].tip.Some?
    ensures run[t].devices[e].tip.value < |run[m].dag|
    ensures d in run[m].devices && run[m].devices[d].tip.Some? && run[m].devices[d].tip.value < |run[m].dag|
    ensures Reach(run[m].dag, run[t].devices[e].tip.value, run[m].devices[d].tip.value)
  {
    hide Inv, Apply, Enabled, CleanSync;
    assert k < m < |steps| by { CleanSyncBounds(steps, d, k, m); }
    var early := run[t].devices[e].tip.value;
    if e == d {
      TipGrowsOverRun(run, steps, t, m, d);
    } else {
      TipGrowsOverRun(run, steps, t, j, e);
      PushIsFastForward(run, steps, j, e);
      RunInv(run, steps, j);
      RunInv(run, steps, j + 1);
      var pushed := run[j].devices[e].tip.value;
      RemoteGrows(run, steps, j + 1, k, e);
      SyncReaches(run, steps, d, k, m, e);
      DagGrows(run, steps, j, m);
      DagGrows(run, steps, k, m);
      ReachStable(run[j].dag, run[m].dag, early, pushed);
      var seen := run[k].remote[OwnBranch(e)];
      ReachStable(run[k].dag, run[m].dag, pushed, seen);
      ReachTransitive(run[m].dag, pushed, seen, run[m].devices[d].tip.value);
      ReachTransitive(run[m].dag, early, pushed, run[m].devices[d].tip.value);
    }
  }

  lemma CleanSyncBounds(steps: seq<Step>, d: DeviceId, k: nat, m: nat)
    requires CleanSync(steps, d, k, m)
    ensures k < m < |steps| && steps[m] == Finish(d)
  {
  }

  /** Every device completes a push between the times `t` and `k`. */
  ghost predicate Round(steps: seq<Step>, devices: set<DeviceId>, t: nat, k: nat) {
    k <= |steps| && forall e :: e in devices ==> exists j :: t <= j < k && steps[j] == Finish(e)
  }

  /** The tip of `d` in world `late` reaches the tip that every device had in world `early`. */
  ghost predicate ReachesAll(early: World, late: World, d: DeviceId) {
    && d in late.devices && late.devices[d].tip.Some? && late.devices[d].tip.value < |late.dag|
    && forall e :: e in early.devices && early.devices[e].tip.Some? ==>
         Reach(late.dag, early.devices[e].tip.value, late.devices[d].tip.value)
  }

  /** After one round of pushes, one clean sync of any device brings it every commit made before the round. */
  lemma OneMoreSyncReachesAll(run: seq<World>, steps: seq<Step>, t: nat, d: DeviceId, k: nat, m: nat)
    requires IsRun(run, steps) && t <= k && CleanSync(steps, d, k, m)
    requires Round(steps, run[t].devices.Keys, t, k)
    ensures ReachesAll(run[t], run[m], d)
  {
    hide Inv, Apply, Enabled;
    MergedAlong(run, steps, d, k, m, m);
    forall e | e in run[t].devices && run[t].devices[e].tip.Some?
      ensures Reach(run[m].dag, run[t].devices[e].tip.value, run[m].devices[d].tip.value)
    {
      assert e in run[t].devices.Keys;
      var j :| t <= j < k && steps[j] == Finish(e);
      PushThenSync(run, steps, t, e, j, d, k, m);
    }
  }

  /** Every device completes a clean sync inside the stretch from `k` to `n`. */
  ghost predicate CleanRound(steps: seq<Step>, devices: set<DeviceId>, k: nat, n: nat) {
    n <= |steps| && forall d :: d in devices ==> exists i: nat, m: nat :: k <= i && m < n && CleanSync(steps, d, i, m)
  }

  /** Two rounds bring every commit made before them to every device, and it stays there. */
  lemma TwoRoundsConverge(run: seq<World>, steps: seq<Step>, t: nat, k: nat, n: nat)
    requires IsRun(run, steps) && t <= k <= n < |run|
    requires Round(steps, run[t].devices.Keys, t, k)
    requires CleanRound(steps, run[t].devices.Keys, k, n)
    ensures forall d :: d in run[t].devices ==> ReachesAll(run[t], run[n], d)
  {
    hide Inv, Apply, Enabled, CleanSync;
    forall d | d in run[t].devices ensures ReachesAll(run[t], run[n], d) {
      assert d in run[t].devices.Keys;
      var i: nat, m: nat :| k <= i && m < n && CleanSync(steps, d, i, m);
      assert i < m < |steps| by { CleanSyncBounds(steps, d, i, m); }
      assert Round(steps, run[t].devices.Keys, t, i) by { RoundLonger(steps, run[t].devices.Keys, t, k, i); }
      OneMoreSyncReachesAll(run, steps, t, d, i, m);
      TipGrowsOverRun(run, steps, m, n, d);
      StaysReached(run[t], run[m], run[n], d);
    }
  }

  lemma RoundLonger(steps: seq<Step>, devices: set<DeviceId>, t: nat, k: nat, i: nat)
    requires Round(steps, devices, t, k) && k <= i <= |steps|
    ensures Round(steps, devices, t, i)
  {
  }

  lemma StaysReached(early: World, mid: World, late: World, d: DeviceId)
    requires ReachesAll(early, mid, d) && mid.dag <= late.dag
    requires d in late.devices && late.devices[d].tip.Some? && late.devices[d].tip.value < |late.dag|
    requires Reach(late.dag, mid.devices[d].tip.value, late.devices[d].tip.value)
    ensures ReachesAll(early, late, d)
  {
    forall e | e in early.devices && early.devices[e].tip.Some?
      ensures Reach(late.dag, early.devices[e].tip.value, late.devices[d].tip.value)
    {
      ReachStable(mid.dag, late.dag, early.devices[e].tip.value, mid.devices[d].tip.value);
      ReachTransitive(late.dag, early.devices[e].tip.value, mid.devices[d].tip.value, late.devices[d].tip.value);
    }
  }

  // One round is not enough

  const A := "a"
  const B := "b"

  function Fresh(): Local { Local(None, map[], None) }

  function Start(): World { World([], map[], map[A := Fresh(), B := Fresh()]) }

  /** Both devices commit, then `a` syncs, then `b` does. */
  const ROUND: seq<Step> := [Write(A, map[]), Write(B, map[]), Begin(A, []), Finish(A), Begin(B, ["sync/a"]),
                             Merge(B, map[]), Finish(B)]

  function AfterWrites(): World {
    World([Commit([], map[]), Commit([], map[])], map[],
          map[A := Local(Some(0), map[], None), B := Local(Some(1), map[], None)])
  }

  function AfterA(): World {
    World([Commit([], map[]), Commit([], map[])], map["sync/a" := 0],
          map[A := Local(Some(0), map["sync/a" := 0], None), B := Local(Some(1), map[], None)])
  }

  function AfterB(): World {
    World([Commit([], map[]), Commit([], map[]), Commit([1, 0], map[])], map["sync/a" := 0, "sync/b" := 2],
          map[A := Local(Some(0), map["sync/a" := 0], None),
              B := Local(Some(2), map["sync/a" := 0, "sync/b" := 2], None)])
  }

  /** The worlds of that run. */
  function RoundRun(): seq<World> {
    var w1 := World([Commit([], map[])], map[], map[A := Local(Some(0), map[], None), B := Fresh()]);
    var w3 := SetDevice(AfterWrites(), A, Local(Some(0), map[], Some([])));
    var w5 := SetDevice(AfterA(), B, Local(Some(1), map["sync/a" := 0], Some(["sync/a"])));
    var w6 := SetDevice(AfterB().(remote := map["sync/a" := 0]), B, Local(Some(2), map["sync/a" := 0], Some([])));
    [Start(), w1, AfterWrites(), w3, AfterA(), w5, w6, AfterB()]
  }

  lemma RoundIsRun()
    ensures IsRun(RoundRun(), ROUND)
  {
    assert OwnBranch(A) == "sync/a" && OwnBranch(B) == "sync/b" && A != B;
    var run := RoundRun();
    InitInv(Start());
    forall i | 0 <= i < |ROUND| ensures Enabled(run[i], ROUND[i]) && run[i + 1] == Apply(run[i], ROUND[i]) {
      if i < 2 { FirstStepsOfRound(i); } else if i < 4 { MiddleStepsOfRound(i); } else { LastStepsOfRound(i); }
    }
  }

  lemma FirstStepsOfRound(i: nat)
    requires i < 2
    ensures Enabled(RoundRun()[i], ROUND[i]) && RoundRun()[i + 1] == Apply(RoundRun()[i], ROUND[i])
  {
    assert A != B;
  }

  lemma MiddleStepsOfRound(i: nat)
    requires 2 <= i < 4
    ensures Enabled(RoundRun()[i], ROUND[i]) && RoundRun()[i + 1] == Apply(RoundRun()[i], ROUND[i])
  {
    assert OwnBranch(A) == "sync/a" && A != B;
  }

  lemma LastStepsOfRound(i: nat)
    requires 4 <= i < 7
    ensures Enabled(RoundRun()[i], ROUND[i]) && RoundRun()[i + 1] == Apply(RoundRun()[i], ROUND[i])
  {
    assert OwnBranch(A) == "sync/a" && OwnBranch(B) == "sync/b" && A != B && "sync/a" != "sync/b";
    assert ["sync/a"][1..] == [];
    if i == 4 {
      assert map[] + map["sync/a" := 0 as CommitId] == map["sync/a" := 0];
      assert Listed(["sync/a"], map["sync/a" := 0], B);
    } else if i == 5 {
      var dag := AfterA().dag;
      assert !Reach(dag, 0, 1) && !Reach(dag, 1, 0);
      assert dag + [Commit([1, 0], map[])] == AfterB().dag;
    }
  }

  /** A whole round after the last commit, by both devices, and still `a` lacks what `b` committed. */
  lemma OneRoundIsNotEnough()
    ensures IsRun(RoundRun(), ROUND)
    ensures Round(ROUND, RoundRun()[2].devices.Keys, 2, 7)
    ensures !ReachesAll(RoundRun()[2], RoundRun()[7], A)
  {
    hide IsRun, Reach;
    RoundIsRun();
    OlderLacksNewer();
    assert ROUND[3] == Finish(A) && ROUND[6] == Finish(B);
    assert RoundRun()[7] == AfterB() && RoundRun()[2] == AfterWrites();
    hide RoundRun;
    assert A != B && AfterWrites().devices[B].tip == Some(1) && AfterB().devices[A].tip == Some(0);
  }

  lemma OlderLacksNewer()
    ensures !Reach(AfterB().dag, 1, 0)
  {
    if Reach(AfterB().dag, 1, 0) { ReachOlder(AfterB().dag, 1, 0); }
  }
}

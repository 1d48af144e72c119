/**
 Any number of devices and one remote, with syncs, commits and the work of users in between, in any order: the invariant
 of the protocol holds after every command, so no push is ever rejected.
 */
module Fleet {
  import opened Wrappers
  import opened CommitGraph
  import opened Git
  import opened Protocol
  import opened DeviceBranch
  import opened SyncProtocol
  import opened Refinement
  import S = Sync

  /** The clones share one store of commits, which every push and fetch keeps complete where it matters. */
  datatype Fleet = Fleet(store: Dag, clones: map<DeviceId, Repo>, remote: S.Remote)

  /** What happens: the two commands, and what users do with git and their files in between. */
  datatype Command =
    | SyncOn(d: DeviceId, listing: seq<string>, chances: seq<S.Chance>, luck: S.Luck)
    | CommitOn(d: DeviceId, paths: seq<string>, signs: bool)
    | EditOn(d: DeviceId, edited: Repo)          // files, index, HEAD, conflicts, other branches, an unfinished merge
    | WriteOn(d: DeviceId, tree: Tree)           // a commit by hand on the device's own branch
    | FetchOn(d: DeviceId)                       // a fetch by hand
    | CommitElsewhere(commit: Commit)            // a commit on no sync branch
    | MainMovesTo(at: CommitId)                  // somebody else sets the remote's main

  function CloneOf(f: Fleet, d: DeviceId): Repo
    requires d in f.clones
  {
    f.clones[d].(dag := f.store)
  }

  predicate ValidFleet(f: Fleet) {
    Commits(f.store, f.remote) && forall d :: d in f.clones ==> Valid(CloneOf(f, d))
  }

  function WorldOf(f: Fleet): World {
    World(f.store, f.remote, map d | d in f.clones :: Local(OwnTip(f.clones[d], d), f.clones[d].tracking, None))
  }

  predicate Runs(f: Fleet, c: Command) {
    match c
    case SyncOn(d, listing, chances, _) => d in f.clones && |chances| > |listing|
    case CommitOn(d, _, _) => d in f.clones
    case EditOn(d, _) => d in f.clones
    case WriteOn(d, _) => d in f.clones
    case FetchOn(d) => d in f.clones
    case CommitElsewhere(_) => true
    case MainMovesTo(_) => true
  }

  /** Any edit but of the device's own branch, of what was fetched and of the commits there are. */
  predicate Edits(r: Repo, edited: Repo, d: DeviceId) {
    Valid(edited) && edited.dag == r.dag && edited.tracking == r.tracking && OwnTip(edited, d) == OwnTip(r, d)
  }

  /** What the environment may choose for a command: the listing is git's, and commits are those there are. */
  ghost predicate Possible(f: Fleet, c: Command) {
    && Runs(f, c)
    && match c
       case SyncOn(d, listing, _, _) => S.Lists(listing, f.clones[d].tracking + f.remote)
       case CommitOn(_, _, _) => true
       case EditOn(d, edited) => Edits(CloneOf(f, d), edited, d)
       case WriteOn(_, _) => true
       case FetchOn(_) => true
       case CommitElsewhere(commit) => forall p :: p in commit.parents ==> p < |f.store|
       case MainMovesTo(at) => at < |f.store|
  }

  /** A new commit on the device's own branch, on top of what is there. */
  function Written(r: Repo, d: DeviceId, tree: Tree): Repo {
    var parents := match OwnTip(r, d) case Some(tip) => [tip] case None => [];
    r.(dag := r.dag + [Commit(parents, tree)], refs := r.refs[OwnBranch(d) := |r.dag|])
  }

  function Run(f: Fleet, c: Command, note: S.NoteWriter): Fleet
    requires ValidFleet(f) && Runs(f, c)
  {
    match c
    case SyncOn(d, listing, chances, luck) =>
      var s := S.RunSync(CloneOf(f, d), f.remote, d, listing, chances, luck, note);
      Fleet(s.repo.dag, f.clones[d := s.repo], s.remote)
    case CommitOn(d, paths, signs) =>
      var after := CommitToDeviceBranch(CloneOf(f, d), d, paths, signs).0;
      Fleet(after.dag, f.clones[d := after], f.remote)
    case EditOn(d, edited) => f.(clones := f.clones[d := edited])
    case WriteOn(d, tree) =>
      var after := Written(CloneOf(f, d), d, tree);
      Fleet(after.dag, f.clones[d := after], f.remote)
    case FetchOn(d) => f.(clones := f.clones[d := S.Fetched(CloneOf(f, d), f.remote)])
    case CommitElsewhere(commit) => f.(store := f.store + [commit])
    case MainMovesTo(at) => f.(remote := f.remote["main" := at])
  }

  function StepsOf(f: Fleet, c: Command, note: S.NoteWriter): seq<Step>
    requires ValidFleet(f) && Runs(f, c)
  {
    match c
    case SyncOn(d, listing, chances, luck) => SyncSteps(CloneOf(f, d), f.remote, d, listing, chances, luck, note)
    case CommitOn(d, paths, signs) => CommitSteps(CloneOf(f, d), d, paths, signs)
    case EditOn(_, _) => []
    case WriteOn(d, tree) => [Write(d, tree)]
    case FetchOn(d) => [Fetch(d)]
    case CommitElsewhere(commit) => [Elsewhere(commit)]
    case MainMovesTo(at) => [MainMoves(at)]
  }

  lemma ViewOfClone(f: Fleet, d: DeviceId)
    requires d in f.clones
    ensures View(WorldOf(f), CloneOf(f, d), f.remote, d, None) == WorldOf(f)
  {
    var w := WorldOf(f);
    assert w.devices[d := Local(OwnTip(CloneOf(f, d), d), CloneOf(f, d).tracking, None)] == w.devices;
  }

  lemma ViewOfChanged(f: Fleet, d: DeviceId, after: Repo, remote: S.Remote)
    ensures View(WorldOf(f), after, remote, d, None) == WorldOf(Fleet(after.dag, f.clones[d := after], remote))
  {
    var w, w' := WorldOf(f), WorldOf(Fleet(after.dag, f.clones[d := after], remote));
    assert w.devices[d := Local(OwnTip(after, d), after.tracking, None)] == w'.devices;
  }

  lemma StillValid(f: Fleet, d: DeviceId, after: Repo, remote: S.Remote)
    requires ValidFleet(f) && Valid(after) && f.store <= after.dag && Commits(after.dag, remote)
    ensures ValidFleet(Fleet(after.dag, f.clones[d := after], remote))
  {
    var g := Fleet(after.dag, f.clones[d := after], remote);
    forall e | e in g.clones ensures Valid(CloneOf(g, e)) {
      if e == d { assert CloneOf(g, e) == after; } else { assert Valid(CloneOf(f, e)); }
    }
  }

  lemma WriteIsAStep(f: Fleet, d: DeviceId, tree: Tree, note: S.NoteWriter)
    requires ValidFleet(f) && d in f.clones
    ensures Enabled(WorldOf(f), Write(d, tree))
    ensures Apply(WorldOf(f), Write(d, tree)) == WorldOf(Run(f, WriteOn(d, tree), note))
  {
    var w, after := WorldOf(f), Written(CloneOf(f, d), d, tree);
    ViewOfClone(f, d);
    ViewOfChanged(f, d, after, f.remote);
    WrittenView(w, CloneOf(f, d), f.remote, d, tree);
    hide WorldOf, Written;
    assert Fleet(after.dag, f.clones[d := after], f.remote) == Run(f, WriteOn(d, tree), note);
  }

  lemma WrittenView(w: World, r: Repo, remote: S.Remote, d: DeviceId, tree: Tree)
    ensures var v := View(w, r, remote, d, None);
      Enabled(v, Write(d, tree)) && Apply(v, Write(d, tree)) == View(w, Written(r, d, tree), remote, d, None)
  {
    var v, after := View(w, r, remote, d, None), Written(r, d, tree);
    assert Apply(v, Write(d, tree)).dag == after.dag;
    assert OwnTip(after, d) == Some(|r.dag|);
  }

  lemma FetchIsAStep(f: Fleet, d: DeviceId, note: S.NoteWriter)
    requires ValidFleet(f) && d in f.clones
    ensures Enabled(WorldOf(f), Fetch(d)) && Apply(WorldOf(f), Fetch(d)) == WorldOf(Run(f, FetchOn(d), note))
  {
    var w, after := WorldOf(f), S.Fetched(CloneOf(f, d), f.remote);
    ViewOfClone(f, d);
    ViewOfChanged(f, d, after, f.remote);
    FetchedView(w, CloneOf(f, d), f.remote, d);
    hide WorldOf;
    assert Fleet(after.dag, f.clones[d := after], f.remote) == Run(f, FetchOn(d), note);
  }

  lemma FetchedView(w: World, r: Repo, remote: S.Remote, d: DeviceId)
    ensures var v := View(w, r, remote, d, None);
      Enabled(v, Fetch(d)) && Apply(v, Fetch(d)) == View(w, S.Fetched(r, remote), remote, d, None)
  {
  }

  lemma ElsewhereIsAStep(f: Fleet, c: Command, note: S.NoteWriter)
    requires ValidFleet(f) && Possible(f, c) && (c.CommitElsewhere? || c.MainMovesTo?)
    ensures var step := if c.CommitElsewhere? then Elsewhere(c.commit) else MainMoves(c.at);
      Enabled(WorldOf(f), step) && Apply(WorldOf(f), step) == WorldOf(Run(f, c, note))
  {
  }

  lemma OutsideIsARun(f: Fleet, c: Command, note: S.NoteWriter)
    requires ValidFleet(f) && Possible(f, c) && !c.SyncOn? && !c.CommitOn? && !c.EditOn?
    ensures Executes(WorldOf(f), StepsOf(f, c, note), WorldOf(Run(f, c, note)))
  {
    hide WorldOf, Run, Executes, ValidFleet, Apply, Enabled;
    match c
    case WriteOn(d, tree) =>
      WriteIsAStep(f, d, tree, note);
      OneStep(WorldOf(f), Write(d, tree));
    case FetchOn(d) =>
      FetchIsAStep(f, d, note);
      OneStep(WorldOf(f), Fetch(d));
    case CommitElsewhere(commit) =>
      ElsewhereIsAStep(f, c, note);
      OneStep(WorldOf(f), Elsewhere(commit));
    case MainMovesTo(at) =>
      ElsewhereIsAStep(f, c, note);
      OneStep(WorldOf(f), MainMoves(at));
  }

  /** Every command is a run of the protocol. */
  lemma CommandIsARun(f: Fleet, c: Command, note: S.NoteWriter)
    requires ValidFleet(f) && Possible(f, c)
    ensures Executes(WorldOf(f), StepsOf(f, c, note), WorldOf(Run(f, c, note)))
  {
    hide S.RunSync, CommitToDeviceBranch, SyncSteps, CommitSteps, Executes, View, WorldOf, S.Lists;
    match c
    case SyncOn(d, listing, chances, luck) =>
      var r := CloneOf(f, d);
      ViewOfClone(f, d);
      SyncIsARun(WorldOf(f), r, f.remote, d, listing, chances, luck, note);
      var s := S.RunSync(r, f.remote, d, listing, chances, luck, note);
      ViewOfChanged(f, d, s.repo, s.remote);
    case CommitOn(d, paths, signs) =>
      var r := CloneOf(f, d);
      ViewOfClone(f, d);
      CommitIsARun(WorldOf(f), r, f.remote, d, paths, signs);
      ViewOfChanged(f, d, CommitToDeviceBranch(r, d, paths, signs).0, f.remote);
    case EditOn(d, edited) =>
      EditIsNoStep(f, d, edited);
      StandStill(WorldOf(f));
    case _ =>
      OutsideIsARun(f, c, note);
  }

  lemma EditIsNoStep(f: Fleet, d: DeviceId, edited: Repo)
    requires d in f.clones && Edits(CloneOf(f, d), edited, d)
    ensures WorldOf(f.(clones := f.clones[d := edited])) == WorldOf(f)
  {
    assert WorldOf(f.(clones := f.clones[d := edited])).devices == WorldOf(f).devices;
  }

  lemma CommandKeepsInv(f: Fleet, c: Command, note: S.NoteWriter)
    requires ValidFleet(f) && Inv(WorldOf(f)) && Possible(f, c)
    ensures ValidFleet(Run(f, c, note)) && Inv(WorldOf(Run(f, c, note))) && f.store <= Run(f, c, note).store
    ensures Run(f, c, note).clones.Keys == f.clones.Keys
  {
    hide Run, StepsOf, Executes, Inv, S.Lists, ValidFleet;
    var g := Run(f, c, note);
    WorldShape(f);
    WorldShape(g);
    CommandIsARun(f, c, note);
    ExecutesInv(WorldOf(f), StepsOf(f, c, note), WorldOf(g));
    InvAt(WorldOf(g), "");
    RunIsValid(f, c, note);
  }

  lemma RunIsValid(f: Fleet, c: Command, note: S.NoteWriter)
    requires ValidFleet(f) && Possible(f, c)
    requires f.store <= Run(f, c, note).store && Commits(Run(f, c, note).store, Run(f, c, note).remote)
    ensures ValidFleet(Run(f, c, note)) && Run(f, c, note).clones.Keys == f.clones.Keys
  {
    hide S.RunSync, CommitToDeviceBranch, S.Lists, ValidFleet, Commits, Valid;
    var g := Run(f, c, note);
    match c
    case SyncOn(d, listing, chances, luck) =>
      CloneIsValid(f, d);
      SyncedIsValid(CloneOf(f, d), f.remote, d, listing, chances, luck, note);
      StillValid(f, d, S.RunSync(CloneOf(f, d), f.remote, d, listing, chances, luck, note).repo, g.remote);
    case CommitOn(d, paths, signs) =>
      CloneIsValid(f, d);
      CommittedIsValid(CloneOf(f, d), d, paths, signs);
      StillValid(f, d, CommitToDeviceBranch(CloneOf(f, d), d, paths, signs).0, f.remote);
    case EditOn(d, edited) => StillValid(f, d, edited, f.remote);
    case WriteOn(d, tree) =>
      CloneIsValid(f, d);
      WrittenIsValid(CloneOf(f, d), f.remote, d, tree);
      StillValid(f, d, Written(CloneOf(f, d), d, tree), f.remote);
    case FetchOn(d) =>
      CloneIsValid(f, d);
      WrittenIsValid(CloneOf(f, d), f.remote, d, map[]);
      StillValid(f, d, S.Fetched(CloneOf(f, d), f.remote), f.remote);
    case _ => MoreIsValid(f, g);
  }

  lemma CloneIsValid(f: Fleet, d: DeviceId)
    requires ValidFleet(f) && d in f.clones
    ensures Valid(CloneOf(f, d)) && CloneOf(f, d).dag == f.store && Commits(f.store, f.remote)
  {
  }

  lemma WrittenIsValid(r: Repo, remote: S.Remote, d: DeviceId, tree: Tree)
    requires Valid(r) && Commits(r.dag, remote)
    ensures Valid(Written(r, d, tree)) && r.dag <= Written(r, d, tree).dag
    ensures Valid(S.Fetched(r, remote)) && S.Fetched(r, remote).dag == r.dag
  {
  }

  lemma MoreIsValid(f: Fleet, g: Fleet)
    requires ValidFleet(f) && g.clones == f.clones && f.store <= g.store && Commits(g.store, g.remote)
    ensures ValidFleet(g)
  {
    forall d | d in g.clones ensures Valid(CloneOf(g, d)) { assert Valid(CloneOf(f, d)); }
  }

  /** The fleets that the commands lead through, one after another. */
  ghost predicate IsHistory(fleets: seq<Fleet>, commands: seq<Command>, note: S.NoteWriter) {
    && |fleets| == |commands| + 1
    && ValidFleet(fleets[0]) && Inv(WorldOf(fleets[0]))
    && forall i :: 0 <= i < |commands| ==>
         ValidFleet(fleets[i]) && Possible(fleets[i], commands[i]) && fleets[i + 1] == Run(fleets[i], commands[i], note)
  }

  lemma {:induction false} HistoryInv(fleets: seq<Fleet>, commands: seq<Command>, note: S.NoteWriter, i: nat)
    requires IsHistory(fleets, commands, note) && i < |fleets|
    ensures ValidFleet(fleets[i]) && Inv(WorldOf(fleets[i]))
    decreases i
  {
    hide Inv, WorldOf, Run, Possible, ValidFleet;
    if i > 0 {
      HistoryInv(fleets, commands, note, i - 1);
      CommandKeepsInv(fleets[i - 1], commands[i - 1], note);
    }
  }

  /**
   At any time in any history, with any work between the commands, a sync succeeds exactly if the network, the report,
   the move to the device's branch and every merge do: the push itself is never rejected, though never forced.
   */
  lemma NoPushIsRejected(fleets: seq<Fleet>, commands: seq<Command>, note: S.NoteWriter, i: nat)
    requires IsHistory(fleets, commands, note) && i < |commands| && commands[i].SyncOn?
    ensures ValidFleet(fleets[i]) && Possible(fleets[i], commands[i])
    ensures var SyncOn(d, listing, chances, luck) := commands[i];
      var r, remote := CloneOf(fleets[i], d), fleets[i].remote;
      S.RunSync(r, remote, d, listing, chances, luck, note).result.Ok?
      <==> && luck == S.Luck(true, true, true) && EnteredFetched(r, remote, d).1 == None
           && MergedFetched(r, remote, d, listing, chances, note).1.Ok?
  {
    hide S.RunSync, Run, EnteredFetched, MergedFetched, Inv, S.Lists, Reach;
    HistoryInv(fleets, commands, note, i);
    var SyncOn(d, listing, chances, luck) := commands[i];
    var f := fleets[i];
    InvAt(WorldOf(f), d);
    SyncSucceedsIff(CloneOf(f, d), f.remote, d, listing, chances, luck, note);
  }

  lemma CommandKeepsRemote(f: Fleet, c: Command, note: S.NoteWriter, d: DeviceId)
    requires ValidFleet(f) && Inv(WorldOf(f)) && Possible(f, c) && d in f.clones && OwnBranch(d) in f.remote
    ensures var g := Run(f, c, note);
      && f.remote[OwnBranch(d)] < |f.store| && f.store <= g.store && g.clones.Keys == f.clones.Keys
      && OwnBranch(d) in g.remote && g.remote[OwnBranch(d)] < |g.store|
      && Reach(g.store, f.remote[OwnBranch(d)], g.remote[OwnBranch(d)])
  {
    hide Inv, Run, StepsOf, Executes, Reach, S.Lists, WorldOf, ValidFleet;
    WorldShape(f);
    WorldShape(Run(f, c, note));
    RemoteIsStored(f, d);
    CommandIsARun(f, c, note);
    CommandKeepsInv(f, c, note);
    ExecutesKeepsRemote(WorldOf(f), StepsOf(f, c, note), WorldOf(Run(f, c, note)), d);
  }

  lemma WorldShape(f: Fleet)
    ensures var w := WorldOf(f); w.dag == f.store && w.remote == f.remote && w.devices.Keys == f.clones.Keys
  {
  }

  /** Over any stretch of any history, what a pushed device branch reaches stays reachable from it. */
  lemma {:induction false} NothingPushedIsLost(fleets: seq<Fleet>, commands: seq<Command>, note: S.NoteWriter, i: nat,
                                               j: nat, d: DeviceId)
    requires IsHistory(fleets, commands, note) && i <= j < |fleets|
    requires d in fleets[i].clones && OwnBranch(d) in fleets[i].remote
    ensures fleets[i].store <= fleets[j].store && d in fleets[j].clones && OwnBranch(d) in fleets[j].remote
    ensures fleets[j].remote[OwnBranch(d)] < |fleets[j].store|
    ensures Reach(fleets[j].store, fleets[i].remote[OwnBranch(d)], fleets[j].remote[OwnBranch(d)])
    decreases j - i
  {
    hide Inv, Run, Possible, Reach, WorldOf, ValidFleet;
    HistoryInv(fleets, commands, note, i);
    RemoteIsStored(fleets[i], d);
    if i < j {
      NothingPushedIsLost(fleets, commands, note, i, j - 1, d);
      HistoryInv(fleets, commands, note, j - 1);
      var f, g := fleets[j - 1], fleets[j];
      CommandKeepsRemote(f, commands[j - 1], note, d);
      var a, b, c := fleets[i].remote[OwnBranch(d)], f.remote[OwnBranch(d)], g.remote[OwnBranch(d)];
      ReachStable(f.store, g.store, a, b);
      ReachTransitive(g.store, a, b, c);
    }
  }

  lemma RemoteIsStored(f: Fleet, d: DeviceId)
    requires ValidFleet(f) && OwnBranch(d) in f.remote
    ensures f.remote[OwnBranch(d)] < |f.store| && Reach(f.store, f.remote[OwnBranch(d)], f.remote[OwnBranch(d)])
  {
  }

  // Convergence

  predicate HasTip(f: Fleet, d: DeviceId) { d in f.clones && OwnBranch(d) in f.clones[d].refs }

  function TipOf(f: Fleet, d: DeviceId): CommitId
    requires HasTip(f, d)
  {
    f.clones[d].refs[OwnBranch(d)]
  }

  /** In `late`, `x` is behind the own branch of `d`. */
  predicate Has(late: Fleet, d: DeviceId, x: CommitId) {
    HasTip(late, d) && TipOf(late, d) < |late.store| && Reach(late.store, x, TipOf(late, d))
  }

  lemma CommandGrowsTip(f: Fleet, c: Command, note: S.NoteWriter, d: DeviceId)
    requires ValidFleet(f) && Inv(WorldOf(f)) && Possible(f, c) && HasTip(f, d)
    ensures f.store <= Run(f, c, note).store && TipOf(f, d) < |f.store| && Has(Run(f, c, note), d, TipOf(f, d))
  {
    hide Inv, Run, StepsOf, Executes, Reach, S.Lists, ValidFleet;
    WorldShape(f);
    CommandIsARun(f, c, note);
    CommandKeepsInv(f, c, note);
    ExecutesTipGrows(WorldOf(f), StepsOf(f, c, note), WorldOf(Run(f, c, note)), d);
  }

  /** What a device has it keeps, through any stretch of any history. */
  lemma {:induction false} KeptForGood(fleets: seq<Fleet>, commands: seq<Command>, note: S.NoteWriter, i: nat, j: nat,
                                       d: DeviceId, x: CommitId)
    requires IsHistory(fleets, commands, note) && i <= j < |fleets| && Has(fleets[i], d, x)
    ensures fleets[i].store <= fleets[j].store && Has(fleets[j], d, x)
    decreases j - i
  {
    hide Inv, Run, Possible, Reach, WorldOf, ValidFleet;
    if i < j {
      KeptForGood(fleets, commands, note, i, j - 1, d, x);
      HistoryInv(fleets, commands, note, j - 1);
      var f, g := fleets[j - 1], fleets[j];
      CommandGrowsTip(f, commands[j - 1], note, d);
      ReachStable(f.store, g.store, x, TipOf(f, d));
      ReachTransitive(g.store, x, TipOf(f, d), TipOf(g, d));
    }
  }

  lemma HasOwnTip(f: Fleet, d: DeviceId)
    requires ValidFleet(f) && HasTip(f, d)
    ensures Has(f, d, TipOf(f, d))
  {
    assert Valid(CloneOf(f, d));
  }

  /** `commands[i]` is a sync of `d` that succeeds. */
  predicate Synced(fleets: seq<Fleet>, commands: seq<Command>, note: S.NoteWriter, i: nat, d: DeviceId) {
    && i < |commands| && i < |fleets| && commands[i].SyncOn? && commands[i].d == d
    && ValidFleet(fleets[i]) && d in fleets[i].clones && |commands[i].chances| > |commands[i].listing|
    && S.RunSync(CloneOf(fleets[i], d), fleets[i].remote, d, commands[i].listing, commands[i].chances, commands[i].luck,
                 note).result.Ok?
  }

  lemma SyncPushes(fleets: seq<Fleet>, commands: seq<Command>, note: S.NoteWriter, i: nat, e: DeviceId)
    requires IsHistory(fleets, commands, note) && Synced(fleets, commands, note, i, e)
    ensures var after := fleets[i + 1];
      HasTip(after, e) && OwnBranch(e) in after.remote && after.remote[OwnBranch(e)] == TipOf(after, e)
  {
    hide S.RunSync, Reach, S.Lists, WorldOf, Inv;
    var c, f := commands[i], fleets[i];
    assert Possible(f, c) && fleets[i + 1] == Run(f, c, note);
    SyncBringsAll(CloneOf(f, e), f.remote, e, c.listing, c.chances, c.luck, note);
  }

  lemma SyncFetches(fleets: seq<Fleet>, commands: seq<Command>, note: S.NoteWriter, i: nat, d: DeviceId, e: DeviceId)
    requires IsHistory(fleets, commands, note) && Synced(fleets, commands, note, i, d)
    requires e != d && OwnBranch(e) in fleets[i].remote
    ensures fleets[i].remote[OwnBranch(e)] < |fleets[i].store| && fleets[i].store <= fleets[i + 1].store
    ensures Has(fleets[i + 1], d, fleets[i].remote[OwnBranch(e)])
  {
    hide S.RunSync, Reach, S.Lists, WorldOf, Inv;
    var c, f := commands[i], fleets[i];
    assert Possible(f, c) && fleets[i + 1] == Run(f, c, note);
    SyncBringsAll(CloneOf(f, d), f.remote, d, c.listing, c.chances, c.luck, note);
    OwnBranchInjective(e, d);
    assert Merges(CloneOf(f, d).tracking + f.remote, d, OwnBranch(e));
  }

  /** What a device had at time `t` reaches any other that syncs after it did. */
  lemma SyncedTwice(fleets: seq<Fleet>, commands: seq<Command>, note: S.NoteWriter, t: nat, e: DeviceId, j: nat,
                    d: DeviceId, m: nat)
    requires IsHistory(fleets, commands, note) && t <= j < m
    requires Synced(fleets, commands, note, j, e) && Synced(fleets, commands, note, m, d) && HasTip(fleets[t], e)
    ensures Has(fleets[m + 1], d, TipOf(fleets[t], e))
  {
    hide Inv, Run, Possible, Reach, WorldOf, ValidFleet, Has;
    var x := TipOf(fleets[t], e);
    HistoryInv(fleets, commands, note, t);
    HasOwnTip(fleets[t], e);
    if e == d {
      KeptForGood(fleets, commands, note, t, m + 1, d, x);
    } else {
      KeptForGood(fleets, commands, note, t, j + 1, e, x);
      SyncPushes(fleets, commands, note, j, e);
      NothingPushedIsLost(fleets, commands, note, j + 1, m, e);
      SyncFetches(fleets, commands, note, m, d, e);
      HasIsReach(fleets[j + 1], e, x);
      var own := OwnBranch(e);
      var pushed, seen := fleets[j + 1].remote[own], fleets[m].remote[own];
      ReachStable(fleets[j + 1].store, fleets[m].store, x, pushed);
      ReachTransitive(fleets[m].store, x, pushed, seen);
      HasMore(fleets[m], fleets[m + 1], d, x, seen);
    }
  }

  lemma HasIsReach(f: Fleet, d: DeviceId, x: CommitId)
    requires Has(f, d, x)
    ensures HasTip(f, d) && TipOf(f, d) < |f.store| && Reach(f.store, x, TipOf(f, d))
  {
  }

  lemma HasMore(f: Fleet, g: Fleet, d: DeviceId, x: CommitId, y: CommitId)
    requires f.store <= g.store && y < |f.store| && Reach(f.store, x, y) && Has(g, d, y)
    ensures Has(g, d, x)
  {
    hide Reach;
    ReachStable(f.store, g.store, x, y);
    ReachTransitive(g.store, x, y, TipOf(g, d));
  }

  /**
   Convergence of the commands themselves: if every device has synced successfully since time `t`, then one more
   successful sync of any device leaves it with every commit that any device had at `t`.
   */
  lemma OneMoreSyncHasAll(fleets: seq<Fleet>, commands: seq<Command>, note: S.NoteWriter, t: nat, d: DeviceId, m: nat)
    requires IsHistory(fleets, commands, note) && t <= m && Synced(fleets, commands, note, m, d)
    requires forall e :: e in fleets[t].clones ==> exists j: nat :: t <= j < m && Synced(fleets, commands, note, j, e)
    ensures forall e :: HasTip(fleets[t], e) ==> Has(fleets[m + 1], d, TipOf(fleets[t], e))
  {
    hide Has, Inv, Run, Possible, WorldOf, ValidFleet, S.RunSync;
    forall e | HasTip(fleets[t], e) ensures Has(fleets[m + 1], d, TipOf(fleets[t], e)) {
      assert e in fleets[t].clones;
      var j: nat :| t <= j < m && Synced(fleets, commands, note, j, e);
      SyncedTwice(fleets, commands, note, t, e, j, d, m);
    }
  }

  // A clone with conflicts

  /** A clone whose HEAD is a commit and which has unmerged paths. */
  predicate Stuck(r: Repo) { r.unmerged != [] && HeadCommit(r).Some? }

  /** The same but for branches, what was fetched, and the commits there are. */
  predicate SameFiles(r: Repo, s: Repo) {
    r.head == s.head && r.index == s.index && r.unmerged == s.unmerged && r.work == s.work && r.mergeHead == s.mergeHead
  }

  lemma StuckCommit(r: Repo, d: DeviceId, paths: seq<string>, signs: bool)
    requires Valid(r) && Stuck(r)
    ensures var (after, result) := CommitToDeviceBranch(r, d, paths, signs);
      result == Err(UnmergedPaths) && Stuck(after) && SameFiles(r, after)
  {
    hide CanSwitch, SwitchedIndex, SwitchedWork, HeadTree, SignedCommit;
  }

  /** Nothing but the user's own hand gets a clone with conflicts going: every command leaves it as it is. */
  lemma StuckCommand(f: Fleet, c: Command, note: S.NoteWriter, d: DeviceId)
    requires ValidFleet(f) && Possible(f, c) && d in f.clones && Stuck(f.clones[d]) && !(c.EditOn? && c.d == d)
    ensures var g := Run(f, c, note);
      d in g.clones && Stuck(g.clones[d]) && SameFiles(f.clones[d], g.clones[d])
  {
    hide S.RunSync, CommitToDeviceBranch, S.Lists, Valid, Commits, ValidFleet;
    CloneIsValid(f, d);
    var r := CloneOf(f, d);
    match c
    case SyncOn(e, listing, chances, luck) =>
      if e == d { UnmergedFails(r, f.remote, d, listing, chances, luck, note); }
    case CommitOn(e, paths, signs) =>
      if e == d { StuckCommit(r, d, paths, signs); }
    case _ =>
  }

  /**
   Once a sync of `d` has stopped at unmerged paths, every later sync and commit of `d` fails, for as long as the user
   does not clear them, and leaves HEAD, index, conflicts and files as they are.
   */
  lemma {:induction false} StuckUntilCleared(fleets: seq<Fleet>, commands: seq<Command>, note: S.NoteWriter, i: nat,
                                             j: nat, d: DeviceId)
    requires IsHistory(fleets, commands, note) && i <= j < |fleets|
    requires d in fleets[i].clones && Stuck(fleets[i].clones[d])
    requires forall k :: i <= k < j ==> !(commands[k].EditOn? && commands[k].d == d)
    ensures d in fleets[j].clones && Stuck(fleets[j].clones[d])
    ensures SameFiles(fleets[i].clones[d], fleets[j].clones[d])
    ensures j < |commands| ==> !Synced(fleets, commands, note, j, d)
    ensures j < |commands| && commands[j].CommitOn? && commands[j].d == d ==>
      && Valid(CloneOf(fleets[j], d))
      && CommitToDeviceBranch(CloneOf(fleets[j], d), d, commands[j].paths, commands[j].signs).1 == Err(UnmergedPaths)
    decreases j - i
  {
    hide Inv, Run, Possible, WorldOf, ValidFleet, S.RunSync, CommitToDeviceBranch, Valid;
    if i < j {
      StuckUntilCleared(fleets, commands, note, i, j - 1, d);
      StuckCommand(fleets[j - 1], commands[j - 1], note, d);
    }
    if Synced(fleets, commands, note, j, d) { StuckIsNotSynced(fleets, commands, note, j, d); }
    if j < |commands| && commands[j].CommitOn? && commands[j].d == d {
      CloneIsValid(fleets[j], d);
      StuckCommit(CloneOf(fleets[j], d), d, commands[j].paths, commands[j].signs);
    }
  }

  lemma StuckIsNotSynced(fleets: seq<Fleet>, commands: seq<Command>, note: S.NoteWriter, j: nat, d: DeviceId)
    requires j < |fleets| && d in fleets[j].clones && Stuck(fleets[j].clones[d])
    ensures !Synced(fleets, commands, note, j, d)
  {
    hide S.RunSync, Valid, Commits;
    if Synced(fleets, commands, note, j, d) {
      var f, c := fleets[j], commands[j];
      UnmergedFails(CloneOf(f, d), f.remote, d, c.listing, c.chances, c.luck, note);
    }
  }

  /** And a sync that stops with unmerged paths gets its clone there. */
  lemma StoppedIsStuck(f: Fleet, c: Command, note: S.NoteWriter)
    requires ValidFleet(f) && Possible(f, c) && c.SyncOn? && HeadCommit(f.clones[c.d]).Some?
    requires S.RunSync(CloneOf(f, c.d), f.remote, c.d, c.listing, c.chances, c.luck, note).result == Err(UnmergedPaths)
    ensures c.d in Run(f, c, note).clones && Stuck(Run(f, c, note).clones[c.d])
  {
    hide S.RunSync, S.Lists;
    StoppedLeavesConflicts(CloneOf(f, c.d), f.remote, c.d, c.listing, c.chances, c.luck, note);
  }
}

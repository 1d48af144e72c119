/**
 The commands as they run: a clone whose refs, index and work tree change step by step, each method proved to leave
 the state that the functions on values give.
 */
module Clone {
  import opened Wrappers
  import opened CommitGraph
  import opened Git
  import opened Protocol
  import D = DeviceBranch
  import S = Sync

  /** A command that either does all it should or fails and changes nothing. */
  function Attempted(before: Repo, result: Result<Repo, Error>): (Repo, Option<Error>) {
    match result case Ok(r) => (r, None) case Err(e) => (before, Some(e))
  }

  class RemoteRepository {
    var refs: map<string, CommitId>

    constructor (refs: map<string, CommitId>)
      ensures this.refs == refs
    {
      this.refs := refs;
    }
  }

  class Repository {
    var dag: Dag
    var refs: map<string, CommitId>
    var tracking: map<string, CommitId>
    var head: Head
    var index: Tree
    var unmerged: seq<Conflict>
    var work: Tree
    var mergeHead: Option<CommitId>

    function State(): Repo
      reads this
    {
      Repo(dag, refs, tracking, head, index, unmerged, work, mergeHead)
    }

    constructor (r: Repo)
      ensures State() == r
    {
      dag, refs, tracking, head := r.dag, r.refs, r.tracking, r.head;
      index, unmerged, work, mergeHead := r.index, r.unmerged, r.work, r.mergeHead;
    }

    // The git commands

    method CheckoutHead(target: Head) returns (error: Option<Error>)
      requires Valid(State())
      modifies `head, `index, `work, `mergeHead
      ensures (State(), error) == Attempted(old(State()), Checkout(old(State()), target))
    {
      var commit := CommitOf(State(), target);
      if commit == None || commit.value >= |dag| { return Some(NotACommit); }
      if unmerged != [] { return Some(UnmergedPaths); }
      var from, to := HeadTree(State()), dag[commit.value].tree;
      if !CanSwitch(from, to, index, work) { return Some(WouldOverwrite); }
      work := SwitchedWork(from, to, index, work);
      index := SwitchedIndex(from, to, index);
      head := target;
      mergeHead := None;
      return None;
    }

    method Enter(path: string, content: string)
      modifies `index, `unmerged
      ensures State() == Entered(old(State()), path, content)
    {
      index := index[path := content];
      unmerged := Without(unmerged, path);
    }

    method StagePath(path: string) returns (error: Option<Error>)
      modifies `index, `unmerged
      ensures (State(), error) == Attempted(old(State()), Add(old(State()), path))
    {
      if path in work {
        Enter(path, work[path]);
      } else if path in index || IsUnmerged(unmerged, path) {
        index := index - {path};
        unmerged := Without(unmerged, path);
      } else {
        return Some(NoSuchFile(path));
      }
      return None;
    }

    method UpdateHead(c: CommitId)
      modifies `refs, `head
      ensures State() == MoveHead(old(State()), c)
    {
      match head {
        case OnBranch(b) => refs := refs[b := c];
        case Detached(_) => head := Detached(c);
      }
    }

    method WriteCommit(parents: seq<CommitId>)
      modifies `dag, `refs, `head
      ensures State() == NewCommit(old(State()), parents)
    {
      dag := dag + [Commit(parents, index)];
      UpdateHead(|dag| - 1);
    }

    // Signed commits

    method CommitCurrentIndex(signs: bool) returns (result: Result<CommitId, Error>)
      modifies `dag, `refs, `head
      ensures (State(), result) == D.CommitIndex(old(State()), signs)
    {
      if unmerged != [] { return Err(UnmergedPaths); }
      var parents := [];
      var current := HeadCommit(State());
      if current.Some? { parents := [current.value]; }
      if !signs { return Err(SigningFailed); }
      WriteCommit(parents);
      return Ok(|dag| - 1);
    }

    method SignedCommit(paths: seq<string>, signs: bool) returns (result: Result<CommitId, Error>)
      modifies `dag, `refs, `head, `index, `unmerged
      ensures (State(), result) == D.SignedCommit(old(State()), paths, signs)
    {
      if paths == [] { return Err(NoPaths); }
      for i := 0 to |paths|
        invariant dag == old(dag) && refs == old(refs) && head == old(head)
        invariant D.StageAll(old(State()), paths) == D.StageAll(State(), paths[i..])
      {
        var path := paths[i];
        assert paths[i..][1..] == paths[i + 1..];
        if path !in work { return Err(NoSuchFile(path)); }
        Enter(path, work[path]);
      }
      result := CommitCurrentIndex(signs);
    }

    method SignedRemovalCommit(paths: seq<string>, signs: bool) returns (result: Result<CommitId, Error>)
      modifies `dag, `refs, `head, `index, `unmerged
      ensures (State(), result) == D.SignedRemovalCommit(old(State()), paths, signs)
    {
      if paths == [] { return Err(NoPaths); }
      for i := 0 to |paths|
        invariant dag == old(dag) && refs == old(refs) && head == old(head)
        invariant D.RemoveAll(old(State()), paths) == D.RemoveAll(State(), paths[i..])
      {
        var path := paths[i];
        assert paths[i..][1..] == paths[i + 1..];
        if path !in work {
          index := index - {path};
          unmerged := Without(unmerged, path);
        } else if path in index || IsUnmerged(unmerged, path) {
          Enter(path, work[path]);
        } else {
          return Err(NoSuchFile(path));
        }
      }
      result := CommitCurrentIndex(signs);
    }

    // The device's branch

    method EnsureDeviceBranch(d: DeviceId) returns (error: Option<Error>)
      modifies `refs
      ensures (State(), error) == Attempted(old(State()), D.EnsureDeviceBranch(old(State()), d))
    {
      var branch := OwnBranch(d);
      if branch in refs { return None; }
      match HeadCommit(State()) {
        case None => return Some(NotACommit);
        case Some(c) =>
          refs := refs[branch := c];
          return None;
      }
    }

    method EnterDeviceBranch(d: DeviceId) returns (error: Option<Error>)
      requires Valid(State())
      modifies `refs, `head, `index, `work, `mergeHead
      ensures (State(), error) == D.EnterDeviceBranch(old(State()), d)
    {
      hide CanSwitch, SwitchedIndex, SwitchedWork;
      error := EnsureDeviceBranch(d);
      if error.Some? { return; }
      D.EnsuredValid(old(State()), d);
      error := CheckoutHead(OnBranch(OwnBranch(d)));
    }

    method CommitToDeviceBranch(d: DeviceId, paths: seq<string>, signs: bool) returns (result: Result<CommitId, Error>)
      requires Valid(State())
      modifies this
      ensures (State(), result) == D.CommitToDeviceBranch(old(State()), d, paths, signs)
    {
      hide D.SignedCommit, D.EnterDeviceBranch, Checkout;
      if HeadCommit(State()) == None {
        head := OnBranch(OwnBranch(d));
        result := SignedCommit(paths, signs);
        return;
      }
      var previous := head;
      var error := EnterDeviceBranch(d);
      if error.Some? { return Err(error.value); }
      ghost var entered := State();
      result := SignedCommit(paths, signs);
      D.SignedValid(entered, paths, signs);
      var refused := CheckoutHead(previous);
      if refused.Some? && result.Ok? { result := Err(NotRestored); }
    }

    // Merging

    method MergeBranch(branch: string, outcome: S.TrueMerge) returns (clean: bool)
      requires Valid(State()) && HeadCommit(State()).Some?
      modifies this
      ensures (State(), clean) == S.MergeBranch(old(State()), branch, outcome)
    {
      hide CanSwitch, SwitchedIndex, SwitchedWork, Reach;
      if branch !in tracking || unmerged != [] || mergeHead.Some? { return false; }
      var current, target := HeadCommit(State()).value, tracking[branch];
      var from := HeadTree(State());
      if Reach(dag, target, current) { return true; }
      if Reach(dag, current, target) {
        var to := dag[target].tree;
        if !CanSwitch(from, to, index, work) { return false; }
        work := SwitchedWork(from, to, index, work);
        index := SwitchedIndex(from, to, index);
        UpdateHead(target);
        return true;
      }
      if index != from { return false; }
      match outcome {
        case Refused => return false;
        case Clean(tree) =>
          if !CanSwitch(from, tree, index, work) { return false; }
          work := SwitchedWork(from, tree, index, work);
          index := tree;
          WriteCommit([current, target]);
          return true;
        case Stopped(i, u, w) =>
          index, unmerged, work, mergeHead := i, u, w, Some(target);
          return false;
      }
    }

    method WriteNote(name: string, conflict: Conflict, note: S.NoteWriter)
      requires conflict.kind.ModifyDelete?
      modifies `index, `unmerged, `work
      ensures State() == S.WriteNote(old(State()), name, conflict, note)
    {
      work := work[name := note(conflict.path, conflict.kind.deletedBy)];
      var error := StagePath(name);
    }

    method ResolveModifyDelete(names: seq<string>, note: S.NoteWriter) returns (result: Result<seq<string>, Error>)
      modifies `index, `unmerged, `work
      ensures (State(), result) == S.ResolveModifyDelete(old(State()), names, note)
    {
      hide S.ResolveAll, S.WriteNote, Add, Remaining, S.ModifyDeletes;
      var conflicts := S.ModifyDeletes(unmerged);
      var inbox := [];
      ghost var goal := S.ResolveModifyDelete(State(), names, note);
      AllRemains(State(), conflicts, names, note);
      for i := 0 to |conflicts|
        invariant i <= |names|
        invariant dag == old(dag) && refs == old(refs) && tracking == old(tracking) && head == old(head)
        invariant mergeHead == old(mergeHead)
        invariant goal == Remaining(State(), conflicts, names, note, inbox, i)
      {
        RemainingStep(State(), conflicts, names, note, inbox, i);
        var conflict := conflicts[i];
        var error := StagePath(conflict.path);
        if error.Some? { return Err(error.value); }
        if i == |names| { return Err(WriteFailed); }
        WriteNote(names[i], conflict, note);
        inbox := inbox + [names[i]];
      }
      RemainingStep(State(), conflicts, names, note, inbox, |conflicts|);
      return Ok(inbox);
    }

    /** The end of the loop from its `i`th turn. */
    static ghost function Remaining(r: Repo, conflicts: seq<Conflict>, names: seq<string>, note: S.NoteWriter,
                                    inbox: seq<string>, i: nat): (Repo, Result<seq<string>, Error>)
      requires i <= |conflicts| && i <= |names| && forall c :: c in conflicts ==> c.kind.ModifyDelete?
    {
      var (after, rest) := S.ResolveAll(r, conflicts[i..], names[i..], note);
      (after, Prefixed(inbox, rest))
    }

    static lemma AllRemains(r: Repo, conflicts: seq<Conflict>, names: seq<string>, note: S.NoteWriter)
      requires forall c :: c in conflicts ==> c.kind.ModifyDelete?
      ensures Remaining(r, conflicts, names, note, [], 0) == S.ResolveAll(r, conflicts, names, note)
    {
      hide S.ResolveAll;
      assert conflicts[0..] == conflicts && names[0..] == names;
      var rest := S.ResolveAll(r, conflicts, names, note).1;
      if rest.Ok? { assert [] + rest.value == rest.value; }
    }

    static lemma RemainingStep(r: Repo, conflicts: seq<Conflict>, names: seq<string>, note: S.NoteWriter,
                               inbox: seq<string>, i: nat)
      requires i <= |conflicts| && i <= |names| && forall c :: c in conflicts ==> c.kind.ModifyDelete?
      ensures var all := Remaining(r, conflicts, names, note, inbox, i);
        if i == |conflicts| then all == (r, Ok(inbox))
        else
          var staged := Add(r, conflicts[i].path);
          if staged.Err? then all == (r, Err(staged.error))
          else if i == |names| then all == (staged.value, Err(WriteFailed))
          else all == Remaining(S.WriteNote(staged.value, names[i], conflicts[i], note), conflicts, names, note,
                                inbox + [names[i]], i + 1)
    {
      hide S.ResolveAll, S.WriteNote, Add;
      ResolveUnfolds(r, conflicts, names, note, i);
      var staged := if i < |conflicts| then Add(r, conflicts[i].path) else Ok(r);
      if i == |conflicts| {
        assert inbox + [] == inbox;
      } else if staged.Ok? && i < |names| {
        var next := S.WriteNote(staged.value, names[i], conflicts[i], note);
        PrefixedTwice(inbox, names[i], S.ResolveAll(next, conflicts[i + 1..], names[i + 1..], note).1);
      }
    }

    static ghost function Prefixed(inbox: seq<string>, rest: Result<seq<string>, Error>): Result<seq<string>, Error> {
      match rest case Ok(notes) => Ok(inbox + notes) case Err(e) => Err(e)
    }

    static lemma PrefixedTwice(inbox: seq<string>, name: string, rest: Result<seq<string>, Error>)
      ensures Prefixed(inbox, Prefixed([name], rest)) == Prefixed(inbox + [name], rest)
    {
      if rest.Ok? { assert inbox + ([name] + rest.value) == inbox + [name] + rest.value; }
    }

    /** What is left to do at the `i`th conflict. */
    static ghost function FromConflict(r: Repo, conflicts: seq<Conflict>, names: seq<string>, note: S.NoteWriter,
                                       i: nat)
      : (Repo, Result<seq<string>, Error>)
      requires i <= |conflicts| && i <= |names| && forall c :: c in conflicts ==> c.kind.ModifyDelete?
    {
      if i == |conflicts| then (r, Ok([]))
      else
        match Add(r, conflicts[i].path)
        case Err(e) => (r, Err(e))
        case Ok(staged) =>
          if i == |names| then (staged, Err(WriteFailed))
          else
            var (after, rest) := S.ResolveAll(S.WriteNote(staged, names[i], conflicts[i], note), conflicts[i + 1..],
                                              names[i + 1..], note);
            (after, Prefixed([names[i]], rest))
    }

    static lemma ResolveUnfolds(r: Repo, conflicts: seq<Conflict>, names: seq<string>, note: S.NoteWriter, i: nat)
      requires i <= |conflicts| && i <= |names| && forall c :: c in conflicts ==> c.kind.ModifyDelete?
      ensures S.ResolveAll(r, conflicts[i..], names[i..], note) == FromConflict(r, conflicts, names, note, i)
    {
      hide Add, S.WriteNote;
      if i < |conflicts| {
        assert conflicts[i..][1..] == conflicts[i + 1..];
        if i < |names| { assert names[i..][1..] == names[i + 1..]; }
      }
    }

    method FinishMerge() returns (error: Option<Error>)
      requires Valid(State()) && HeadCommit(State()).Some?
      modifies `dag, `refs, `head, `mergeHead
      ensures (State(), error) == Attempted(old(State()), S.FinishMerge(old(State())))
    {
      if unmerged != [] { return Some(UnmergedPaths); }
      if mergeHead == None { return Some(NoMergeToFinish); }
      var parents := S.MergeParents(dag, HeadCommit(State()).value, mergeHead.value);
      mergeHead := None;
      WriteCommit(parents);
      return None;
    }

    method MergeOne(branch: string, chance: S.Chance, note: S.NoteWriter) returns (error: Option<Error>)
      requires Valid(State()) && HeadCommit(State()).Some?
      modifies this
      ensures (State(), error) == S.MergeOne(old(State()), branch, chance, note)
    {
      hide S.ResolveAll, S.MergeBranch, S.FinishMerge, Valid, HeadCommit;
      S.MergedValid(State(), branch, chance.merge);
      var clean := MergeBranch(branch, chance.merge);
      if clean { return None; }
      ghost var merged := State();
      S.ResolvedKeeps(merged, S.ModifyDeletes(unmerged), chance.noteNames, note);
      var notes := ResolveModifyDelete(chance.noteNames, note);
      if notes.Err? { return Some(notes.error); }
      SameRefs(merged, State());
      error := FinishMerge();
    }

    static lemma SameRefs(r: Repo, s: Repo)
      requires s.(index := r.index, unmerged := r.unmerged, work := r.work) == r
      ensures Valid(s) == Valid(r) && HeadCommit(s) == HeadCommit(r)
    {
    }

    method MergeRefs(branches: seq<string>, chances: seq<S.Chance>, note: S.NoteWriter)
      returns (result: Result<seq<string>, Error>)
      requires Valid(State()) && HeadCommit(State()).Some? && |chances| >= |branches|
      modifies this
      ensures (State(), result) == S.MergeRefs(old(State()), branches, chances, note)
    {
      hide S.MergeOne, Valid, HeadCommit;
      var merged := [];
      assert branches[0..] == branches && chances[0..] == chances;
      ghost var (after, all) := S.MergeRefs(State(), branches, chances, note);
      assert all.Ok? ==> all.value == [] + all.value;
      for i := 0 to |branches|
        invariant Valid(State()) && HeadCommit(State()).Some?
        invariant S.MergeRefs(State(), branches[i..], chances[i..], note).0 == after
        invariant all == Prefixed(merged, S.MergeRefs(State(), branches[i..], chances[i..], note).1)
      {
        MergeRefsUnfolds(State(), branches, chances, note, i);
        ghost var next := S.MergeOne(State(), branches[i], chances[i], note).0;
        var error := MergeOne(branches[i], chances[i], note);
        if error.Some? { return Err(error.value); }
        PrefixedTwice(merged, branches[i], S.MergeRefs(State(), branches[i + 1..], chances[i + 1..], note).1);
        merged := merged + [branches[i]];
      }
      assert branches[|branches|..] == [];
      assert merged + [] == merged;
      return Ok(merged);
    }

    static lemma MergeRefsUnfolds(r: Repo, branches: seq<string>, chances: seq<S.Chance>, note: S.NoteWriter, i: nat)
      requires Valid(r) && HeadCommit(r).Some? && i < |branches| <= |chances|
      ensures var (next, error) := S.MergeOne(r, branches[i], chances[i], note);
        S.MergeRefs(r, branches[i..], chances[i..], note)
        == if error.Some? then (next, Err(error.value))
           else
             var (after, rest) := S.MergeRefs(next, branches[i + 1..], chances[i + 1..], note);
             (after, Prefixed([branches[i]], rest))
    {
      hide S.MergeOne, Valid, HeadCommit;
      assert branches[i..][1..] == branches[i + 1..] && chances[i..][1..] == chances[i + 1..];
    }

    // The whole sync

    method Fetch(remote: RemoteRepository, luck: S.Luck) returns (error: Option<Error>)
      modifies `tracking
      ensures luck.fetches ==> State() == S.Fetched(old(State()), remote.refs) && error == None
      ensures !luck.fetches ==> State() == old(State()) && error == Some(FetchFailed)
    {
      if !luck.fetches { return Some(FetchFailed); }
      tracking := tracking + remote.refs;
      return None;
    }

    method PushBranch(remote: RemoteRepository, branch: string, luck: S.Luck, merged: seq<string>)
      returns (result: Result<seq<string>, Error>)
      requires Valid(State()) && branch in refs
      modifies `tracking, remote`refs
      ensures S.Synced(State(), remote.refs, result) == S.Push(old(State()), old(remote.refs), branch, luck, merged)
    {
      if !luck.pushes || !S.PushAccepted(State(), remote.refs, branch) { return Err(PushRejected); }
      remote.refs := remote.refs[branch := refs[branch]];
      tracking := tracking[branch := refs[branch]];
      return Ok(merged);
    }

    method RunSync(remote: RemoteRepository, d: DeviceId, listing: seq<string>, chances: seq<S.Chance>, luck: S.Luck,
                   note: S.NoteWriter) returns (result: Result<seq<string>, Error>)
      requires Valid(State()) && Commits(dag, remote.refs) && |chances| > |listing|
      modifies this, remote`refs
      ensures S.Synced(State(), remote.refs, result)
           == S.RunSync(old(State()), old(remote.refs), d, listing, chances, luck, note)
    {
      hide D.EnterDeviceBranch, S.MergeRefs, S.Push, S.OtherBranches, Reach;
      var error := Fetch(remote, luck);
      if error.Some? { return Err(error.value); }
      ghost var fetched := State();
      error := EnterDeviceBranch(d);
      if error.Some? { return Err(error.value); }
      S.EnteredOwn(fetched, d);

      var own := OwnBranch(d);
      var refsToMerge := [];
      if "main" in tracking { refsToMerge := ["main"]; }
      refsToMerge := refsToMerge + S.OtherBranches(listing, own);
      var merged := MergeRefs(refsToMerge, chances, note);
      if merged.Err? { return Err(merged.error); }
      if !luck.reports { return Err(ReportFailed); }
      result := PushBranch(remote, own, luck, merged.value);
    }
  }
}

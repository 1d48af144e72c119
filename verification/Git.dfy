/**
 One clone and the git commands that wkp runs in it, on values: refs, HEAD, the index, the work tree and an unfinished
 merge.  Files are their contents, by path.
 */
module Git {
  import opened Wrappers
  import opened CommitGraph

  datatype Head = OnBranch(branch: string) | Detached(commit: CommitId)

  datatype Side = Ours | Theirs

  /** The classes that `conflicts` tells apart (crates/wkp-git/src/conflicts.rs:44). */
  datatype ConflictKind = ModifyDelete(deletedBy: Side) | Content | AddAdd | BothDeleted | OtherConflict

  datatype Conflict = Conflict(path: string, kind: ConflictKind)

  datatype Repo = Repo(
    dag: Dag,
    refs: map<string, CommitId>,      // local branches
    tracking: map<string, CommitId>,  // the remote's branches, as last fetched
    head: Head,
    index: Tree,
    unmerged: seq<Conflict>,
    work: Tree,
    mergeHead: Option<CommitId>)

  datatype Error =
    | NotACommit | UnmergedPaths | WouldOverwrite | NoMergeToFinish | NoSuchFile(path: string)
    | NoPaths | SigningFailed | NotRestored | WriteFailed | FetchFailed | ReportFailed | PushRejected

  function At(t: Tree, path: string): Option<string> {
    if path in t then Some(t[path]) else None
  }

  function CommitOf(r: Repo, h: Head): Option<CommitId> {
    match h
    case OnBranch(b) => if b in r.refs then Some(r.refs[b]) else None
    case Detached(c) => Some(c)
  }

  /** What HEAD resolves to: nothing on an unborn branch. */
  function HeadCommit(r: Repo): Option<CommitId> { CommitOf(r, r.head) }

  function HeadTree(r: Repo): Tree
    requires Valid(r)
  {
    match HeadCommit(r)
    case Some(c) => r.dag[c].tree
    case None => map[]
  }

  predicate Valid(r: Repo) {
    && (forall b :: b in r.refs ==> r.refs[b] < |r.dag|)
    && (forall b :: b in r.tracking ==> r.tracking[b] < |r.dag|)
    && (r.head.Detached? ==> r.head.commit < |r.dag|)
    && (r.mergeHead.Some? ==> r.mergeHead.value < |r.dag|)
  }

  // Moving the index and the work tree from one commit to another

  /** Whether git lets one path go from `from` to `to`: nothing to do, already done, or nothing of its own to lose. */
  predicate PathSwitches(from: Option<string>, to: Option<string>, index: Option<string>, work: Option<string>) {
    from == to || index == to || (index == from && (work == index || work == None))
  }

  predicate CanSwitch(from: Tree, to: Tree, index: Tree, work: Tree) {
    forall p :: p in from.Keys + to.Keys ==> PathSwitches(At(from, p), At(to, p), At(index, p), At(work, p))
  }

  /** A staged change stays on a path where the two commits agree. */
  function SwitchedIndex(from: Tree, to: Tree, index: Tree): Tree {
    map p | p in index.Keys + to.Keys && (if At(from, p) == At(to, p) then p in index else p in to)
        :: if At(from, p) == At(to, p) then index[p] else to[p]
  }

  function SwitchedWork(from: Tree, to: Tree, index: Tree, work: Tree): Tree {
    map p | p in work.Keys + to.Keys
            && (if At(from, p) == At(to, p) || At(index, p) == At(to, p) then p in work else p in to)
        :: if At(from, p) == At(to, p) || At(index, p) == At(to, p) then work[p] else to[p]
  }

  lemma SwitchedAt(from: Tree, to: Tree, index: Tree, work: Tree, p: string)
    ensures At(SwitchedIndex(from, to, index), p) == if At(from, p) == At(to, p) then At(index, p) else At(to, p)
    ensures At(SwitchedWork(from, to, index, work), p)
         == if At(from, p) == At(to, p) || At(index, p) == At(to, p) then At(work, p) else At(to, p)
  {
  }

  lemma SameTree(a: Tree, b: Tree)
    requires forall p :: At(a, p) == At(b, p)
    ensures a == b
  {
    assert forall p :: p in a <==> At(a, p).Some?;
    assert forall p :: p in b <==> At(b, p).Some?;
    assert forall p :: p in a ==> a[p] == At(a, p).value == At(b, p).value == b[p];
  }

  /** `git checkout`: a branch or a commit.  An unfinished merge is forgotten. */
  function Checkout(r: Repo, target: Head): Result<Repo, Error>
    requires Valid(r)
  {
    match CommitOf(r, target)
    case None => Err(NotACommit)
    case Some(c) =>
      if c >= |r.dag| then Err(NotACommit)
      else if r.unmerged != [] then Err(UnmergedPaths)
      else
        var from, to := HeadTree(r), r.dag[c].tree;
        if CanSwitch(from, to, r.index, r.work) then
          Ok(r.(head := target,
                index := SwitchedIndex(from, to, r.index),
                work := SwitchedWork(from, to, r.index, r.work),
                mergeHead := None))
        else Err(WouldOverwrite)
  }

  // The index

  function Without(conflicts: seq<Conflict>, path: string): (rest: seq<Conflict>)
    ensures forall c :: c in rest <==> c in conflicts && c.path != path
  {
    if conflicts == [] then []
    else (if conflicts[0].path == path then [] else [conflicts[0]]) + Without(conflicts[1..], path)
  }

  function Entered(r: Repo, path: string, content: string): Repo {
    r.(index := r.index[path := content], unmerged := Without(r.unmerged, path))
  }

  predicate IsUnmerged(conflicts: seq<Conflict>, path: string) {
    exists c :: c in conflicts && c.path == path
  }

  /** `git add -- <path>`: a file that is gone from the work tree is staged as deleted. */
  function Add(r: Repo, path: string): Result<Repo, Error> {
    if path in r.work then Ok(Entered(r, path, r.work[path]))
    else if path in r.index || IsUnmerged(r.unmerged, path) then
      Ok(r.(index := r.index - {path}, unmerged := Without(r.unmerged, path)))
    else Err(NoSuchFile(path))
  }

  // Refs

  function MoveHead(r: Repo, c: CommitId): Repo {
    match r.head
    case OnBranch(b) => r.(refs := r.refs[b := c])
    case Detached(_) => r.(head := Detached(c))
  }

  /** `git branch <name>` at HEAD. */
  function Branch(r: Repo, name: string): Result<Repo, Error> {
    match HeadCommit(r)
    case None => Err(NotACommit)
    case Some(c) => Ok(r.(refs := r.refs[name := c]))
  }

  function NewCommit(r: Repo, parents: seq<CommitId>): Repo {
    MoveHead(r.(dag := r.dag + [Commit(parents, r.index)]), |r.dag|)
  }
}

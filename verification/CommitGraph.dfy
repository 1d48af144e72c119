/**
 The commit graph: commits in the order they were created, each naming older ones as parents.  Object ids are
 content hashes in git, so every clone and the remote can share one store.
 */
module CommitGraph {

  type Tree = map<string, string>

  type CommitId = nat

  datatype Commit = Commit(parents: seq<CommitId>, tree: Tree)

  type Dag = seq<Commit>

  /** `a` is `b` or one of its ancestors. */
  predicate Reach(dag: Dag, a: CommitId, b: CommitId)
    requires b < |dag|
    decreases b
  {
    a == b || exists p :: p in dag[b].parents && p < b && Reach(dag, a, p)
  }

  lemma {:induction false} ReachOlder(dag: Dag, a: CommitId, b: CommitId)
    requires b < |dag| && Reach(dag, a, b)
    ensures a <= b
    decreases b
  {
    if a != b {
      var p :| p in dag[b].parents && p < b && Reach(dag, a, p);
      ReachOlder(dag, a, p);
    }
  }

  lemma {:induction false} ReachTransitive(dag: Dag, a: CommitId, b: CommitId, c: CommitId)
    requires c < |dag| && b < |dag| && Reach(dag, a, b) && Reach(dag, b, c)
    ensures Reach(dag, a, c)
    decreases c
  {
    if b != c {
      var p :| p in dag[c].parents && p < c && Reach(dag, b, p);
      ReachTransitive(dag, a, b, p);
    }
  }

  /** Creating commits changes no ancestry among the old ones. */
  lemma {:induction false} ReachStable(dag: Dag, more: Dag, a: CommitId, b: CommitId)
    requires dag <= more && b < |dag|
    ensures Reach(dag, a, b) <==> Reach(more, a, b)
    decreases b
  {
    if a != b {
      if Reach(dag, a, b) {
        var p :| p in dag[b].parents && p < b && Reach(dag, a, p);
        ReachStable(dag, more, a, p);
      }
      if Reach(more, a, b) {
        var p :| p in more[b].parents && p < b && Reach(more, a, p);
        ReachStable(dag, more, a, p);
      }
    }
  }

  /** A new commit reaches exactly itself and what its parents reach. */
  lemma NewCommitReach(dag: Dag, c: Commit, a: CommitId)
    requires forall p :: p in c.parents ==> p < |dag|
    ensures Reach(dag + [c], a, |dag|)
       <==> a == |dag| || exists p :: p in c.parents && p < |dag| && Reach(dag, a, p)
  {
    var more := dag + [c];
    if a != |dag| {
      if Reach(more, a, |dag|) {
        var p :| p in more[|dag|].parents && p < |dag| && Reach(more, a, p);
        ReachStable(dag, more, a, p);
        assert p in c.parents && Reach(dag, a, p);
      }
      if exists p :: p in c.parents && p < |dag| && Reach(dag, a, p) {
        var p :| p in c.parents && p < |dag| && Reach(dag, a, p);
        ReachStable(dag, more, a, p);
        assert p in more[|dag|].parents;
      }
    }
  }
}

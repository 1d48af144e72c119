/**
 Revoking a device: its recipient goes, and every private file is committed again with the recipients file
 (crates/wkp-cli/src/forget.rs).
 */
module Forget {
  import opened Wrappers
  import opened CommitGraph
  import opened Git
  import D = DeviceBranch
  import Clone
  import I = Index
  import Okf
  import R = Recipients
  import T = RecipientsTheorems

  const RECIPIENTS := "recipients"

  datatype Refusal = NotHuman | NoRecipientsFile | NotRegistered | WouldLeaveNone | CommitFailed(error: Error)

  datatype Revoked = Revoked(commit: CommitId, reencrypted: seq<string>)

  function DeviceLabel(device: string): string { "device:" + device }

  function CountOthers(entries: seq<R.Entry>, tag: string): nat { |T.Others(entries, tag)| }

  predicate IsPrivate(r: Repo, path: string) {
    I.IsMarkdown(path) && path in r.work && Okf.Parse(r.work[path]).frontmatter.visibility == Some(Okf.Private)
  }

  /** The private files among the tracked ones, in git's order. */
  function PrivatePaths(r: Repo, tracked: seq<string>): (paths: seq<string>)
    ensures forall p :: p in paths <==> p in tracked && IsPrivate(r, p)
  {
    if tracked == [] then []
    else (if IsPrivate(r, tracked[0]) then [tracked[0]] else []) + PrivatePaths(r, tracked[1..])
  }

  /** What is checked before anything is written. */
  function Check(r: Repo, principal: string, device: string, read: R.KeyReader): Option<Refusal> {
    if !("human:" <= principal) then Some(NotHuman)
    else if RECIPIENTS !in r.work then Some(NoRecipientsFile)
    else
      var entries := R.Parse(r.work[RECIPIENTS], read);
      if !exists e :: e in entries && e.tag == DeviceLabel(device) then Some(NotRegistered)
      else if CountOthers(entries, DeviceLabel(device)) == 0 then Some(WouldLeaveNone)
      else None
  }

  function Rewritten(r: Repo, device: string): Repo
    requires RECIPIENTS in r.work
  {
    r.(work := r.work[RECIPIENTS := R.Remove(r.work[RECIPIENTS], DeviceLabel(device)).0])
  }

  function ForgetDevice(r: Repo, principal: string, device: string, tracked: seq<string>, read: R.KeyReader,
                        signs: bool)
    : (Repo, Result<Revoked, Refusal>)
  {
    var refused := Check(r, principal, device, read);
    if refused.Some? then (r, Err(refused.value))
    else
      var paths := PrivatePaths(r, tracked);
      var (after, commit) := D.SignedCommit(Rewritten(r, device), [RECIPIENTS] + paths, signs);
      (after, match commit case Ok(c) => Ok(Revoked(c, paths)) case Err(e) => Err(CommitFailed(e)))
  }

  // The program

  method CountRemaining(entries: seq<R.Entry>, tag: string) returns (found: bool, n: nat)
    ensures found <==> exists e :: e in entries && e.tag == tag
    ensures n == CountOthers(entries, tag)
  {
    found, n := false, 0;
    for i := 0 to |entries|
      invariant found <==> exists e :: e in entries[..i] && e.tag == tag
      invariant n + CountOthers(entries[i..], tag) == CountOthers(entries, tag)
    {
      assert entries[..i + 1] == entries[..i] + [entries[i]];
      assert entries[i..][1..] == entries[i + 1..];
      if entries[i].tag == tag { found := true; } else { n := n + 1; }
    }
    assert entries[..|entries|] == entries;
  }

  lemma PrivateStep(r: Repo, paths: seq<string>, tracked: seq<string>, i: nat)
    requires i < |tracked|
    ensures paths + PrivatePaths(r, tracked[i..])
         == (if IsPrivate(r, tracked[i]) then paths + [tracked[i]] else paths) + PrivatePaths(r, tracked[i + 1..])
  {
    hide IsPrivate;
    assert tracked[i..][1..] == tracked[i + 1..];
  }

  method FindPrivate(r: Repo, tracked: seq<string>) returns (paths: seq<string>)
    ensures paths == PrivatePaths(r, tracked)
  {
    hide IsPrivate, PrivatePaths;
    paths := [];
    assert tracked[0..] == tracked;
    for i := 0 to |tracked|
      invariant paths + PrivatePaths(r, tracked[i..]) == PrivatePaths(r, tracked)
    {
      PrivateStep(r, paths, tracked, i);
      if IsPrivate(r, tracked[i]) { paths := paths + [tracked[i]]; }
    }
    NonePrivate(r, tracked);
  }

  lemma NonePrivate(r: Repo, tracked: seq<string>)
    ensures PrivatePaths(r, tracked[|tracked|..]) == []
  {
  }

  method RunForgetDevice(clone: Clone.Repository, principal: string, device: string, tracked: seq<string>,
                         read: R.KeyReader, signs: bool) returns (result: Result<Revoked, Refusal>)
    modifies clone
    ensures (clone.State(), result) == ForgetDevice(old(clone.State()), principal, device, tracked, read, signs)
  {
    hide R.Parse, R.Remove, IsPrivate, D.SignedCommit, PrivatePaths, CountOthers;
    if !("human:" <= principal) { return Err(NotHuman); }
    if RECIPIENTS !in clone.work { return Err(NoRecipientsFile); }
    var tag, entries := DeviceLabel(device), R.Parse(clone.work[RECIPIENTS], read);
    var found, remaining := CountRemaining(entries, tag);
    if !found { return Err(NotRegistered); }
    if remaining == 0 { return Err(WouldLeaveNone); }

    var paths := FindPrivate(clone.State(), tracked);
    var updated, removed := R.RemoveLabel(clone.work[RECIPIENTS], tag);
    T.RemovalIsReported(clone.work[RECIPIENTS], tag, read);
    clone.work := clone.work[RECIPIENTS := updated];
    var commit := clone.SignedCommit([RECIPIENTS] + paths, signs);
    match commit {
      case Ok(c) => return Ok(Revoked(c, paths));
      case Err(e) => return Err(CommitFailed(e));
    }
  }

  // What revocation guarantees

  /**
   A successful revocation commits a recipients file that names exactly the recipients it named before without the
   device, in the same order and at least one; and with it every tracked private file.
   */
  lemma RevocationLeavesOthers(r: Repo, principal: string, device: string, tracked: seq<string>, read: R.KeyReader,
                               signs: bool)
    requires ForgetDevice(r, principal, device, tracked, read, signs).1.Ok?
    ensures RECIPIENTS in r.work
    ensures var (after, result) := ForgetDevice(r, principal, device, tracked, read, signs);
      var before := R.Parse(r.work[RECIPIENTS], read);
      && result.value.commit == |r.dag| && |after.dag| == |r.dag| + 1
      && var tree := after.dag[|r.dag|].tree;
         && RECIPIENTS in tree
         && R.Parse(tree[RECIPIENTS], read) == T.Others(before, "device:" + device)
         && R.Parse(tree[RECIPIENTS], read) != []
         && (forall e :: e in R.Parse(tree[RECIPIENTS], read) ==> e.tag != "device:" + device)
         && (forall p :: p in result.value.reencrypted <==>
               && p in tracked && I.IsMarkdown(p) && p in r.work
               && Okf.Parse(r.work[p]).frontmatter.visibility == Some(Okf.Private))
         && (forall p :: p in result.value.reencrypted && p != RECIPIENTS ==> p in tree && tree[p] == r.work[p])
  {
    PrivateMeans(r);
    assert DeviceLabel(device) == "device:" + device;
    hide R.Parse, R.Remove, IsPrivate, D.StageAll, DeviceLabel, PrivatePaths;
    var tag, paths := DeviceLabel(device), [RECIPIENTS] + PrivatePaths(r, tracked);
    T.RemoveKeepsOthers(r.work[RECIPIENTS], tag, read);
    CommittedRevocation(Rewritten(r, device), paths, signs);
    assert RECIPIENTS in paths;
    forall p | p in tracked && IsPrivate(r, p) && p != RECIPIENTS ensures p in paths && p in r.work {
      PrivateIsThere(r, tracked, p);
    }
  }

  lemma PrivateMeans(r: Repo)
    ensures forall p :: IsPrivate(r, p) <==>
      && I.IsMarkdown(p) && p in r.work && Okf.Parse(r.work[p]).frontmatter.visibility == Some(Okf.Private)
  {
    hide I.IsMarkdown, Okf.Parse;
  }

  lemma CommittedRevocation(r: Repo, paths: seq<string>, signs: bool)
    requires D.SignedCommit(r, paths, signs).1.Ok?
    ensures var (after, commit) := D.SignedCommit(r, paths, signs);
      && commit.value == |r.dag| && |after.dag| == |r.dag| + 1
      && forall p :: p in paths ==>
          p in r.work && p in after.dag[|r.dag|].tree && after.dag[|r.dag|].tree[p] == r.work[p]
  {
    hide D.StageAll;
    var (staged, error) := D.StageAll(r, paths);
    D.StagedIff(r, paths);
    D.StagedKeeps(r, paths);
    forall p | p in paths ensures p in r.work && p in staged.index && staged.index[p] == r.work[p] {
      D.StagedAt(r, paths, p);
    }
  }

  lemma PrivateIsThere(r: Repo, tracked: seq<string>, p: string)
    requires p in tracked && IsPrivate(r, p)
    ensures p in [RECIPIENTS] + PrivatePaths(r, tracked) && p in r.work
  {
  }

  /** Refusing writes nothing, and is exactly for these reasons. */
  lemma RefusedIff(r: Repo, principal: string, device: string, tracked: seq<string>, read: R.KeyReader, signs: bool)
    ensures var (after, result) := ForgetDevice(r, principal, device, tracked, read, signs);
      (result.Err? && !result.error.CommitFailed?)
      <==> !("human:" <= principal) || RECIPIENTS !in r.work
           || (var entries := R.Parse(r.work[RECIPIENTS], read);
               || (forall e :: e in entries ==> e.tag != DeviceLabel(device))
               || (forall e :: e in entries ==> e.tag == DeviceLabel(device)))
    ensures var (after, result) := ForgetDevice(r, principal, device, tracked, read, signs);
      result.Err? && !result.error.CommitFailed? ==> after == r
  {
    hide R.Parse, R.Remove, IsPrivate, D.SignedCommit;
    if RECIPIENTS in r.work {
      var entries := R.Parse(r.work[RECIPIENTS], read);
      NoOthersIff(entries, DeviceLabel(device));
    }
  }

  lemma NoOthersIff(entries: seq<R.Entry>, tag: string)
    ensures CountOthers(entries, tag) == 0 <==> forall e :: e in entries ==> e.tag == tag
  {
    var rest := T.Others(entries, tag);
    if rest != [] { assert rest[0] in rest; }
  }

  /**
   Exactly when a revocation succeeds: it is not refused, there is a key to sign with, and no path is in conflict but
   those it commits.
   */
  lemma RevokedIff(r: Repo, principal: string, device: string, tracked: seq<string>, read: R.KeyReader, signs: bool)
    ensures ForgetDevice(r, principal, device, tracked, read, signs).1.Ok?
       <==> && Check(r, principal, device, read) == None && signs
            && D.ConflictsOnlyOn(r, [RECIPIENTS] + PrivatePaths(r, tracked))
  {
    hide R.Parse, R.Remove, IsPrivate, D.SignedCommit, DeviceLabel, PrivatePaths;
    if Check(r, principal, device, read) == None {
      var rewritten, paths := Rewritten(r, device), [RECIPIENTS] + PrivatePaths(r, tracked);
      PathsAreThere(r, device, tracked);
      D.SignedIff(rewritten, paths, signs);
    }
  }

  lemma PathsAreThere(r: Repo, device: string, tracked: seq<string>)
    requires RECIPIENTS in r.work
    ensures forall p :: p in [RECIPIENTS] + PrivatePaths(r, tracked) ==> p in Rewritten(r, device).work
  {
    hide R.Remove, Okf.Parse, I.IsMarkdown, DeviceLabel;
  }

  /**
   A revocation that fails leaves the clone as it was if and only if it was refused beforehand.  When the commit fails,
   for whatever reason, the device is gone from the recipients file in the work tree all the same.
   */
  lemma FailedRevocationStaysRewritten(r: Repo, principal: string, device: string, tracked: seq<string>,
                                       read: R.KeyReader, signs: bool)
    requires ForgetDevice(r, principal, device, tracked, read, signs).1.Err?
    ensures var after := ForgetDevice(r, principal, device, tracked, read, signs).0;
      && (after == r <==> Check(r, principal, device, read).Some?)
      && after.dag == r.dag && after.refs == r.refs && after.head == r.head
      && (Check(r, principal, device, read) == None ==>
            && RECIPIENTS in r.work && RECIPIENTS in after.work
            && R.Parse(after.work[RECIPIENTS], read)
               == T.Others(R.Parse(r.work[RECIPIENTS], read), DeviceLabel(device)))
  {
    hide R.Parse, R.Remove, IsPrivate, D.StageAll, DeviceLabel, PrivatePaths;
    if Check(r, principal, device, read) == None {
      var paths, tag := [RECIPIENTS] + PrivatePaths(r, tracked), DeviceLabel(device);
      T.RemoveKeepsOthers(r.work[RECIPIENTS], tag, read);
      D.StagedKeeps(Rewritten(r, device), paths);
      var entries := R.Parse(r.work[RECIPIENTS], read);
      var e :| e in entries && e.tag == tag;
      assert e !in T.Others(entries, tag);
    }
  }
}

# A verified model of wkp

`wkp` keeps an agent's memory as markdown in git, syncs it between devices and derives a search index from it. This
project models the logic of that program in Dafny and proves what it keeps, what it restores and what it loses.

| files | what they model |
|---|---|
| `CommitGraph`, `Protocol`, `Convergence` | the sync protocol as a state machine: devices commit, fetch, merge and push in any interleaving against one remote |
| `Git`, `DeviceBranch`, `DeviceBranchTheorems` | one clone (refs, HEAD, index, work tree, unfinished merge), the git commands wkp runs, and committing on the device's own branch |
| `Notes`, `Sync`, `SyncTheorems`, `SyncProtocol`, `SyncLiveness` | merging fetched refs, modify/delete conflicts with their inbox notes, the whole of `wkp sync`, and when it succeeds |
| `Refinement`, `Fleet` | every command is a run of the protocol; any number of devices running commands in any order, with users working on their clones in between |
| `Clone` | the same commands as programs that change a clone step by step |
| `Text`, `Okf`, `OkfLines`, `OkfRoundTrip`, `OkfCanonical`, `OkfLists`, `OkfBody`, `OkfBlocks`, `OkfMeaning`, `OkfDebug`, `OkfUnread`, `OkfPrinted`, `OkfProgram` | the frontmatter parser and printer, what written fields mean, and the lines that the parser passes over |
| `Merge`, `MergeTheorems` | the three-way merge driver |
| `Json`, `JsonTheorems`, `JsonTree`, `JsonCut` | the JSON string printer and the scanner for one top-level string field |
| `Porcelain`, `Index`, `IndexStatus` | reading `git status --porcelain=v2`, incremental indexing, and what of a clone it misses |
| `Registry`, `RegistryProgram`, `RegistryRefinement` | the registry of open connections, as a concurrent state machine and as classes whose methods are its steps |
| `Recipients`, `RecipientsTheorems`, `Forget` | edits of the recipients file, and revoking a device |
| `Fusion` | reciprocal rank fusion with rounded scores, embeddings as bytes |

Code that works step by step in the repository is a method or a class here, proved equal to a function; the theorems are
about those functions. `hide` statements in proofs only limit what the solver looks at.

What the environment decides is a parameter: what git makes of a true merge, whether a commit can be signed, whether
the network and the disk cooperate, the embeddings of texts, the names that notes are written under, which characters
Rust's `{:?}` prints as they are, how a recipient string is read, who signed a file's last commit. Commits are
numbered in the order they are made, and every clone sees the same store of them, as object ids name the same contents
everywhere.

## Where the code and its documentation differ

- The merge driver says that nothing is ever discarded. A clean merge takes `refs`, tokens and provenance from ours
  alone (`MergeTheorems.TheirNewRefIsLost`), a quote in a title comes back escaped
  (`MergeTheorems.QuoteInTitleIsAltered`), and lines that no parsed field shows are gone: comments, unknown keys with
  what stands below them, lines without a key, earlier values of a repeated key (`MergeTheorems.UnknownLineIsLost`).
  `MergeTheorems.NothingLostIff` gives the exact condition for any three texts. When the merged frontmatter is
  canonical, it is that every reference of theirs is one of ours, theirs has the tokens and provenance of the base or
  of ours, and neither side has an unread line. Tags and references are compared as sets.
- A signed commit is said to contain exactly the given paths. It contains every other staged change on which HEAD and
  the device's branch agree (`DeviceBranchTheorems.ExactlyPathsIff`); a commit that could not be signed leaves such a
  change behind (`DeviceBranchTheorems.FailedCommitIsSweptUp`). `DeviceBranchTheorems.FailedCommitKeepsIndexIff` says
  when a failed commit leaves the index as it was.
- A removal commit of a path whose file still exists commits the file's contents (`DeviceBranch.RemovalRemovesIff`).
- After a commit from another branch the committed files are gone from the work tree
  (`DeviceBranchTheorems.CloneAfterCommit`).
- Merging a list of refs merges an unfinished merge instead of the first ref if there is one
  (`SyncTheorems.PendingMergeIff`). Neither `wkp sync` nor `wkp bundle import` can meet this, since checking out the
  device's branch forgets an unfinished merge.
- Incremental indexing misses not only edits that were committed before it ran but every later edit of a file that is
  not in HEAD yet (`IndexStatus.MissedEdits`, `IndexStatus.UntrackedEditIsMissed`). A markdown file that is in conflict
  or newly named but gone from the work tree, or a new or changed one that is not UTF-8, makes every run fail
  (`IndexStatus.ReadableIff`).
- The periodic sweep for revoked devices is said to run on every timeout. A session in which nothing is received ends
  without a sweep (`RegistryProgram.ConnectionRegistry.RevokedIsClosedIff`).
- The JSON scanner takes a code such as `\u+041` for `\u0041`, which RFC 8259 does not allow (`JsonTheorems.PlusRead`).
- A revocation that fails has rewritten the recipients file all the same, unless it was refused before anything was
  written (`Forget.FailedRevocationStaysRewritten`); `Forget.RevokedIff` says when it succeeds.

## Model

| member | source | states |
|---|---|---|
| Protocol.StepInv | crates/wkp-cli/src/sync_cmd.rs:95-126 | every step of every device, in any interleaving, keeps the remote's copy of each device's branch an ancestor of the device's own |
| Protocol.RunInv | crates/wkp-cli/src/sync_cmd.rs:95-126 | that holds in every world of every run, and commits are only ever added |
| Protocol.TipGrowsOverRun | crates/wkp-git/src/sync.rs:54-81 | a device's branch only moves forward over any stretch of any run |
| Protocol.PushIsFastForward | crates/wkp-git/src/remote.rs:163-165 | every push in every run is a fast-forward |
| Protocol.RemoteGrows | crates/wkp-git/src/remote.rs:154-165 | what a remote sync branch reaches is never lost |
| Protocol.OwnBranchInjective | crates/wkp-git/src/sync.rs:54-56 | devices with distinct ids have distinct branches, none of them `main` |
| Convergence.SyncReaches | crates/wkp-cli/src/sync_cmd.rs:103-118 | a clean sync leaves the device's tip above every other device's branch as it was on the remote at the fetch |
| Convergence.OneMoreSyncReachesAll | crates/wkp-cli/src/sync_cmd.rs:96-118 | after one round of pushes, one clean sync of any device brings it every commit made before the round |
| Convergence.TwoRoundsConverge | crates/wkp-cli/src/sync_cmd.rs:96-118 | two rounds bring every commit to every device, and it stays there |
| Convergence.OneRoundIsNotEnough | crates/wkp-cli/src/sync_cmd.rs:96-118 | a run in which a whole round leaves one device without the other's commit |
| CommitGraph.NewCommitReach | crates/wkp-git/src/signed_commit.rs:126-176 | a new commit reaches exactly itself and what its parents reach |
| DeviceBranch.StagedAt | crates/wkp-git/src/signed_commit.rs:66-82 | staging overwrites the index at exactly the given paths |
| DeviceBranch.StagedIff | crates/wkp-git/src/signed_commit.rs:66-82 | it gets through exactly if every path has a file |
| DeviceBranch.StagingOrder | crates/wkp-git/src/signed_commit.rs:66-82 | order and repetition of the paths do not matter |
| DeviceBranch.StagedConflicts | crates/wkp-git/src/signed_commit.rs:66-82 | a conflict is left after staging exactly if its path was not staged |
| DeviceBranch.SignedIff | crates/wkp-git/src/signed_commit.rs:58-84 | exactly when a signed commit is made, from any state of a clone |
| DeviceBranch.SignedRemovalIff | crates/wkp-git/src/signed_commit.rs:99-118 | exactly when a removal commit is made |
| DeviceBranch.RemovalRemovesIff | crates/wkp-git/src/signed_commit.rs:99-118 | a removal commit removes a path just when its file is gone, and otherwise commits the file |
| DeviceBranchTheorems.EnterIff | crates/wkp-git/src/sync.rs:65-81 | when git lets HEAD move onto the device's branch, created if need be, and what the clone then is |
| DeviceBranchTheorems.OnlyDeviceBranchMoves | crates/wkp-git/src/sync.rs:134-187 | however the call ends, no ref but the device's branch moves and at most one commit is added |
| DeviceBranchTheorems.UnbornHeadIsRetargeted | crates/wkp-git/src/sync.rs:146-160 | on an unborn HEAD the device's branch becomes current, and the commit holds the index overwritten at the paths |
| DeviceBranchTheorems.UnbornSucceedsIff | crates/wkp-git/src/sync.rs:146-160 | and the call succeeds exactly if there is a key, paths are given, each with a file, and no other path is in conflict |
| DeviceBranchTheorems.SucceedsIff | crates/wkp-git/src/sync.rs:134-187 | exactly when the call succeeds, told from the clone before it |
| DeviceBranchTheorems.HeadIsRestored | crates/wkp-git/src/sync.rs:176-186 | if HEAD is not back, the call failed and git refuses to go back |
| DeviceBranchTheorems.CommitShape | crates/wkp-git/src/sync.rs:162-186 | the new commit's only parent is the old tip of the device's branch, whose new tip it is, and HEAD is back |
| DeviceBranchTheorems.CommittedAt | crates/wkp-git/src/signed_commit.rs:58-84 | its tree, path by path |
| DeviceBranchTheorems.ExactlyPathsIff | crates/wkp-git/src/signed_commit.rs:31-41 | it changes only the given paths if and only if no other path on which HEAD and the branch agree was staged |
| DeviceBranchTheorems.CloneAfterCommit | crates/wkp-git/src/sync.rs:162-187 | index and work tree after coming back from the device's branch |
| DeviceBranchTheorems.FailedCommitStaysStaged | crates/wkp-git/src/sync.rs:165-186 | a commit that cannot be signed leaves its files staged |
| DeviceBranchTheorems.FailedCommitIsSweptUp | crates/wkp-git/src/signed_commit.rs:126-176 | and the next successful call commits them unasked |
| DeviceBranchTheorems.FailedCommitKeepsIndexIff | crates/wkp-git/src/sync.rs:134-187 | when a commit failed and HEAD is back, the index is as it was if and only if the branch could not be entered, or each path staged before the failure had the same contents in index and work tree where HEAD and the branch agree, and the index agreed with HEAD where they do not |
| DeviceBranchTheorems.UncommittedEditsSurvive | crates/wkp-git/src/sync.rs:112-187 | however the call ends, an edited file that was neither staged nor asked for keeps its contents |
| SyncTheorems.MergeOneJoins | crates/wkp-git/src/remote.rs:105-146 | a merge that succeeds gives the tip exactly the ancestors of both sides; one that fails moves no ref |
| SyncTheorems.FinishMergeIff | crates/wkp-git/src/remote.rs:134-146 | exactly when an unfinished merge can be concluded, and the parents and tree of its commit |
| SyncTheorems.MergeRefsBring | crates/wkp-cli/src/sync_cmd.rs:169-183 | an old commit is behind the new tip exactly if it was behind the old tip or one of the merged refs |
| SyncTheorems.MergedAllRefs | crates/wkp-cli/src/sync_cmd.rs:169-183 | with no merge left unfinished, success means descending from the old tip and every listed ref |
| SyncTheorems.PendingMergeIff | crates/wkp-cli/src/sync_cmd.rs:169-183 | with one, exactly when it still does |
| SyncTheorems.PendingMergePassesOver | crates/wkp-cli/src/sync_cmd.rs:169-183 | a clone in which the only listed ref is passed over |
| SyncTheorems.ResolvedAt | crates/wkp-cli/src/resolve_conflicts.rs:41-86 | the index after resolving, path by path |
| SyncTheorems.NoteAt | crates/wkp-cli/src/resolve_conflicts.rs:49-82 | each conflict's note is staged under its name |
| SyncTheorems.AddStages | crates/wkp-cli/src/resolve_conflicts.rs:41-86 | what staging one path does to index and conflicts, and when it fails |
| SyncTheorems.ModificationsSurvive | crates/wkp-cli/src/resolve_conflicts.rs:41-86 | a stopped merge is completed if and only if it has only modify/delete conflicts; the commit keeps every modification, its note, and the rest as merged |
| SyncTheorems.CleanMergeKeepsEdits | crates/wkp-git/src/remote.rs:105-121 | a merge that git completes keeps edited files and a clean index, and its commit has both sides as parents |
| Notes.NoteIsProposed | crates/wkp-cli/src/resolve_conflicts.rs:61-75 | whatever the path is called, the note is read as a proposal by the resolver with its whole text as body and no warning, and its title names the path |
| Notes.NoteNamesSides | crates/wkp-cli/src/resolve_conflicts.rs:49-75 | the note says which side deleted the file and whose modification is kept |
| Notes.BlockIsRendered | crates/wkp-cli/src/remember.rs:81-100 | the hand-written block is what the frontmatter printer prints |
| SyncProtocol.SyncBringsAll | crates/wkp-cli/src/sync_cmd.rs:95-126 | a successful sync pushes a tip above the device's old branch and every branch that was fetched |
| SyncProtocol.SyncBringsNothingElse | crates/wkp-cli/src/sync_cmd.rs:95-126 | and above nothing else |
| SyncProtocol.FailedSyncPushesNothing | crates/wkp-cli/src/sync_cmd.rs:95-126 | a failed sync leaves the remote and every other branch as they were |
| SyncProtocol.SyncSucceedsIff | crates/wkp-cli/src/sync_cmd.rs:95-126 | the push never makes a sync fail when the remote's copy is behind: it succeeds exactly if network, report, entry and merges do |
| SyncLiveness.UpToDateTurn | crates/wkp-cli/src/sync_cmd.rs:169-183 | a ref that is behind HEAD is merged without changing anything; one that was never fetched is not merged |
| SyncLiveness.FastForwardTurnIff | crates/wkp-git/src/remote.rs:105-121 | for a ref ahead of HEAD: success exactly if no path would lose anything, told path by path, and the tip, index and files then; a failure changes nothing |
| SyncLiveness.TrueMergeTurnIff | crates/wkp-git/src/remote.rs:105-146 | for histories that have parted: success exactly if git can merge them, nothing is staged and no path would lose anything; the merge commit, index and files then |
| SyncLiveness.NothingNewSync | crates/wkp-cli/src/sync_cmd.rs:95-126 | when all that is fetched is behind the device's branch, a sync succeeds whatever is edited or staged, makes no commit and changes nothing but the remote-tracking refs |
| SyncLiveness.SecondSyncChangesNothing | crates/wkp-cli/src/sync_cmd.rs:95-126 | a second sync with the remote as the first left it succeeds and changes nothing |
| SyncLiveness.TidySyncSucceeds | crates/wkp-cli/src/sync_cmd.rs:95-126 | from a clone with nothing uncommitted, wherever HEAD is, a sync succeeds if the network does and git can merge; the files are then those of the pushed tip, and untracked ones are as they were |
| SyncLiveness.UnbornSyncFails | crates/wkp-git/src/sync.rs:65-81 | with no commit and no branch of its own yet a sync fails and pushes nothing |
| SyncProtocol.UnmergedFails | crates/wkp-cli/src/sync_cmd.rs:95-126 | with unmerged paths a sync fails on entry, having changed only what it fetched and the device's branch if that was missing |
| SyncProtocol.ListedRefs | crates/wkp-git/src/remote.rs:172-192 | the refs to merge are `main` and every sync branch but the device's own |
| Refinement.SyncIsARun | crates/wkp-cli/src/sync_cmd.rs:95-126 | a sync, however it ends, is a run of the protocol's steps |
| Refinement.SyncKeepsInv | crates/wkp-cli/src/sync_cmd.rs:95-126 | so it keeps the invariant |
| Refinement.CommitIsARun | crates/wkp-git/src/sync.rs:134-187 | so is a commit on the device's branch |
| Refinement.MergeOneIsMergeInto | crates/wkp-git/src/remote.rs:105-146 | merging one ref does to the commit graph what the protocol's merge step does |
| Fleet.CommandKeepsInv | crates/wkp-cli/src/sync_cmd.rs:95-126 | every command of any of many devices keeps the protocol's invariant, and so does all that users do in between: edits of files, index, HEAD, conflicts and other branches, commits and fetches by hand, moves of the remote's `main` |
| Fleet.NoPushIsRejected | crates/wkp-git/src/remote.rs:154-165 | in every history of commits, syncs and such work no push is rejected, though never forced |
| Fleet.NothingPushedIsLost | crates/wkp-git/src/remote.rs:154-165 | what a pushed branch reaches stays reachable from it in every history |
| Fleet.OneMoreSyncHasAll | crates/wkp-cli/src/sync_cmd.rs:77-94 | once every device has synced since some time, one more sync of any device leaves it with all that any device had |
| Fleet.StuckUntilCleared | crates/wkp-cli/src/sync_cmd.rs:95-126 | while a clone has unmerged paths that its user does not clear, every sync and commit in it fails and leaves HEAD, index, conflicts and files as they are |
| Fleet.StoppedIsStuck | crates/wkp-cli/src/sync_cmd.rs:169-183 | and a sync that reports unmerged paths leaves its clone so |
| Clone.Repository.CheckoutHead | crates/wkp-git/src/sync.rs:104-110 | the program leaves the clone that the checkout function gives |
| Clone.Repository.CommitCurrentIndex | crates/wkp-git/src/signed_commit.rs:126-176 | the program equals the function on values |
| Clone.Repository.SignedCommit | crates/wkp-git/src/signed_commit.rs:58-84 | the staging loop and commit equal the function, also on failure half way |
| Clone.Repository.SignedRemovalCommit | crates/wkp-git/src/signed_commit.rs:99-118 | likewise |
| Clone.Repository.EnsureDeviceBranch | crates/wkp-git/src/sync.rs:65-81 | likewise |
| Clone.Repository.CommitToDeviceBranch | crates/wkp-git/src/sync.rs:134-187 | likewise, with the previous HEAD captured and restored |
| Clone.Repository.MergeBranch | crates/wkp-git/src/remote.rs:105-121 | up to date, fast-forward, true merge, stopped or refused, as the function says |
| Clone.Repository.ResolveModifyDelete | crates/wkp-cli/src/resolve_conflicts.rs:41-86 | the loop equals the function on the list of conflicts |
| Clone.Repository.FinishMerge | crates/wkp-git/src/remote.rs:134-146 | likewise |
| Clone.Repository.MergeRefs | crates/wkp-cli/src/sync_cmd.rs:169-183 | the loop equals the function on the list of refs |
| Clone.Repository.PushBranch | crates/wkp-git/src/remote.rs:163-165 | likewise, changing nothing when rejected |
| Clone.Repository.RunSync | crates/wkp-cli/src/sync_cmd.rs:95-126 | the whole command equals the function on clone and remote |
| OkfRoundTrip.RenderThenParse | crates/wkp-core/src/frontmatter.rs:255-349 | for frontmatter without a newline in a bare field and any body: no warning, the body unchanged, each field as described |
| OkfRoundTrip.WrittenFileParses | crates/wkp-core/src/frontmatter.rs:411-455 | a file of plain `name: value` lines is read as those fields |
| OkfBlocks.BlockListParses | crates/wkp-core/src/frontmatter.rs:568-604 | a list with an item to a line is parsed to exactly those items in order, with commas, in quotes or not; lines without a dash do not matter |
| OkfMeaning.TextMeans | crates/wkp-core/src/frontmatter.rs:506-541 | plain text behind a key is that key's value and sets no other |
| OkfMeaning.QuotesMean | crates/wkp-core/src/frontmatter.rs:466-474 | quotes of either kind are taken off |
| OkfMeaning.SpacedFieldParses | crates/wkp-core/src/frontmatter.rs:457-465 | white space around the colon does not matter |
| OkfMeaning.NullMeans | crates/wkp-core/src/frontmatter.rs:506-553 | `null`, `~` and empty quotes mean no value for every key |
| OkfMeaning.WordsMean | crates/wkp-core/src/frontmatter.rs:506-541 | type, scope, visibility and confidence are set from the word behind their key |
| OkfMeaning.TypeWords | crates/wkp-core/src/frontmatter.rs:34-62 | which word is which item type; any other word is kept |
| OkfMeaning.OtherWords | crates/wkp-core/src/frontmatter.rs:64-200 | the same for scope, visibility, confidence and source |
| OkfMeaning.TokensMean | crates/wkp-core/src/frontmatter.rs:496-534 | tokens keep their text besides the number |
| OkfMeaning.NumbersRead | crates/wkp-core/src/frontmatter.rs:496-504 | a number is read as itself if it fits 32 bits, and characters that are no digits do not matter |
| OkfMeaning.CountIsPrinted | crates/wkp-core/src/frontmatter.rs:333-337 | a number of tokens without a text is printed and read back as the number |
| OkfMeaning.ListsMean | crates/wkp-core/src/frontmatter.rs:482-494 | a single word is a list of one, a list in brackets is its items |
| OkfMeaning.StrayLinesWarn | crates/wkp-core/src/frontmatter.rs:411-455 | lines without a key and stray indented lines set nothing and give their warning |
| OkfMeaning.EveryStrayLineWarns | crates/wkp-core/src/frontmatter.rs:411-455 | one warning for each such line, in their order |
| OkfMeaning.TopLevelWarns | crates/wkp-core/src/frontmatter.rs:527-534 | a provenance field without indentation is used, with a warning |
| OkfCanonical.RoundTripIff | crates/wkp-core/src/frontmatter.rs:255-349 | printing and parsing gives back frontmatter and body without a warning if and only if the frontmatter is canonical |
| OkfCanonical.QuotedIff | crates/wkp-core/src/frontmatter.rs:466-474 | a quoted field comes back exactly if `{:?}` escapes nothing in it and it is not read as null |
| OkfDebug.LiteralStandsFor | crates/wkp-core/src/frontmatter.rs:295-349 | a value printed with `{:?}` is a Rust string literal that stands for exactly that text |
| OkfDebug.EscapesMean | crates/wkp-core/src/frontmatter.rs:295-349 | which characters are printed as they are, and which by a letter |
| OkfCanonical.ListIff | crates/wkp-core/src/frontmatter.rs:482-494 | a list comes back exactly if every item is non-empty, trimmed, unquoted and without commas |
| OkfLists.ListIsPieces | crates/wkp-core/src/frontmatter.rs:482-494 | any list, canonical or not, is read back as the pieces of its items: cut at commas, trimmed, unquoted, empty ones dropped |
| OkfLists.SameItemsReadBack | crates/wkp-core/src/frontmatter.rs:482-494 | so lists with the same items are read back with the same items, whatever their order |
| OkfLists.NoItemMissingIff | crates/wkp-core/src/frontmatter.rs:482-494 | no item is missing after reading a list back exactly if every item can be read back by itself |
| OkfCanonical.BareIff | crates/wkp-core/src/frontmatter.rs:466-480 | the same for a bare value |
| OkfCanonical.TokensIff | crates/wkp-core/src/frontmatter.rs:496-503 | the same for tokens, whose number and text must agree |
| OkfCanonical.TypeIff | crates/wkp-core/src/frontmatter.rs:34-62 | the same for the item type, where `Other` may spell no keyword |
| OkfCanonical.NormalizeIff | crates/wkp-core/src/frontmatter.rs:295-349 | reading back changes nothing exactly on canonical frontmatter |
| OkfCanonical.ParsedIsSingleLine | crates/wkp-core/src/frontmatter.rs:255-291 | no input, however malformed, yields a field that would not print on one line |
| OkfBody.BodyIsKept | crates/wkp-core/src/frontmatter.rs:255-384 | for every input: the body is all that follows the first closing delimiter, or the whole input; a warning is given for an opening delimiter that is never closed |
| OkfUnread.ParsedByStanding | crates/wkp-core/src/frontmatter.rs:411-604 | the parsed frontmatter of any file is what its read lines make of nothing: the unread lines have no effect |
| OkfUnread.StandingIsParsed | crates/wkp-core/src/frontmatter.rs:411-604 | each read line shows: its field has the value the line says, whatever came before |
| OkfUnread.EveryLineCounted | crates/wkp-core/src/frontmatter.rs:391-455 | every line of a block that is not blank is either read or unread, and counted once |
| OkfPrinted.PrintedUnread | crates/wkp-core/src/frontmatter.rs:295-349 | the unread lines of printed frontmatter are exactly those of its blank values |
| OkfProgram.SplitAtClosingDelimiter | crates/wkp-core/src/frontmatter.rs:371-384 | the line loop finds the first closing delimiter, as the function does |
| OkfProgram.ApplyProvenanceBlock | crates/wkp-core/src/frontmatter.rs:568-604 | the loop over the children equals the function |
| OkfProgram.ApplyBlockValue | crates/wkp-core/src/frontmatter.rs:568-604 | likewise |
| OkfProgram.CollectChildren | crates/wkp-core/src/frontmatter.rs:411-455 | the end of a run of indented lines |
| OkfProgram.ParseBlock | crates/wkp-core/src/frontmatter.rs:411-455 | the block loop equals the parser function, warnings included |
| OkfProgram.ParseFile | crates/wkp-core/src/frontmatter.rs:255-291 | the whole parser equals the function |
| OkfProgram.RenderBlock | crates/wkp-core/src/frontmatter.rs:295-349 | the printer's pushes equal the function |
| Merge.ResolveScalar | crates/wkp-core/src/merge.rs:129-142 | the field after the three-way rule, and whether it conflicts |
| Merge.UnionTags | crates/wkp-core/src/merge.rs:146-155 | the loop equals the union function, ours's own duplicates kept |
| Merge.MergeFiles | crates/wkp-core/src/merge.rs:35-121 | the driver equals the function |
| MergeTheorems.ThreeWayRule | crates/wkp-core/src/merge.rs:129-142 | a conflict is two different changes; otherwise whichever side changed wins |
| MergeTheorems.UnionElements | crates/wkp-core/src/merge.rs:146-155 | the union has exactly the elements of both sides |
| MergeTheorems.UnionAddsOnce | crates/wkp-core/src/merge.rs:144-155 | ours's own duplicates stay, and a tag only theirs has is added once |
| MergeTheorems.MaxUpdatedRule | crates/wkp-core/src/merge.rs:161-168 | the result is one of both dates, no earlier than either, on whichever side |
| MergeTheorems.LaterDateWins | crates/wkp-core/src/merge.rs:161-168 | of two dates the one with the greater character where they first differ wins, a longer one over its own beginning, and any over none |
| MergeTheorems.CleanMergeReads | crates/wkp-core/src/merge.rs:35-121 | re-reading a clean merge of any three texts |
| MergeTheorems.CleanMergeFaithfulIff | crates/wkp-core/src/merge.rs:107-121 | it is read as the merged frontmatter exactly when that is canonical |
| MergeTheorems.CleanMergeKeepsChanges | crates/wkp-core/src/merge.rs:35-121 | in the re-read text every change of either side is there, every tag, the later date, and the selected body after one newline |
| MergeTheorems.MergeIsSymmetric | crates/wkp-core/src/merge.rs:40-121 | swapping the sides changes neither whether it conflicts nor, in the re-read text, scalars, date, body and tag set |
| MergeTheorems.UnchangedSideYields | crates/wkp-core/src/merge.rs:129-142 | a side equal to the base never conflicts and the other side is the result |
| MergeTheorems.SameSidesAgree | crates/wkp-core/src/merge.rs:40-121 | two sides that are the same never conflict and are the result |
| MergeTheorems.ConflictKeepsBoth | crates/wkp-core/src/merge.rs:174-194 | both inputs, less trailing white space, are disjoint parts of a conflicted file in order |
| MergeTheorems.ConflictNamesActors | crates/wkp-core/src/merge.rs:174-194 | in a conflicted file each version follows the line that names its own side and its own author |
| MergeTheorems.MarkerIffConflict | crates/wkp-core/src/merge.rs:107-121 | the output starts with the marker exactly when a scalar or the body diverged, and is then read as all body |
| MergeTheorems.RestComesFromOurs | crates/wkp-core/src/merge.rs:41-105 | `refs`, tokens and provenance of any clean merge are read as ours's alone would be; with canonical frontmatter theirs survive exactly if they are ours |
| MergeTheorems.NothingLostIff | crates/wkp-core/src/merge.rs:35-121 | exactly when a clean merge of any three texts discards nothing, neither a value nor a line: when what was chosen and the lists can be read back, ours's tokens and provenance hold every change, and no side has an unread line but that of blank tokens; with canonical frontmatter, when theirs has no new reference, no tokens or provenance of its own, and no side an unread line |
| MergeTheorems.NoValueLostIff | crates/wkp-core/src/merge.rs:35-121 | the same for parsed values alone, told from the three texts, for every clean merge, canonical or not |
| MergeTheorems.CleanMergeUnread | crates/wkp-core/src/merge.rs:107-121 | with all but tokens and provenance canonical a clean merge has no unread line but that of blank tokens; when all is canonical it has none |
| MergeTheorems.TheirNewRefIsLost | crates/wkp-core/src/merge.rs:41-105 | a reference only their side added is gone |
| MergeTheorems.UnknownLineIsLost | crates/wkp-core/src/merge.rs:35-121 | a line with an unknown key that only our side added is gone, though no parsed value is lost |
| MergeTheorems.QuoteInTitleIsAltered | crates/wkp-core/src/merge.rs:107-121 | merging three identical files can alter the title |
| MergeTheorems.RemergeGrowsBody | crates/wkp-core/src/merge.rs:107-121 | each merge of identical files puts one more newline before the body |
| Json.PrintString | crates/wkp-cli/src/search.rs:252-268 | the loop equals the printer function |
| Json.ReadJsonString | crates/wkp-cli/src/prompt_hook.rs:225-268 | the index loop equals the reader function, value and end offset |
| Json.ExtractField | crates/wkp-cli/src/prompt_hook.rs:155-208 | the depth-counting loop equals the scanner function |
| JsonTheorems.LiteralRead | crates/wkp-cli/src/prompt_hook.rs:225-268 | any RFC 8259 string literal, whatever follows it, is read as its characters and exactly the text behind it |
| JsonTheorems.SpelledRead | crates/wkp-cli/src/prompt_hook.rs:225-268 | a literal that spells a string character by character, each as itself, by its letter or by its code in either case, is read as that string |
| JsonTheorems.EscapesReadIff | crates/wkp-cli/src/prompt_hook.rs:225-268 | nothing else is read behind a backslash, but for a plus sign in front of three digits |
| JsonTheorems.PlusRead | crates/wkp-cli/src/prompt_hook.rs:225-268 | which is read as if it were a zero |
| JsonTheorems.PrintedStringRead | crates/wkp-cli/src/search.rs:252-268 | a printed string, wherever it stands, is read back with its exact end |
| JsonTheorems.SurrogatesIff | crates/wkp-cli/src/prompt_hook.rs:225-268 | the reader agrees with the RFC exactly when the literal has no surrogate escape |
| JsonTheorems.CutLiteral | crates/wkp-cli/src/prompt_hook.rs:225-268 | a literal cut before its closing quote is not read at all |
| JsonTree.PassTree | crates/wkp-cli/src/prompt_hook.rs:155-208 | nested values and string contents never affect the scan |
| JsonTree.ExtractFromObject | crates/wkp-cli/src/prompt_hook.rs:155-208 | for every printed JSON object the answer is what its top-level members say |
| JsonTree.OnlyObjectsHaveFields | crates/wkp-cli/src/prompt_hook.rs:155-208 | a text that is no object has no field |
| JsonCut.CutObjectHasNoField | crates/wkp-cli/src/prompt_hook.rs:200-208 | no proper prefix of a printed object yields a value |
| Porcelain.StatusIsRead | crates/wkp-git/src/changes.rs:63-110 | whatever git reports is read as exactly that, bucket by bucket and conflict by conflict |
| Porcelain.ConflictMeans | crates/wkp-git/src/conflicts.rs:75-108 | the class of a conflict says exactly which of the common version, ours and theirs there are, so whose deletion it is |
| Porcelain.OtherLinesIgnored | crates/wkp-git/src/changes.rs:63-110 | lines of another kind and lines with too few fields are passed over |
| Porcelain.SplitJoined | crates/wkp-git/src/changes.rs:72-76 | splitting a status line gives its fields, and a path keeps its spaces |
| Porcelain.Buckets.Classify | crates/wkp-git/src/changes.rs:113-127 | one ordinary entry goes to the bucket of its letters |
| Porcelain.Buckets.Parse | crates/wkp-git/src/changes.rs:63-110 | the line loop equals the function |
| Porcelain.FindConflicts | crates/wkp-git/src/conflicts.rs:75-108 | likewise |
| Index.Store.Update | crates/wkp-core/src/index/store.rs:249-258 | rows are deleted, then replaced |
| Index.Store.Run | crates/wkp-cli/src/index_cmd.rs:57-158 | succeeds exactly if the index opens, every file to read is there, embeddings can be configured if asked for and the index can be written; which of these failed; each row that was read holds what the parser finds in its file, its signer and the embedding of title and body, each other one is kept; the counts, and nothing changed on failure |
| Index.EmbedRows | crates/wkp-cli/src/index_cmd.rs:266-285 | every row that was read gets the embedding of its title and body, or none if the endpoint fails for it |
| Index.CurrentPaths | crates/wkp-cli/src/index_cmd.rs:63-91 | the set arithmetic over what git reports |
| Index.RowsAfterRun | crates/wkp-cli/src/index_cmd.rs:108-134 | which rows a run leaves and what each holds |
| Index.MarkdownIff | crates/wkp-cli/src/index_cmd.rs:65-65 | a path is markdown if its last part is more than the ending `.md`, in whatever directory |
| Index.StaleAfterRun | crates/wkp-cli/src/index_cmd.rs:99-120 | rows for exactly the current paths; stale exactly those that were stale and not reported changed |
| Index.RunIsRebuildIff | crates/wkp-cli/src/index_cmd.rs:99-158 | a run equals a rebuild if and only if every stale current row is reported changed |
| Index.SecondRunChangesNothing | crates/wkp-cli/src/index_cmd.rs:57-158 | running again changes nothing |
| IndexStatus.ReportedAt | crates/wkp-git/src/changes.rs:63-127 | what the parser makes of the status of a clone: which paths it says are added, deleted or modified |
| IndexStatus.RenamesReported | crates/wkp-git/src/changes.rs:63-127 | and which are the old or the new name of a renamed file |
| IndexStatus.CurrentIs | crates/wkp-cli/src/index_cmd.rs:63-106 | with what git reports of a clone, conflicts and renames included, which paths are current and which of them are read again, told from HEAD, index and work tree |
| IndexStatus.ReadableIff | crates/wkp-cli/src/index_cmd.rs:108-117 | a run can read every file it wants if and only if each conflicted or newly named markdown file is in the work tree, and each current one that is not UTF-8 has a row and no change since HEAD |
| IndexStatus.MissedEdits | crates/wkp-cli/src/index_cmd.rs:99-120 | exactly which edits a run misses, told from HEAD, index, conflicts, renames and work tree |
| IndexStatus.UntrackedEditIsMissed | crates/wkp-cli/src/index_cmd.rs:99-120 | an indexed file that was never committed is not read again after an edit |
| Registry.StepInv | crates/wkp-hub/src/connection_registry.rs:100-157 | every step of every thread keeps the invariant |
| Registry.NothingIsStuck | crates/wkp-hub/src/connection_registry.rs:100-157 | whatever a thread has begun it can go on with |
| Registry.LiveConnections | crates/wkp-hub/src/connection_registry.rs:100-157 | a live connection is registered under its serial, about to be cancelled, or cancelled, and only one of these; no device has an empty entry |
| Registry.NothingGoesMissing | crates/wkp-hub/src/connection_registry.rs:100-157 | registrations are removals by ended connections, counts returned by closes, and what is left |
| Registry.IdsAreNeverReused | crates/wkp-hub/src/connection_registry.rs:100-115 | an id belongs to one connection for good |
| Registry.DropTouchesOnlyItsOwn | crates/wkp-hub/src/connection_registry.rs:117-125 | an old guard never takes out a newer connection |
| Registry.ClosedForGood | crates/wkp-hub/src/connection_registry.rs:132-141 | however interleaved, a closed connection never comes back, and is cancelled unless its own cancelling is still to come |
| Registry.OthersUntouched | crates/wkp-hub/src/connection_registry.rs:132-157 | nobody else's connection is touched |
| Registry.SweepClosesRevoked | crates/wkp-hub/src/connection_registry.rs:364-388 | a sweep between whose reading of the serials and whose closes any other thread may act still closes every connection of a revoked device that was registered when it began |
| Registry.SparedByOthers | crates/wkp-hub/src/connection_registry.rs:364-388 | and a connection whose own device is not closed stays registered and uncancelled while it lives |
| RegistryRefinement.RegisterIsSteps | crates/wkp-hub/src/connection_registry.rs:100-115 | registering does to the table what numbering and inserting do to the state machine |
| RegistryRefinement.DropIsStep | crates/wkp-hub/src/connection_registry.rs:173-177 | dropping a guard is the machine's step |
| RegistryRefinement.CloseDeviceIsSteps | crates/wkp-hub/src/connection_registry.rs:132-141 | closing a device is taking its entries out and cancelling them one by one in any order; the count returned is the machine's |
| RegistryRefinement.CloseAllIsStep | crates/wkp-hub/src/connection_registry.rs:148-157 | closing all is the machine's step, with its count and its cancelled connections |
| RegistryProgram.ConnectionRegistry.Register | crates/wkp-hub/src/connection_registry.rs:100-115 | a new uncancelled token under the next id, and a guard that names it |
| RegistryProgram.ConnectionRegistry.Deregister | crates/wkp-hub/src/connection_registry.rs:117-125 | the map afterwards, without empty entries |
| RegistryProgram.ConnectionRegistry.CloseDevice | crates/wkp-hub/src/connection_registry.rs:132-141 | the device is out, its tokens cancelled, their number returned |
| RegistryProgram.ConnectionRegistry.CloseAll | crates/wkp-hub/src/connection_registry.rs:148-157 | likewise for all |
| RegistryProgram.ConnectionGuard.Drop | crates/wkp-hub/src/connection_registry.rs:173-177 | exactly its own entry goes |
| RegistryProgram.ConnectionRegistry.SweepRevoked | crates/wkp-hub/src/connection_registry.rs:364-388 | exactly the tokens of devices the database reports revoked are cancelled |
| RegistryProgram.ConnectionRegistry.OthersNotRevoked | crates/wkp-hub/src/connection_registry.rs:364-388 | and no other device shares one |
| RegistryProgram.ConnectionRegistry.RunListenLoop | crates/wkp-hub/src/connection_registry.rs:318-357 | the map after a session, whether the connection was lost, and that exactly the tokens no longer registered have been cancelled by it |
| RegistryProgram.ConnectionRegistry.ClosedInSessionIff | crates/wkp-hub/src/connection_registry.rs:318-357 | a device is taken out in a session if and only if, before it ends, there is a notification for it or for all or a sweep that reports it revoked; every other keeps its entries |
| RegistryProgram.ConnectionRegistry.SessionLostIff | crates/wkp-hub/src/connection_registry.rs:318-357 | a session reports the connection lost exactly if it comes to that |
| RegistryProgram.ConnectionRegistry.RevokedIsClosedIff | crates/wkp-hub/src/connection_registry.rs:318-357 | a revoked device is taken out in a session, so cancelled by it, if and only if something arrives in it |
| RegistryProgram.ConnectionRegistry.OthersStayOpen | crates/wkp-hub/src/connection_registry.rs:318-357 | a device not reported revoked is closed only by a notification for it or for all |
| RegistryProgram.CancellableStream.PollCancelled | crates/wkp-hub/src/connection_registry.rs:223-235 | agrees with the token and never polls a finished watcher |
| RegistryProgram.CancellableStream.Poll | crates/wkp-hub/src/connection_registry.rs:238-281 | with a cancelled token everything but shutdown fails and does not reach the wrapped stream |
| RegistryProgram.CancellableStream.PollAll | crates/wkp-hub/src/connection_registry.rs:238-281 | the same for any sequence of operations |
| Recipients.AppendEntry | crates/wkp-crypto/src/recipients.rs:105-126 | the edit equals the function on texts |
| Recipients.RemoveLabel | crates/wkp-crypto/src/recipients.rs:137-166 | the loop equals the function on texts |
| RecipientsTheorems.AppendAddsIff | crates/wkp-crypto/src/recipients.rs:105-126 | appending adds exactly the entry if and only if its label is one word and no comment and its kind fits |
| RecipientsTheorems.AppendedIsThere | crates/wkp-crypto/src/recipients.rs:105-126 | either way it is there afterwards |
| RecipientsTheorems.AppendKeepsText | crates/wkp-crypto/src/recipients.rs:105-126 | adding an entry keeps the text there is |
| RecipientsTheorems.KindMeans | crates/wkp-crypto/src/recipients.rs:14-50 | which labels are devices, which are for recovery, and which neither |
| RecipientsTheorems.AppendTwiceIff | crates/wkp-crypto/src/recipients.rs:95-110 | appending twice is appending once exactly if the line is a single trimmed line |
| RecipientsTheorems.RenderedIsRead | crates/wkp-crypto/src/recipients.rs:69-95 | a rendered line is read as its entry |
| RecipientsTheorems.ParsedIsGood | crates/wkp-crypto/src/recipients.rs:69-91 | every entry read has a label that a line can carry |
| RecipientsTheorems.OtherLinesAreSkipped | crates/wkp-crypto/src/recipients.rs:69-91 | a line is an entry exactly if it has two words, no comment and a key that can be read |
| RecipientsTheorems.ParseConcat | crates/wkp-crypto/src/recipients.rs:69-91 | reading two texts one after the other |
| RecipientsTheorems.RemoveKeepsOthers | crates/wkp-crypto/src/recipients.rs:137-166 | removing a label removes exactly its entries and keeps the order of the rest |
| RecipientsTheorems.RemovalIsReported | crates/wkp-crypto/src/recipients.rs:137-166 | it reports a removal whenever an entry went |
| RecipientsTheorems.RemovalReportedIff | crates/wkp-crypto/src/recipients.rs:137-166 | exactly when a removal is reported; otherwise the text stays as it is |
| RecipientsTheorems.KeptIff | crates/wkp-crypto/src/recipients.rs:137-166 | exactly the lines that begin with the label go, comments stay |
| RecipientsTheorems.RemoveTwice | crates/wkp-crypto/src/recipients.rs:137-166 | removing again changes no recipient |
| RecipientsTheorems.CommentsParse | crates/wkp-crypto/src/recipients.rs:53-83 | a text of comments, such as the header of a new file, names no recipient |
| Forget.RunForgetDevice | crates/wkp-cli/src/forget.rs:218-291 | the program equals the function |
| Forget.RevocationLeavesOthers | crates/wkp-cli/src/forget.rs:218-291 | the committed recipients are the old ones without the device, at least one, and every tracked private file is committed with them |
| Forget.RefusedIff | crates/wkp-cli/src/forget.rs:222-243 | exactly when it refuses, and then writes nothing |
| Forget.RevokedIff | crates/wkp-cli/src/forget.rs:218-291 | it succeeds if and only if it is not refused, the commit can be signed and no path but those committed is in conflict |
| Forget.FailedRevocationStaysRewritten | crates/wkp-cli/src/forget.rs:218-291 | a revocation that fails leaves the clone as it was if and only if it was refused; otherwise the recipients file is rewritten without the device, and no commit or ref is new |
| Fusion.Fuse | crates/wkp-core/src/embed.rs:59-71 | every listed path once, best first, with its score, rounded after each operation as the number format does |
| Fusion.BothBeatOneIff | crates/wkp-core/src/embed.rs:52-71 | for lists of up to n distinct paths, being in both always beats being in one if and only if n is at most 61, in exact arithmetic and in every binary floating-point format |
| Fusion.NothingIsLost | crates/wkp-core/src/embed.rs:59-71 | without rounding, the scores together are the worth of all list entries |
| Fusion.SerializeEmbedding | crates/wkp-core/src/embed.rs:13-19 | the loop equals the function |
| Fusion.StoredIsRead | crates/wkp-core/src/embed.rs:13-32 | a stored embedding is read back, whatever partial value follows |
| Fusion.ReadIsStored | crates/wkp-core/src/embed.rs:25-32 | every byte string is a stored embedding and fewer than four bytes |

## Left out

- Git itself: what a true merge makes of two trees, renames, file modes, directory/file clashes, ignored files, hooks
  and configuration; the model has paths with contents, git's two-tree rule for moving between commits, and the
  classes of conflict. How git's merge calls the merge driver is not part of this model.
- Transfer of objects, clones with part of the history, deleted or rewritten device branches (`wkp purge`, or by
  hand), and several wkp processes at once in one clone; the protocol allows a commit between any two steps of a sync.
- The device-id file: device ids are taken to be distinct.
- The report of unsigned commits after a sync: only that it can fail before the push.
- The time stamps in note names: a note's name is a parameter, distinct where a theorem says so.
- The text of messages, and of warnings, which are a datatype; the header of a new recipients file.
- Fusion.Fuse: the order of equal scores, and ranks beyond the whole numbers that a float holds exactly; how it rounds
  is a parameter. An embedding's numbers are 32-bit patterns.
- Fusion.NothingIsLost: the rounding error of a sum.
- JsonTree.ExtractFromObject: the scanner's depth is a natural number, without the overflow of a 32-bit counter.
- Registry.IdsAreNeverReused: the 64-bit counter does not wrap around.
- Offsets into strings count characters where the program counts bytes; all cuts are next to ASCII characters.
- Index.Store.Run: the edges between items and the ranking tiers; a row is frontmatter, body, embedding and whether a
  human signed the last commit.
- IndexStatus.CurrentIs: copies, paths only intended to be added, and paths that git quotes.
- RegistryProgram.ConnectionRegistry.SweepRevoked: other threads acting during the sweep, as the method runs alone; the
  sweep among other threads is `Registry.SweepClosesRevoked`.
- Porcelain.StatusIsRead: paths that git quotes, with newlines, or new names with tabs.
- Forget.RunForgetDevice: encryption; what is committed of a private file is its text.
- Reading the clock, SQLite, networking, sandboxing, key storage, argument parsing and output formatting.
- `allowed_signers`, `slugify`, secret scanning, cosine similarity: single functions that would add only easy members.

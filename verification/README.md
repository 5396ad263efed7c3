# A verified model of the netdisk core

The netdisk keeps files and folders of many accounts in one table of node rows and their bytes in an
object store. This project models that core in Dafny and proves what its operations keep, over every
input and every run.

How it is put together:

- `Ids`, `Paths`, `Tree`, `Ancestry`, `Trash`, `Names` model the node table: parent pointers with a
  materialised path and depth beside them, trash by subtree, and sibling names.
- `Accounts` and `Versions` model the account counters and the retained revisions.
- `Database` says which atomic changes the committed transactions make (an `Event` is what one usecase
  step leaves behind) and when the source allows them; `Invariants` proves what every run of them keeps,
  and `SiblingNames` what becomes of the names of active siblings.
  A transaction is a run of events because writers are serialised behind a mutex and an error rolls
  back (`internal/data/data.go:234-255`).
- `Netdisk` and `Copying` are the usecases themselves, as methods that change stored fields in loops,
  row by row where the source does. Their contracts tie the new state to a run of events (`Committed`),
  so every theorem about runs holds of them.
- `Content` puts the object store beside the database, with staged parts, content that is stored but
  not committed, keys that wait for removal, failures half-way and crashes, in any interleaving.
  `Storage` has the removal loops and maintenance jobs, `Uploads` and `Transfers` the chunked uploads.
  No step loses content that is referred to (`Content`); `Leaks` says exactly which steps leave content
  behind that nothing refers to.
- `Access`, `Shares` and `Sessions` model access evaluation, share links and refresh tokens; `AccessLaws`
  says what the rules of access mean for a caller, in the plain terms of entries, passwords and visibility.
- `Failures` holds inputs at which a promise of the source fails, for the conditions proved elsewhere.

Reading conventions. An identifier is a number with a text of its own that holds no slash; the nil
identifier is 0 and stands for the virtual root. The object store is a set of keys, and how it answers
is a parameter. Access verdicts are a parameter of the tree operations (`Gate`); what the verdicts are
is the subject of `Access`. `Inv` is what holds as long as deletes and moves are applied to nodes that
are not inside the trash; `Sound` (and `Healthy` for a whole database) holds without that.

Where the code and its own words part, the model follows the code, and a lemma says exactly when the
promise holds:

- an overwrite charges no bytes, because the new size is assigned before the difference is taken
  (`Accounts.OverwriteKeepsConservedIff`, `Failures.OverwriteDrifts`);
- a purge across owners takes everything off one account (`Accounts.PurgeKeepsConservedIff`,
  `Failures.PurgeDrifts`);
- trashing a node inside the trash, or moving a trashed node elsewhere, loses the recorded parent
  (`Trash.DiscardKeepsIff`, `Trash.MoveKeepsIff`). A batch that deletes a folder and a node inside it does
  so although both were active before: the node is then listed among the tops of the trash, and emptying
  the trash can meet a row that is already gone (`Netdisk.Netdisk.NestedDeleteLosesOrigin`). Before the
  call a batch can be told to be harmless by `OriginsKept` and `LiveOrHome`
  (`Netdisk.Netdisk.DiscardsKeepOriginsIff`, `Netdisk.Netdisk.MovesKeepOriginsIff`);
- a purge lists at most the default number of rows, fifty in the source; a listing that was cut and holds the
  purged folder always leaves a row without its parent (`Invariants.WholePurgeIff`,
  `Invariants.CutPurgeOrphans`, `Invariants.FullFolderOrphansOne`), and a purge keeps the tree exactly when
  it leaves no such row (`Tree.RemovalKeepsIndexIff`, `Invariants.ApplyKeepsHealthy`); before the call it is safe,
  whichever rows a listing may pick, exactly when the subtree fits the limit (`Invariants.PurgeIsSafeIff`);
- a copy lists at most fifty children of a folder and silently leaves the others out: outside the source's own
  subtree a copy has the kinds and sizes of the source exactly when no folder is wider than that
  (`Copying.CopyTree`, `Copying.FullFolderLosesFiles`);
- a copy under the rename policy gives a new name to one of two siblings that fold to one name, which a restore
  can bring about: the names are those of the source exactly when, besides, there are no such siblings
  (`Copying.CopyTree`, `Copying.TwinsComeBack`, `Copying.TwinTableComesBack`);
- a restore of a folder can bring back two siblings of one folded name that were trashed one after the other;
  without such a restore the names of active siblings stay apart on every run, and only such a restore brings two
  together (`SiblingNames.RunsStayApartIff`, `SiblingNames.AlikeAfterRestoreIff`);
- an overwrite where no versions are kept leaves the old object in the store and nothing knows its key any more, and a
  crash between an object and its row, or between a deleted revision and the queue, does the same; nothing else
  leaks (`Leaks.TrackIsKeptIff`, `Leaks.OverwriteLosesTrack`);
- restoring a revision leaves the node and the revision with one key between them
  (`Content.RestoreVersionShares`, `Content.RestoreThenDeleteLosesContent`);
- a move checks the depth limit for the moved node only (`Tree.MoveKeepsDepthLimitIff`,
  `Failures.MovePassesDepthLimit`);
- the batch evaluation of access loads the entries of the listed rows only and looks at the chain of the listed
  folder only. A listing of direct children misses the entries above them. A recursive listing also passes the
  folder itself and rows further down, and for those the password, the visibility and the entries of every
  folder between go unseen: a file in a locked or private folder below a public one comes out readable
  (`Access.BatchAgreesIff`, `Access.SharedChainIsOwnIff`, `Access.FolderBetweenIsOverlooked`,
  `Access.LockedFolderIsOverlooked`);
- the bounded parent walk misses the far ancestors of nodes deeper than the bound (`Access.BoundMattersIff`),
  where the batch sees one ancestor more (`Access.DeepBatchSeesOneMore`);
- an upload whose session row cannot be deleted ends with an error although the file is there
  (`Transfers.UploadDesk.CompleteUpload`), an abort can do so too when neither removal nor queueing works
  (`Transfers.UploadDesk.AbortUpload`), and the expiry job can leave a session expired whose path was never queued
  (`Transfers.UploadDesk.ExpireUploads`);
- the part count of an upload is computed in 32 bits from a sum in 64 (`Uploads.PartCountExactIff`,
  `Uploads.PartCountWraps`);
- the sweep of staged objects spares the sessions that were open when it looked
  (`Storage.PartSparedIff`);
- concurrent downloads can exceed a link's budget by the number of requests in flight less one
  (`Shares.BudgetHolds`, `Shares.BudgetIsTight`);
- a refreshed session expires when its login does only if both readings of the clock agree
  (`Sessions.RotationKeepsExpiryIff`).

The fallback of a restore to the root when the original folder is gone (`internal/biz/node.go:904-912`)
never runs while `Inv` holds: the recorded folder is then always there and active
(`Trash.OriginIsLiveFolder`).

## Model

| member | source | states |
|---|---|---|
| Ids.NewID | internal/biz/node.go:16-22 | a new identifier differs from every identifier handed out before and is not nil |
| Ids.TextInjective | internal/biz/node.go:1610-1618 | different identifiers have different texts, so a path segment names one node |
| Paths.PrefixOfChild | internal/biz/node.go:1610-1618 | a closed prefix of a child's path is a prefix of the parent's path or the whole path: a prefix never splits an identifier |
| Paths.ChildPathInjective | internal/biz/node.go:1610-1618 | two children with one path are the same child of the same parent |
| Paths.RewrittenChildPath | internal/data/node.go:282-317 | replacing an old path prefix by a new one commutes with taking a child, which is why the row loop of a move is right |
| Paths.PrefixIsAncestor | internal/data/node.go:86-88 | a string prefix test on two materialised paths holds exactly when one chain of identifiers is a prefix of the other |
| Paths.RenderInjective | internal/biz/node.go:1610-1618 | a path determines its chain of identifiers |
| Tree.UnderStep | internal/data/node.go:86-88 | a prefix scan contains a row exactly when the row is the scanned node or the row's parent is in the scan |
| Tree.CreatedKeepsIndex | internal/biz/node.go:517-556 | a row created under a folder with the computed path and depth keeps the whole index right |
| Tree.MoveKeepsIndexIff | internal/biz/node.go:744-784 | rewriting a subtree's paths keeps the index right if and only if the target is not inside the moved subtree, which is relocate's test |
| Tree.MoveKeepsDepthLimitIff | internal/biz/node.go:758-760 | a move keeps every row within the depth limit if and only if the deepest row of the subtree still fits, which relocate does not check |
| Tree.RemovalKeepsIndexIff | internal/data/node.go:344-357 | deleting any set of rows leaves a right index if and only if no row that stays has its parent among those that go |
| Tree.SubtreeLeavesNone | internal/data/node.go:344-357 | a whole subtree leaves no row without its parent |
| Tree.SameShapeKeepsIndex | internal/data/node.go:213-262 | a write that leaves parents, kinds, paths and depths alone keeps the index right |
| Ancestry.Chain | internal/biz/node.go:255-280 | every row has a chain of parents from a root level node down to it, and its path and depth spell that chain |
| Ancestry.ChainUnique | internal/biz/node.go:255-280 | a row has one parent chain only |
| Ancestry.ChainDistinct | internal/biz/node.go:744-757 | no chain visits a row twice: there are no cycles |
| Ancestry.IndexedIffTreeShaped | internal/biz/node.go:1610-1618 | the row by row index invariant says exactly that every row ends a finite parent chain of folders that its path spells and its depth measures |
| Ancestry.PrefixScanIsSubtree | internal/data/node.go:86-88 | a prefix scan for a node lists a row exactly when the node is on the row's parent chain |
| Ancestry.OnChainIff | internal/biz/node.go:255-280 | a node is on a chain exactly when its own chain is a prefix of it |
| Ancestry.WalkAncestors | internal/biz/node.go:255-280 | the bounded walk returns all ancestors, root first, of a node no deeper than the bound, and the nearest ones of a deeper node |
| Trash.TrashedSubtree | internal/data/node.go:320-340 | everything below a trashed node is trashed |
| Trash.OriginIsParentOfTop | internal/data/node.go:79-85 | a trashed node's recorded parent is the parent of the topmost trashed node at or above it: the chain is active down to there and trashed from there on |
| Trash.LiveChain | internal/data/node.go:320-340 | every ancestor of an active node is active |
| Trash.OriginIsLiveFolder | internal/biz/node.go:904-912 | the recorded parent of a trashed node is the root or an active folder, so a restore without a target always has somewhere to go |
| Trash.TrashRootsAreTops | internal/data/node.go:79-85 | comparing the parent column with the recorded parent selects exactly the tops of trashed subtrees |
| Trash.TopsAreNotNested | internal/biz/node.go:1159-1188 | two listed tops never contain each other |
| Trash.CreatedKeeps | internal/biz/node.go:788-813 | creating under an active folder keeps the tree, the downward closure of the trash and the recorded parents |
| Trash.DiscardKeeps | internal/data/node.go:320-340 | trashing any node keeps the tree and the downward closure |
| Trash.DiscardKeepsIff | internal/biz/node.go:822-868 | trashing keeps recorded parents right if and only if the node is not already inside a trashed folder |
| Trash.MoveKeeps | internal/biz/node.go:744-784 | moving into an active folder outside the subtree keeps the tree and the downward closure |
| Trash.MoveKeepsIff | internal/biz/node.go:679-740 | a move keeps recorded parents right if and only if the node is active or goes where it was deleted from |
| Trash.RestoreCannotCycle | internal/biz/node.go:878-975 | no active target lies inside a trashed subtree, so a restore needs no cycle test |
| Trash.UnderMoved | internal/biz/node.go:940-962 | a subtree has the same rows before and after its relocation, so the status flip at the new path reaches exactly them |
| Trash.RestoreKeeps | internal/biz/node.go:878-975 | a restore keeps every invariant, and afterwards exactly the rows that were active or in the subtree are active |
| Trash.PurgeKeeps | internal/biz/node.go:980-1050 | removing a whole subtree keeps every invariant |
| Trash.RemovalKeepsIff | internal/biz/node.go:1007-1033 | deleting any set of rows keeps the tree, the closure and the recorded parents if and only if no row that stays has its parent among those that go |
| Names.SplitName | internal/data/node.go:462-468 | the two halves rejoin to the name, the first is not empty for a name that is not, the second is at most 16 long |
| Names.SplitAtLastDot | internal/data/node.go:462-468 | a name with something before its last dot and at most 15 characters after it, none of them a slash, is split at that dot |
| Names.NoDotNoExtension | internal/data/node.go:462-468 | a name without a dot has no extension |
| Names.CandidatesDiffer | internal/data/node.go:361-382 | different numbers give different candidates |
| Names.FoldAlikeIff | internal/data/node.go:264-268 | two names fold alike exactly when they have one length and fold alike letter by letter |
| Names.CandidateContainsBase | internal/data/node.go:361-382 | every folded candidate contains the folded base |
| Names.LoadedIsEnough | internal/data/node.go:361-382 | for a candidate it is enough to look among the siblings whose folded name contains the base |
| Names.NextAvailableName | internal/data/node.go:361-382 | returns the first candidate that no active sibling carries after folding, which begins with the first half of the name and ends with its extension; fails exactly when all 99,999 are carried |
| Names.ResolveName | internal/biz/node.go:1576-1592 | a free name is kept, a taken one gives the first free candidate when it may be replaced and is refused otherwise, no active sibling carries the returned name once folded, and the conflict error comes exactly when no name can be given |
| Accounts.WriteKeepsConserved | internal/data/user.go:161-200 | writes that leave owner, kind and size alone keep the counters equal to the sums |
| Accounts.CreateKeepsConserved | internal/biz/file.go:752-786 | a created row and its charge keep every account's counters equal to the sums over the rows it owns |
| Accounts.PurgeKeepsConservedIff | internal/biz/node.go:1012-1033 | a purge keeps the counters equal to the sums if and only if every removed row belongs to the purged node's owner; the clamp at zero then never fires |
| Accounts.OverwriteKeepsConservedIff | internal/biz/file.go:735-750 | an overwrite keeps the counters equal to the sums if and only if the size does not change |
| Versions.ListVersions | internal/data/file.go:347-364 | the newest revisions in descending order, all of them unless the limit cuts |
| Versions.NextVersionNumber | internal/data/file.go:396-408 | one above the highest stored number, one for the first |
| Versions.ListingSize | internal/data/file.go:347-364 | a listing holds each revision once, and all of them exactly up to the limit |
| Versions.TrimIsExactIff | internal/biz/file.go:790-809 | a trim leaves a count equal to what is stored if and only if the listing was not cut; it keeps the newest and drops exactly the older ones |
| Invariants.WholePurgeIff | internal/data/node.go:139-152 | a purge's listing covers the subtree exactly when the subtree fits the default limit |
| Invariants.CutPurgeOrphans | internal/biz/node.go:1007-1012 | for every limit, a purge whose listing was cut and holds the purged folder leaves some row without its parent |
| Invariants.FullFolderOrphansOne | internal/data/node.go:139-152 | a trashed folder with as many files as the limit is such a case |
| Invariants.PurgeIsSafeIff | internal/data/node.go:139-152 | told before the call: removing whatever a listing of the subtree may hold leaves a tree, for every such listing, if and only if the subtree fits the limit |
| Invariants.TreeEventsKeepContent | internal/biz/node.go:744-784 | moving, renaming, trashing and restoring touch no owner, size, key or revision count |
| Invariants.ApplyKeepsMinted | internal/biz/node.go:16-22 | stored identifiers were handed out and sizes stay non-negative, through every event |
| Invariants.MoveIsSound | internal/biz/node.go:744-784 | a move with its rename keeps the tree and the closure, and recorded parents under the exact condition |
| Invariants.RestoreIsSound | internal/biz/node.go:878-975 | a restore with its rename keeps every invariant |
| Invariants.ApplyKeepsHealthy | internal/data/data.go:234-255 | a committed event keeps a healthy database healthy if and only if it is no purge that leaves a row without its parent, and then recorded parents right if and only if nothing was trashed inside the trash or moved away out of it |
| Invariants.RunsStayHealthy | internal/data/data.go:234-255 | so does every run of such events, from any healthy database on |
| Invariants.RunsStayHealthyIff | internal/data/data.go:234-255 | a run stays healthy throughout if and only if none of its purges leaves a row without its parent |
| Invariants.ApplyKeepsConservedIff | internal/data/user.go:161-200 | an event keeps every counter equal to its sum if and only if it is no overwrite that changes a size and no purge across owners |
| Invariants.RunsConserveUsage | internal/biz/file.go:1459-1474 | on every run that bills exactly and leaves no row without its parent the counters stay the sums over all owned rows, trashed ones included, and no account with a quota exceeds it |
| Invariants.RunsKeepCountersUp | internal/data/user.go:161-200 | on every run, purges across owners and size changing overwrites among its events, no counter falls below zero |
| Invariants.ReplaceKeepsCounted | internal/biz/file.go:709-734 | keeping a revision and trimming leave the node's count equal to the stored revisions and at most the maximum |
| Invariants.DropKeepsCounted | internal/biz/file.go:1141-1178 | deleting a revision keeps the count right |
| Invariants.RunsRetainVersions | internal/biz/file.go:709-734 | with the maximum below the listing limit, on every run counts equal what is stored, numbers stay distinct and no file keeps more than the maximum |
| SiblingNames.ApplyKeepsRowsRight | internal/data/node.go:264-268 | every event keeps the folded column equal to the folded name of every row, and a time of deletion at exactly the trashed rows |
| SiblingNames.RunsStayRight | internal/data/node.go:264-268 | so does every run |
| SiblingNames.TakenIffAlike | internal/biz/node.go:1576-1592 | looking a name up by the folded column finds exactly the active siblings whose names fold to the same |
| SiblingNames.NamedAlone | internal/biz/node.go:1576-1592 | after a creation, a move or a rename the node has no active sibling of its folded name |
| SiblingNames.RestoredAlone | internal/biz/node.go:878-975 | after a restore neither has the restored node |
| SiblingNames.AlikeAfterRestoreIff | internal/biz/node.go:878-975 | two active siblings fold alike after a restore exactly when they did before or both came back below the restored node |
| SiblingNames.ApplyKeepsApartIff | internal/biz/node.go:878-975 | an event keeps the folded names of active siblings apart if and only if it is no restore that revives two alike together |
| SiblingNames.RunsStayApartIff | internal/biz/node.go:1576-1592 | on a run that leaves no row without its parent they stay apart throughout if and only if no restore on it does that |
| SiblingNames.RunsNameApart | internal/biz/node.go:679-740 | after a run without restores no row that was created, placed or named on it has an active sibling of its folded name, whatever the table was before |
| SiblingNames.RestoresNameApart | internal/biz/node.go:878-975 | after a run of restores neither has any of the restored nodes |
| Netdisk.CommitMore | internal/data/data.go:234-255 | two transactions' runs join to one |
| Netdisk.Netdisk.constructor | internal/biz/node.go:197-224 | an empty disk is valid; a depth limit that is not positive becomes thirty-two |
| Netdisk.Netdisk.LoadWritableParent | internal/biz/node.go:788-813 | accepts exactly the root and the active folders the caller may upload to, and says which error otherwise |
| Netdisk.Netdisk.CreateFolder | internal/biz/node.go:496-567 | succeeds exactly when the parent takes a child and a name can be given; adds one empty active folder of the caller's within the depth limit under the resolved name, which no active sibling shares, and changes no other row; or changes nothing |
| Netdisk.Netdisk.RelocateSubtree | internal/data/node.go:282-317 | the row by row loop over active and trashed descendants computes the subtree rewrite as a whole |
| Netdisk.Netdisk.Relocate | internal/biz/node.go:744-784 | refuses the node itself and every folder inside its own subtree as a cycle; succeeds exactly when the target is the present parent or takes the node, and commits one move under the resolved name that changes no other parent |
| Netdisk.Netdisk.MoveUnder | internal/biz/node.go:762-784 | the writes of relocate are the move and, for a new name, the rename |
| Netdisk.Netdisk.MoveNodes | internal/biz/node.go:679-740 | all nodes end under the target, each renamed one with the normalized name asked for or, where that may be replaced, one of its candidates, and no row that was placed or named anew has an active sibling whose name folds to the same; no other row's parent or name changes; recorded parents stay right if and only if every listed node was active, goes home or was there; a batch, with new names or without, succeeds when the target takes each node and no two names that meet on the way fold alike; or nothing changes at all |
| Netdisk.Netdisk.MovesKeepMarks | internal/biz/node.go:744-784 | moves and renames change no state and no recorded parent, and a new parent is one that takes children |
| Netdisk.Netdisk.MovesKeepOriginsIff | internal/biz/node.go:679-740 | a batch of moves leaves recorded parents right if and only if it takes no trashed node anywhere but home |
| Netdisk.Netdisk.MovedAwayIsMissed | internal/data/node.go:79-85 | a trashed top that was moved elsewhere is still the top of a trashed subtree but no longer listed as one |
| Netdisk.Netdisk.NextIsMovable | internal/biz/node.go:679-740 | what the target takes before a batch it still takes, under the names asked for, after the first moves of the batch |
| Netdisk.Netdisk.MoveNode | internal/biz/node.go:700-735 | one element: the node ends under the target with the name asked for, or one of its candidates when that may be replaced; without a new name it succeeds exactly when the caller may edit the node and the target takes it, and with one that no other child of the target has exactly then too; a taken one gets through only where it may be replaced; no other row's parent or name changes |
| Netdisk.Netdisk.RenameIn | internal/biz/node.go:715-730 | succeeds exactly when the name can be given in the folder and commits one rename to the resolved name |
| Netdisk.Netdisk.DeleteNodes | internal/biz/node.go:822-868 | afterwards the rows of the listed subtrees are in the trash since the time of the call and every other row is as it was, the count is that of the listed subtrees' rows, recorded parents stay right if and only if no listing spoils one for good, which can be told before the call, and a batch nothing refuses succeeds; otherwise nothing changed |
| Netdisk.Netdisk.DiscardsKeepOriginsIff | internal/biz/node.go:822-868 | a batch leaves recorded parents right if and only if for every listing the node's parent is the root or was active and below no earlier listing, or a later listing covers the node again |
| Netdisk.Netdisk.NestedDeleteLosesOrigin | internal/biz/node.go:822-868 | deleting an active folder and then an active child in one batch loses the child's recorded parent and lists the child as a top below another top; in the other order nothing is lost |
| Netdisk.Netdisk.RepeatedDeleteMends | internal/biz/node.go:822-868 | listing the folder once more brings the child's recorded parent back in line |
| Netdisk.Netdisk.DiscardsCover | internal/biz/node.go:822-868 | a run of deletes trashes exactly the union of the listed subtrees, nested ones included |
| Netdisk.Netdisk.TrashAllForOwner | internal/biz/node.go:1085-1114 | exactly the rows at or below the listed nodes join the trash, at the time of the call; the listed nodes are active root level nodes of the account, and when they are not more than the limit no root level node of the account is left alive; the count is that of their subtrees' rows, and recorded parents stay right |
| Netdisk.Netdisk.CheckRestore | internal/biz/node.go:886-940 | passes exactly for a trashed node the caller may restore into a folder that takes it, with a name that folder resolves |
| Netdisk.Netdisk.RestoreGoesHome | internal/biz/node.go:904-912 | with recorded parents right, a restore without a target goes to the recorded folder, which takes it |
| Netdisk.Netdisk.RestoreNode | internal/biz/node.go:886-962 | one element: exactly when the node is trashed, the caller may restore it and the target takes it, the node and its subtree become active under that target, which is the folder asked for or else the recorded one, with the name it resolves |
| Netdisk.Netdisk.RestoredFacts | internal/biz/node.go:940-962 | after the relocation, rename and status flip exactly the old active rows and the subtree are active |
| Netdisk.Netdisk.RestoreNodes | internal/biz/node.go:878-975 | exactly the old active rows and the subtrees of the listed nodes as they were before the batch are active; each listed node is in the folder asked for, in the root if that is no row, and without one asked for in its recorded parent as long as those are right, and has no active sibling of its folded name; rows still trashed are as they were, and recorded parents stay right; a batch that nothing refuses from the start, with no element below an earlier one and no two names that meet, succeeds; or nothing changed |
| Netdisk.Netdisk.NextIsRestorable | internal/biz/node.go:878-975 | what can be restored before such a batch still can after its first elements |
| Netdisk.Netdisk.OneMoreBack | internal/biz/node.go:878-975 | an element of a restore batch revives the same rows and goes to the same target whatever the earlier elements did |
| Netdisk.Netdisk.ListSubtree | internal/data/node.go:139-152 | a listing without an explicit limit returns the subtree, or as many of its rows as the default limit |
| Netdisk.Netdisk.CountRemoved | internal/biz/node.go:1012-1033 | the counting loop computes the sums over the removed rows |
| Netdisk.Netdisk.ReleaseObjects | internal/biz/node.go:1056-1080 | queues exactly the keys of the removed rows and of their listed revisions, and drops those revisions |
| Netdisk.Netdisk.PurgeNode | internal/biz/node.go:990-1045 | succeeds exactly for a trashed node the caller may purge, commits one purge and returns the bytes by which the table shrank |
| Netdisk.Netdisk.PurgeNodes | internal/biz/node.go:980-1050 | with fitting listings removes exactly the listed subtrees, succeeds only if no element lies below an earlier one and keeps recorded parents right; returns the bytes by which the table shrank; succeeds when no element is refused or below another, and otherwise changes nothing |
| Netdisk.Netdisk.PurgesCover | internal/biz/node.go:980-1050 | a run of purges with fitting listings keeps the database healthy, removes exactly the union of the subtrees and finds every element in place |
| Netdisk.Netdisk.EmptyTrash | internal/biz/node.go:1159-1188 | for any account and cut-off time: every listed top is trashed, of that account and was deleted no later; with recorded parents right the listed tops never contain each other, so only a refusal or a missing account of one of them can stop it; when the tops and their subtrees fit a listing it removes exactly the rows at or below a top that is old enough, which is the whole trash when it is asked for all accounts and times |
| Netdisk.Netdisk.DeletedTopIsListedIff | internal/data/node.go:325-330 | a node deleted at a time is among the tops to be emptied for all accounts or its own, and with a cut-off exactly from that time on |
| Netdisk.Netdisk.TopsArePurgeable | internal/biz/node.go:1159-1188 | listed tops never contain each other, so a purge of them meets no row already gone |
| Netdisk.Netdisk.ListedCover | internal/biz/node.go:1159-1188 | a complete listing of the tops of an account covers exactly what lies at or below those that are old enough |
| Netdisk.Netdisk.TopsCoverTrash | internal/biz/node.go:1159-1188 | what lies at or below the tops of all accounts, of whatever time, is exactly the trash, so emptying that takes all of it |
| Netdisk.Netdisk.TopAbove | internal/data/node.go:79-85 | every trashed row lies at or below a listed top |
| Netdisk.Netdisk.CheckQuota | internal/biz/file.go:1459-1474 | passes exactly when there is nothing to check, no quota, or room for the bytes, and says which error otherwise |
| Netdisk.Netdisk.CommitNode | internal/biz/file.go:662-787 | puts the stored content in place as a new node of the caller's under the resolved name, which no active sibling shares, exactly when the parent takes it, a name can be given and the account has room; or, with the overwrite policy and a taken name, as the content of an active file of that name there that the caller may edit, and always when all such siblings may be overwritten; an overwrite changes key, size and revision count only, and where versions are kept the old content is then a revision with its key and size or, trimmed at once, queued; every other row stays; otherwise changes nothing |
| Netdisk.Netdisk.CreateNamed | internal/biz/file.go:682-692 | creates the file exactly when a name can be given and the account has room, under the name asked for unless that is taken and may be replaced, with no active sibling of its folded name |
| Netdisk.Netdisk.Overwrite | internal/biz/file.go:691-750 | keeps the node's place, gives it the new key and size, and commits one replacement |
| Netdisk.Netdisk.KeepVersion | internal/biz/file.go:709-734 | stores the old content under the next number and, over the maximum, drops and queues exactly what the trim drops |
| Netdisk.Netdisk.TrimVersions | internal/biz/file.go:790-809 | drops and queues the revisions beyond the newest ones and returns the count that is left |
| Netdisk.Netdisk.DeleteVersion | internal/biz/file.go:1141-1178 | succeeds exactly for a revision of the node the caller may delete, removes it and hands out its key, or changes nothing |
| Shapes.ShapeFrame | internal/biz/file.go:1378-1390 | rows hung elsewhere do not show in the shape below a node |
| Shapes.GrovePick | internal/biz/file.go:1378-1390 | the shape below a folder does not depend on the order its children are taken in |
| Shapes.StepDown | internal/biz/file.go:1378-1390 | a node below a folder is below one of the folder's active children |
| Shapes.Mirror | internal/biz/file.go:1378-1390 | where two nodes have equal shapes below them, every live node below the one has a counterpart below the other |
| Shapes.ForgetNames | internal/biz/file.go:1378-1390 | shapes equal with names are equal without |
| Copying.CopyRow | internal/biz/file.go:1332-1375 | succeeds exactly when a name can be given, the depth limit and the quota allow it and the content can be read; the new row meets every condition of a new node, is owned by the caller, has the source's kind and size, the resolved name and a key of its own |
| Copying.ListKids | internal/data/node.go:139-152 | active children, each once, no more than the default limit, and all of them exactly when they fit it |
| Copying.CopyTree | internal/biz/file.go:1332-1397 | ends for every source and target; outside the source's own subtree a finished copy has the kinds and sizes of the source's active shape if and only if no folder is wider than a listing, and its names too if and only if, besides, no two siblings fold to one name; inside its own subtree it only ends well when some folder ends wider than a listing; no new folder is wider than a listing; usage grows by exactly the copied bytes, files and folders, and the whole is a run of creations; it succeeds when, told before the call, the source is elsewhere and no wider than a listing, its sibling names fold apart, every row fits the depth limit, every content can be read and the quota has room for all of it |
| Copying.NextIsCopyable | internal/biz/file.go:1376-1390 | while such a copy runs, its next child meets the same conditions |
| Copying.FinishedCopy | internal/biz/file.go:1376-1397 | both equivalences follow from what the loops keep |
| Copying.WideShapesDiffer | internal/biz/file.go:1378-1390 | a source with a folder wider than a listing has another shape than any tree without one |
| Copying.AlikeNamesDiffer | internal/biz/file.go:1332-1336 | a source with two siblings that fold alike has other names than any tree without |
| Copying.CreationsNameFreshly | internal/biz/node.go:1576-1592 | whatever a run of creations brings in carries a folded name that no active sibling has in the end |
| Copying.FullFolderLosesFiles | internal/data/node.go:139-152 | a folder with one file more than a listing returns is a source whose shape no tree without such a folder, and so no finished copy, has |
| Copying.TwinsComeBack | internal/data/node.go:320-340 | restoring a folder revives a file deleted from it before beside a newer one whose name folds alike |
| Copying.TwinTableComesBack | internal/data/node.go:320-340 | the files a and A in one folder are such a case |
| Copying.CopyKids | internal/biz/file.go:1376-1390 | the loop over the children adds exactly the shapes of the children done so far |
| Copying.KidDone | internal/biz/file.go:1376-1390 | one more child keeps everything the loop promises |
| Copying.FolderDone | internal/biz/file.go:1376-1397 | top, children and charge make up the copy and settle how faithful it is |
| Copying.FolderCut | internal/biz/file.go:1376-1390 | a copy into the source's own subtree meets itself unless a listing was cut, and outside it a cut listing means a folder wider than a listing |
| Copying.CreationsConserve | internal/biz/file.go:1363-1395 | runs of creations keep counters equal to their sums and accounts within their quotas |
| Copying.CopyNodes | internal/biz/file.go:1283-1329 | old rows are untouched and new rows hang below the target with fresh keys; a source outside the target's chain is copied in kinds and sizes if and only if none of its folders is wider than a listing, and in names too if and only if, besides, no two of its siblings fold to one name; a source above its target gets through only when a folder ends wider than a listing; each copy has the name asked for or, where that may be replaced, one of its candidates; usage stays right; a batch succeeds when every source meets the conditions of a copy, the names asked for are free and fold apart and the quota has room for everything together; a failure changes no row and no counter |
| Content.ObjectKeysPrefixFree | internal/biz/file.go:1491-1493 | removing the prefix of one content key takes that key only |
| Content.StagingIsApart | internal/biz/system.go:396-425 | staging and orphan keys are no content keys, and no content lies below a session's path |
| Content.SessionsAreApart | internal/biz/file.go:82-84 | a session's path holds exactly its own parts |
| Content.SettleKeepsSafe | internal/biz/file.go:618-640 | committing stored content keeps the world safe, whatever the trim drops |
| Content.PurgeQueues | internal/biz/node.go:1056-1080 | everything a purge queues was held by something it removed and is held by nothing after |
| Content.SettleQueues | internal/biz/file.go:790-809 | everything a trim queues was held by a dropped revision and is held by nothing after |
| Content.RemovalMisses | internal/data/storage.go:279-306 | nothing at or below a queued or listed key or a session path is referred to or waits to be committed |
| Content.SweepKeepsSafe | internal/biz/system.go:396-425 | the orphan sweep takes no referenced and no stored content |
| Content.RetireKeepsSafe | internal/biz/file.go:1141-1178 | between a revision's deletion and the queueing of its key nothing refers to the key |
| Content.BookkeepingKeepsSafe | internal/biz/system.go:364-387 | taking back an uncommitted object, queueing, listing, unqueueing and a crash at any point keep the world safe |
| Content.StepKeepsSafe | internal/biz/file.go:569-658 | every modelled step of a usecase or job keeps the world safe, a removal by a drain whose queue row another drain has deleted meanwhile included |
| Content.ContentIsNeverLost | internal/biz/file.go:569-576 | in every interleaving of the steps, those of drains that run at once among them, every key a node or revision refers to is stored, belongs to it alone and neither is nor lies below a key that is queued or that a drain has listed |
| Content.NothingIsEverLost | internal/biz/file.go:569-576 | so from the empty start on, for any accounts: at every point of every interleaving all keys referred to are stored and none is shared |
| Leaks.ReplacedStaysInHand | internal/biz/file.go:709-734 | what an overwrite that keeps versions replaces or trims is referred to by a revision or queued |
| Leaks.PurgeKeepsInHand | internal/biz/node.go:1007-1050 | every key a purge takes from a row or a revision is queued |
| Leaks.StepKeepsTracked | internal/biz/file.go:114-116 | all other steps too leave every stored content referred to, about to be committed, or about to be removed |
| Leaks.OverwriteLosesTrack | internal/biz/file.go:709-742 | an overwrite without a kept version always leaves a stored object that nothing knows |
| Leaks.TrackIsKeptIff | internal/biz/file.go:114-116 | a step loses sight of stored content if and only if it is such an overwrite, takes the last note of a stored object off the queue, or is a crash that forgets a draft or the last note of a stored object |
| Leaks.NothingLeaksIff | internal/biz/file.go:114-116 | so an interleaving leaks nothing up to any point exactly when none of its steps so far is of that kind |
| Leaks.RestingStoreIsExact | internal/biz/system.go:364-387 | from the empty start on, whenever such an interleaving rests with the queue drained, the stored contents are exactly those some node or revision refers to |
| Content.RestoreVersionShares | internal/biz/file.go:1104-1126 | restoring a revision always leaves two rows with one key, and a count that is one short |
| Content.RestoreThenDeleteLosesContent | internal/biz/file.go:1141-1178 | after it, deleting that revision and draining the queue removes the node's content |
| Content.RestoreVersionKeepsConserved | internal/biz/file.go:1117-1130 | a restore of a revision charges the true difference |
| Content.PromotionUndoesOverwrite | internal/biz/file.go:1104-1126 | restoring the revision an overwrite kept gives the node back the key and size it had |
| Content.PromotionIsUndone | internal/biz/file.go:1104-1126 | restoring the revision that a restore made gives back every row as it was |
| Storage.Bucket.DeleteObjects | internal/data/storage.go:310-341 | success means exactly the given keys are gone; a failure removes no others |
| Storage.Bucket.RemovePrefix | internal/data/storage.go:279-306 | success means exactly the keys at or below the prefix are gone; a failure removes no others |
| Storage.ListPending | internal/data/file.go:423-439 | queued keys, each once, as many as the limit lets through |
| Storage.Maintenance.PurgeDeletions | internal/biz/system.go:364-387 | an item leaves the queue only when nothing is left at or below it, nothing else is taken, no referenced key is lost, the count is what was drained, and a store that never fails drains a queue within the limit |
| Storage.Maintenance.LiveUpload | internal/biz/system.go:449-456 | true exactly below the path of an open session |
| Storage.Maintenance.GcOrphans | internal/biz/system.go:396-425 | takes only, and when no removal fails all, staged objects outside the sessions open at the look, and no content |
| Storage.PartSparedIff | internal/biz/system.go:429-446 | the sweep spares a part if and only if its session was open at the look |
| Uploads.NormalizeChunk | internal/biz/file.go:1497-1509 | the least multiple of 256 KiB at or above the request, or above the nearer limit when the request lies outside the limits |
| Uploads.CeilingAtMostIff | internal/biz/file.go:291-296 | the rounded-up quotient is at most a number exactly when that many chunks hold the size |
| Uploads.PartCountExactIff | internal/biz/file.go:291-299 | for all positive 64-bit sizes and chunks the part count is the true one if and only if the size is at most 2^31 - 1 chunks and size and chunk add up to at most 2^63 |
| Uploads.OverflowIsNegative | internal/biz/file.go:291-299 | where only the sum overflows the count comes out negative or zero |
| Uploads.PartCountWraps | internal/biz/file.go:291-299 | at 2^31 chunks the count turns negative, below every limit on parts |
| Uploads.PlanUpload | internal/biz/file.go:267-300 | succeeds exactly within the limits; a chunk within bounds, the only one the request normalizes to, and a part count that holds the size with a last part that is not empty |
| Uploads.FoundOnce | internal/biz/file.go:592-613 | with as many parts as numbers and every number found, each is found once although the inner loop goes on |
| Uploads.CollectedOnce | internal/biz/file.go:589-617 | the collected list holds the part numbered i at position i, and parts and numbers match one to one |
| Uploads.CompleteIff | internal/biz/file.go:589-617 | the checks pass exactly when there are as many parts as chunks, every number occurs, no part but the last is below the minimum and the sizes add up |
| Uploads.CollectParts | internal/biz/file.go:589-617 | succeeds exactly when every number is there, all but the last are long enough and the sizes add up; returns the keys in order and the sum |
| Uploads.CollectNumber | internal/biz/file.go:594-609 | the inner loop collects every part with the number |
| Uploads.ChunksCompleteIff | internal/biz/file.go:448-457 | if every part came through UploadChunk, the checks pass if and only if there is one part of exactly the planned size for every number |
| Uploads.SizesAddUp | internal/biz/file.go:614-617 | capped sizes add up to the planned size only if every part reaches its cap |
| Transfers.ListUploadParts | internal/data/file.go:304-318 | all recorded parts of the session in order of their numbers |
| Transfers.WithPart | internal/data/file.go:281-302 | the parts of the session are afterwards the new one and exactly those of other numbers; other sessions keep theirs |
| Transfers.StoredAndCommitted | internal/biz/file.go:618-640 | storing under a fresh identifier and committing keeps the world safe |
| Transfers.StoredAndGivenUp | internal/biz/file.go:641-644 | a failed commit keeps it safe whether or not the object could be removed |
| Transfers.TransactionsKeepSafe | internal/biz/node.go:980-1050 | moves, renames, deletes, restores, purges and new folders, in one transaction of any length, keep the world safe |
| Transfers.StoredCopiesKeepSafe | internal/biz/file.go:1360-1380 | a copy whose objects were stored before its rows keeps the world safe |
| Transfers.StoreAndCommit | internal/biz/file.go:618-644 | success leaves an active file whose key is stored; a failure leaves the database as it was |
| Transfers.UploadDesk.InitiateUpload | internal/biz/file.go:267-394 | succeeds exactly when the size can be planned, the account has room and the parent takes children; the session handed out is the caller's own and open, no other session changes, and none of another account's; it is the one asked for as long as that is the caller's, not completed and not past its expiry, else one for the destination that was there, open and not past its expiry, and a new one only when the caller has no such one; it takes the plan |
| Transfers.UploadDesk.PickSession | internal/data/file.go:153-160 | hands out a session of the caller's own, and opens one only when there is no open, unexpired one of the caller's for the folder and folded name |
| Transfers.UploadDesk.LoadOpen | internal/biz/file.go:1419-1447 | accepts exactly an open, unexpired session of the caller, or of anybody for a storage manager |
| Transfers.UploadDesk.Record | internal/biz/file.go:553-567 | the part is recorded in its number's place, the received bytes are the sum of the recorded sizes and a pending session is in progress |
| Transfers.UploadDesk.UploadChunk | internal/biz/file.go:436-493 | succeeds exactly for a stored part of an open session with a number of the plan and no larger than its room, records it, puts the session in progress with the received bytes summed, and keeps every session within its plan's room |
| Transfers.UploadDesk.ConfirmUploadPart | internal/biz/file.go:498-550 | records the stored object's size; empty only for an empty upload |
| Transfers.UploadDesk.ReleaseStaging | internal/biz/file.go:645-657 | the staged objects are gone or their path is queued, unless queueing failed; nothing else is taken |
| Transfers.UploadDesk.GatherParts | internal/biz/file.go:585-626 | the listing is complete exactly when the checks pass, its sizes add up, and composing means every listed object was stored |
| Transfers.UploadDesk.FinishUpload | internal/biz/file.go:645-657 | parts and session go exactly as far as their deletions work, no key outside the session's path is taken, and the file keeps its content |
| Transfers.UploadDesk.CompleteUpload | internal/biz/file.go:577-658 | once the node is committed there is an active file of the summed and planned size with stored content, from a complete listing whose objects were all stored; the call succeeds exactly when besides the session could be deleted, and else the session stays open beside the file; before that a failure changes neither nodes, sessions nor parts |
| Transfers.UploadDesk.UploadSmallFile | internal/biz/file.go:841-895 | success leaves a file of the payload's size with stored content; a failure leaves the database as it was |
| Transfers.UploadDesk.AbortUpload | internal/biz/file.go:812-838 | refused, it changes nothing, and it is refused unless the session is uncompleted and the caller's, or the caller is a manager, and the transaction works; otherwise the session is aborted without parts and no other key is taken, and success means that the objects are gone or their path is queued, which a store that does not fail or a queue that takes the path brings about |
| Transfers.UploadDesk.LiveUploads | internal/biz/system.go:427-446 | lists only sessions that are open, and all of them as long as neither status has more than ten thousand |
| Transfers.UploadDesk.Expire | internal/biz/system.go:344-357 | the three writes of one session, which end at the first that fails |
| Transfers.UploadDesk.ExpireUploads | internal/biz/system.go:336-361 | every session but one is kept as it was or was open and overdue and is retired with its path queued; the one at which a write failed is as far as its writes came and, once marked, is not listed again; open sessions keep everything; without a failure and below the limit no open session is left past its expiry |
| Transfers.UploadDesk.SweepOrphans | internal/biz/system.go:389-446 | takes only staged objects, leaves only those of open sessions when no removal fails, and takes none of theirs while neither status has more than ten thousand sessions |
| Access.EffectiveVisibility | internal/biz/access.go:241-256 | the visibility of some node of the chain that no node of the chain undercuts |
| Access.EvaluateNodeAccess | internal/biz/access.go:131-236 | a permission is granted exactly when the rules grant it: scope, ceiling, and command of the node or a grant by visibility or an allow, no deny anywhere on the chain, and no lock but for viewing; what the rules mean is AccessLaws |
| Access.FindLock | internal/biz/access.go:163-175 | the outermost locked node of the chain |
| Access.CollectRules | internal/biz/access.go:199-223 | the loops collect exactly the permissions some applicable entry allows or denies |
| Access.ScanEntries | internal/biz/access.go:202-211 | one list: denies always, allows unless only inheritable ones count |
| Access.StricterMeansLess | internal/biz/access.go:131-236 | the outcome is monotone in the allows and antitone in the denies |
| Access.OrderDoesNotMatter | internal/biz/access.go:199-223 | reordered or repeated entries evaluate alike |
| Access.DenyReachesDown | internal/biz/access.go:212-223 | a permission denied at a folder is denied on everything below it, but to owners and the administrator |
| Access.PrivateFolderHides | internal/biz/access.go:241-256 | below a folder less visible than needed nobody reads without an allow |
| AccessLaws.OthersDoNotMatter | internal/biz/access.go:259-276 | taking out of every list the entries for other accounts, for other roles and, for who is not signed in, for any account or role changes no outcome |
| AccessLaws.OwnAllowGrants | internal/biz/access.go:198-236 | an allow for everyone, the caller's account or its role, on the node or inheritable above it, grants what it names within scope and ceiling where nothing denies or locks |
| AccessLaws.OwnDenyTakes | internal/biz/access.go:198-223 | such a deny anywhere on the chain takes what it names from everybody but the owner and the administrator |
| AccessLaws.RoleEntryAppliesIff | internal/biz/access.go:259-294 | an entry for the machine name of a role applies exactly to the signed-in accounts of that role |
| AccessLaws.InChargeMayAll | internal/biz/access.go:146-180 | the owner and the administrator may do exactly what their account may, of what concerns nodes |
| AccessLaws.CeilingHolds | internal/biz/access.go:224-236 | nobody may do more than the account allows, and who is not signed in at most look and download |
| AccessLaws.PasswordShuts | internal/biz/access.go:160-175 | behind a password not given nothing but the view is left to anybody else |
| AccessLaws.VisibilityDecides | internal/biz/access.go:182-193 | without entries and locks exactly looking and downloading go, where every node of the chain is public, or internal for who is signed in |
| Access.Evaluate | internal/biz/node.go:255-294 | evaluates over exactly the ancestors the bounded walk reaches, all of them for a node no deeper than the bound |
| Access.BoundMattersIff | internal/biz/node.go:255-294 | the bound never changes an outcome if and only if the node is no deeper than it |
| Access.EvaluateNodes | internal/biz/node.go:299-326 | every listed row at any depth, and nothing else, is evaluated over the listed folder and what the bounded walk from it reaches, with the listed rows' entries only |
| Access.SharedChainIsOwnIff | internal/biz/node.go:391-404 | for a row below the listed folder, down to the bound, the shared chain is the row's own if and only if the row is a direct child |
| Access.BatchAgreesIff | internal/biz/node.go:299-404 | for every listed row at or below the listed folder, the folder itself included, down to the bound, EvaluateNodes and Evaluate agree on a permission if and only if it is decided before the chain, or no deny above, no lock and no visibility of a folder between takes what the batch grants and no inheritable allow above grants what it does not |
| Access.CleanChainAgrees | internal/biz/node.go:299-404 | they agree where no entry above matches and no folder between is locked or hidden, so always for direct children below folders without entries |
| Access.FolderBetweenIsOverlooked | internal/biz/node.go:391-404 | without any entry: everybody may download from a recursive listing of a public folder the file in a locked or private folder below it, which Evaluate refuses |
| Access.LockedFolderIsOverlooked | internal/biz/node.go:391-404 | three rows, the middle one with a password, are such a case |
| Access.NoneListedAbove | internal/biz/node.go:299-404 | no row at or below the listed folder is above it, so of the chain the batch can load the entries of the folder itself only |
| Access.DeepBatchSeesOneMore | internal/biz/node.go:255-326 | below the bound the batch sees exactly one ancestor more than Evaluate |
| Failures.OverwriteIsFree | internal/biz/file.go:735-750 | where no versions are kept and no quota is set, every overwrite that changes a size is allowed and leaves a counter wrong |
| Failures.OverwriteDrifts | internal/biz/file.go:735-750 | each empty file of a folder that gets some bytes is such a case |
| Failures.PurgeBillsOneOwner | internal/biz/node.go:1012-1033 | every purge within the limit, of a table without kept versions, that takes a row of another account is allowed and leaves a counter wrong |
| Failures.PurgeDrifts | internal/biz/node.go:1012-1033 | a trashed folder with one file of another account is such a case |
| Failures.ChildGoesTooDeep | internal/biz/node.go:758-760 | a folder with something in it may go to the greatest depth there is and takes that one level further |
| Failures.MovePassesDepthLimit | internal/biz/node.go:758-760 | for every limit above one there is such a folder and such a place for it |
| Shares.RedeemedIffVisible | internal/biz/share.go:356-378 | a link is redeemed exactly when it is neither revoked nor marked expired, not past its expiry and has downloads left; it is visible exactly when besides its status was set |
| Shares.BudgetHolds | internal/service/share.go:264-292 | with at most c requests in flight, no interleaving counts more than m + c - 1 downloads |
| Shares.BudgetIsTight | internal/service/share.go:264-292 | some interleaving counts that many |
| Shares.NoCountIsLost | internal/data/share.go:102-168 | the counters are the starting values plus every increment, however stale the updates |
| Shares.LatestUpdateHolds | internal/data/share.go:102-168 | but for its counters a link says what the latest update wrote, however requests interleave |
| Shares.RevokedLinkStaysShut | internal/biz/share.go:356-378 | no request passes the check of a revoked link until it is updated again |
| Shares.ResolveNode | internal/biz/share.go:408-440 | finds a node exactly when the shared node is active and the node is active and the shared one or below it by parent pointers |
| Shares.HiddenStepIff | internal/data/node.go:320-340 | a shared node out of the live tree comes back by a step if and only if the step restores it or a folder above it |
| Shares.TrashingHidesUntilRestored | internal/biz/share.go:408-417 | trashing a folder above the shared node makes every link into it unresolvable through every run without such a restore |
| Shares.ShareDesk.GetDownloadUrl | internal/service/share.go:264-292 | a URL is handed out exactly for an active file with content inside an unlocked, downloadable share that is not revoked, not expired and has downloads left, and counted; one after another, requests never exceed the budget |
| Sessions.StepKeepsValid | internal/biz/auth.go:220-297 | tokens stay unique and each login keeps at most one open session |
| Sessions.RotationKeepsExpiryIff | internal/biz/auth.go:260-297 | a rotation keeps the login's expiry if and only if both clock readings agree |
| Sessions.RunsStayValid | internal/data/user.go:308-381 | over every run nothing revoked comes back and stored sessions only ever get revoked |
| Sessions.LoginsHaveOneOpenSession | internal/biz/auth.go:260-297 | on every run each login has at most one open session |
| Sessions.TokensAreRedeemedOnce | internal/biz/auth.go:260-297 | on every run each refresh token is redeemed at most once |
| Sessions.LoginsKeepTheirExpiry | internal/biz/auth.go:260-297 | with one clock reading per rotation every session of a login expires when the login does |
| Sessions.NoRotationPastExpiry | internal/biz/user.go:59-61 | then no session of a login is rotated at or after the expiry the login was given |
| Sessions.RevokedStayRevoked | internal/biz/auth.go:323-358 | after all sessions of an account are revoked they stay revoked through every run |
| Sessions.OpenUntilEnded | internal/data/user.go:308-381 | a stored session stays as it was until it is rotated or revoked or its account's sessions are; nothing done to others touches it |
| Sessions.Auth.SignIn | internal/biz/auth.go:154-190 | opens one session with a token of its own for an active account |
| Sessions.Auth.FindByToken | internal/data/user.go:320-332 | finds the session with the token, if there is one |
| Sessions.Auth.Refresh | internal/biz/auth.go:260-297 | succeeds exactly when the token is that of an unrevoked session that has not reached its expiry, of an active account, and then replaces the session by a new one of the same account |
| Sessions.Auth.Logout | internal/biz/auth.go:300-320 | revokes the session of the token, never another account's for a signed-in caller, or all of the caller's |
| Sessions.Auth.ChangePassword | internal/biz/auth.go:323-358 | afterwards no session of the account is usable; other accounts' are untouched |
| Sessions.Auth.RevokeSession | internal/biz/auth.go:370-385 | revokes exactly one session of the caller's own |

## Left out

- SQL and the listing options: each repository call is modelled by its effect on the rows, with its status filter, order and limit; a path prefix is compared exactly, as the lower-case paths make it.
- Names: trimming, forbidden characters and the length limit of a name are a parameter of MoveNodes and absent elsewhere; folding maps character to character; the configuration with case-sensitive names is not modelled.
- Files of a node that play no part in the proofs (MIME type, checksum, description, visibility and password columns in the table, timestamps); the access columns appear in Access.
- UpdateNode, SetNodeAcl, Unlock, statistics, search, archives, byte ranges, settings, audit and the account rank checks: they would add easy members only.
- The purge_trash job (`internal/biz/system.go:488-516`): it lists nested trashed rows beside their tops, so its batch can meet rows already gone; no success is claimed for it.
- Copying.CopyNodes: the target is loaded outside the transaction in the source; here the whole call is one step. The objects a failed copy leaves in the store are covered by the steps of Content, where a copy stores content before its row is committed.
- Netdisk.Netdisk.Relocate: bounds the depth of the moved node only, as the source does; Tree.MoveKeepsDepthLimitIff says when its descendants stay within the limit, Access.BoundMattersIff what it means when they do not.
- Netdisk.Netdisk.CreateFolder: the access entries of a new folder are not modelled.
- Transfers.UploadDesk.UploadChunk: each upload request is one step; a request that writes back a session it read before another request changed it is not modelled, and neither is the loss of an earlier part's object when a retry is refused for its tag.
- Transfers.UploadDesk.CompleteUpload: what the composed object contains is the list of its parts' keys; the store is a set of keys without bytes. Checksums are a parameter.
- Integer widths: sizes, counters and list lengths are unbounded but for the upload plan, where the int32 conversion and the int64 sum are written out.
- Access masks are sets of the twelve permissions; bits that stand for none are dropped by the node scope.
- Storage.ListPending: queued keys have no creation time, so which ones a cut listing returns is left open.
- Netdisk.Netdisk.constructor: of the defaults the source fills in only that of the depth limit is modelled; name length, root name and default visibility play no part in the model.
- Access.BatchAgreesIff: speaks of rows no deeper than the bound of the walk; for deeper direct children Access.DeepBatchSeesOneMore says what the two evaluations see.
- Netdisk.Netdisk.MoveNodes: the condition for success is sufficient and told before the call; a batch whose names meet only for a moment may succeed as well, and so for RestoreNodes.
- Copying.CopyTree: the condition for success is sufficient; a copy that meets a cut listing or renames clashing siblings may get through as well, and so for CopyNodes.
- Netdisk.Netdisk.ListSubtree: which rows a cut listing returns, by identifier in the source, is left open; Invariants.PurgeIsSafeIff quantifies over all of them.
- Storage.Maintenance.GcOrphans: is given the sessions it spares; Transfers.UploadDesk.SweepOrphans lists them as the source does.
- Queue rows that name the same key twice are one queued key; the attempt counter of a failed removal is not modelled.
- Sessions.Auth.SignIn: checking the password and opening the session are one step; a password changed between the two is not modelled.
- S3 requests, presigned URLs, hashing, token signing and the network: parameters or absent.

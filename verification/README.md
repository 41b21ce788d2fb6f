# Verified model of go-networkfs

go-networkfs mounts remote storage (S3, OneDrive, Google Drive, FTP and others) behind one
filesystem interface. This project models the hand-written logic that decides whether data
survives: renames over a flat key store, chunked uploads against an unreliable server, a cache
that stands in for remote lookups, streaming through pipes, concurrent counters, a tree walk,
and the text and image encoders of the terminal viewer. Each remote is a value or an object whose
calls may fail, lose their reply, or both; the driver code is proved against it.

Run `dafny verify dfyconfig.toml` to check everything.

## How it is organised

- `GoStrings`, `Octets`, `Options`: the part of Go's `strings` package the drivers use, bytes, and
  values that may be missing.
- `Paths`, `Walk`, `Glob`: the path algebra and traversal of `pkg/fsutil`. The recursive walk is
  proved equal to a left-to-right scan of one flat script, and the script to be the preorder.
- `S3`: the driver over a bucket that is a map from keys to bytes. Every state the bucket passes
  through is recorded, so that "at every intermediate and failure point" is a statement.
- `DriveTree`, `DriveCache`, `DriveRuns`: Google Drive as a tree of ids, the path-to-id cache, and
  whole runs of the driver. `Resolve` is the uncached walk that the cache stands in for.
- `OneDriveHttp`, `OneDriveUpload`: the request loop and rotating tokens; chunked sessions and the
  writer that spills to disk. `MockUpload` is the repository's own test server for those sessions.
- `Multipart`: the upload body Drive is sent, and the parser in the test server.
- `Base64`, `Kitty`, `TextPreview`: the terminal image encoders with readers defined on their own,
  and the text preview's trimming to valid UTF-8.
- `FtpDownload`, `FtpFeeder`, `FtpUpload`: the two directions of FTP streaming. The upload, and the
  goroutine behind a download, are state machines over single steps; the reader's view of the latter
  is proved to be the pipe that `FtpDownload` works on.
- `Transport`, `Snapshots`: the counters as a state machine over single atomic operations, and when a
  snapshot of them shows one moment.

Methods have the form of the source: classes with the source's fields, loops with invariants. Where
a method computes something that lemmas then speak about, it is tied to a function, and the lemmas
are about that function. A parameter or result marked `ghost` only records what happened.

## What the proofs brought to light

Where code and documentation disagree the model follows the code.

- `Walk` visits a directory in the order its listing came. That is lexical order if and only if every
  listing of the tree came sorted by name (`Walk.LexicalExact`). A failed listing is reported with the
  directory's real `FileInfo`, not a zeroed one (pkg/fsutil/walk.go:25-31 against 54-64).
- `Glob` without `**/` answers with the matching direct children if and only if the root is given empty or
  absolute, or there are none to find: under a root such as `"a"`, not `"/a"`, it finds nothing, since the
  drivers report absolute paths and no absolute path has a relative parent (`Glob.NonRecursiveExact`).
- Drive: `Mkdir`, uploads and `Rename` cache the new id under the path as it was spelled. For a path
  with an empty segment, such as `"/a//b"`, that entry is wrong; `DriveCache.PutCreated` gives the
  exact condition. The one exception is a single leading empty segment: the seeded key `"/"` makes
  `"//a"` a second name for `"/a"`, so removing the one leaves the other in the cache.
- Drive: `Remove` and `Rename` drop one cached path. The cache stays true exactly when no other cached
  path ran to or through the entry (`RemoveExact`, `RenameExact`), and when the request's fate is
  known: a reply lost after the server deleted or moved the entry leaves the cache wrong, since the
  early return skips the cache update. A rename to a place below the entry itself breaks it too. A rename
  of an entry onto itself keeps it true if and only if the new path has no empty segment (`TouchExact`).
- Drive: `uploadFile` takes every failed lookup of its target for "absent". An upload to a file that exists
  makes a second entry of that name if and only if that lookup failed and the POST took effect
  (`DriveCache.Driver.UploadFile`; `DriveRuns.BlindUpload` is such an upload). It may report success, and the
  data is in the second entry, not in the file that the path names. `Mkdir` makes a double whenever the
  name is taken, and so does a `Rename` onto another entry, after which no path leads to what was moved. A
  double's id in the cache is not the one that lookups give.
- OneDrive: a rotated refresh token is lost exactly when the answer that carries it is lost, spoilt,
  unreadable or has no access token. After that no refresh succeeds again (`OneDriveHttp.RunInStep`).
- OneDrive: `Close` reports success on every call after the first, whatever the first one returned.
- OneDrive: a write to the temporary file that fails sets no sticky error, so `Close` uploads what was
  accepted until then and can succeed. A session that succeeds has made the file if and only if it was asked
  for at least one byte (`UploadSession`, `Writer.Close`). One oversized write of which the disk takes nothing
  leaves an empty file behind (`FailingWrite`); the session then opened sends nothing, is neither completed
  nor cancelled, and reports success (`EmptySession`).
- The test server for chunked uploads appends what arrives. It ends up with the right file if and only
  if every chunk of a file of several chunks arrived once; after a lost reply and a retry it does not
  (`MockUpload.AppendExact`). A server that stores at the offset needs no condition.
- `splitMultipart` loses part of the data exactly when the data holds a blank line or ends in a line
  break (`Multipart.RoundTrip`); what it does return is always a prefix.
- `Snapshot` is not the consistent read its comment promises. For every load order and every run, a snapshot
  shows the counters as they stood at some moment if and only if no counter it had still to load went up
  after one it had loaded (`Snapshots.SnapshotIsAMoment`); `SnapshotIsNoMoment` is a run where that fails.
- Snapshots keep OpsRead at or below OpsWritten, in every run of jobs of given kinds, if and only if
  connection Reads are not among the kinds and, round trips being among them, OpsRead is loaded before
  OpsWritten, as it is (`Transport.KindsDecide`). Connection Writes do no harm.
- `joinPath` does not undo `splitParent` on a lone name behind two separators, as in `"//a"`, and on nothing else
  (`Paths.JoinSplitParent`).
- S3: a `StatObject` that fails is taken for "no such object". `Stat` then answers with a directory of that
  path or with not-found, and `Remove` removes a directory's placeholder and reports success while the file
  stays (`S3.MissedRemoval`). After a successful `Remove` the path is gone if and only if no object was missed
  in this way, the path does not name both an object and a directory, and it is not the root
  (`S3.RemovedIsGone`). After a successful `Rename` the old path names nothing and the new one what the old
  one did under similar exact conditions: among them that nothing was missed, and that no object and directory
  share one of the paths (`S3.FileWentOver`, `S3.DirWentOver`).

## Model

| member | source | states |
|---|---|---|
| Paths.NormPathFixes | pkg/fsutil/path.go:48-57 | normalising is idempotent and leaves every normal path alone |
| Paths.NormPath | pkg/fsutil/path.go:48-57 | the result is absolute, with no trailing separator unless it is the root |
| Paths.PathForms | pkg/fsutil/path.go:48-57 | every path being a core and trailing separators: its normal form is the core made absolute, a child's path is the core, a separator and the name, and that child's parent is the core |
| Paths.NameFromPath | pkg/fsutil/path.go:21-29 | the backward loop finds the last non-empty segment, or nothing |
| Paths.NameOfSplitPoint | pkg/fsutil/path.go:21-29 | the name of any path put together from a folder and a name is that name |
| Paths.NameForms | pkg/fsutil/path.go:21-29 | a path's name is its last piece that is not empty, whatever separators follow, and separators alone have none |
| Paths.TrimRightSlash | pkg/fsutil/walk.go:99-104 | the loop computes the specified trimming |
| Paths.RightSlashTrimmed | pkg/fsutil/walk.go:99-104 | a prefix, cut only by separators, without a trailing one unless it is one character |
| Paths.ParentOfJoin | pkg/fsutil/glob.go:48-62 | for every directory string and every name, the parent of the joined path is the normalised directory, and its name is the name |
| Paths.JoinGrows | pkg/fsutil/walk.go:91-97 | a joined path is in normal form and strictly longer than its directory's |
| Paths.AbsoluteRoot | pkg/fsutil/glob.go:57-62 | making a root absolute leaves what Glob compares with alone if and only if it was absolute or empty |
| Paths.PathOfComponents | gdrive/gdrive.go:873-878 | rebuilding a normal path from its components gives it back |
| Paths.ComponentsOfPath | gdrive/gdrive.go:873-878 | splitting a path built from names gives the names back |
| Paths.ComponentsInjective | gdrive/gdrive.go:873-878 | normal paths with the same components are the same |
| Paths.SplitParentPieces | gdrive/gdrive.go:911-921 | the name is one segment, and the parent's pieces followed by it are the path's |
| Paths.SplitParentSegments | gdrive/gdrive.go:911-921 | for a path without empty segments the parent is normal and one segment shorter |
| Paths.SplitJoined | onedrive/onedrive.go:842-859 | splitting undoes joining for every normal folder and name |
| Paths.JoinSplitParent | onedrive/onedrive.go:842-859 | joining undoes splitting if and only if the path is not a lone name behind two separators |
| Paths.ChildSegments | gdrive/gdrive.go:228-231 | a listed child's path is normal and leads one segment further than its folder's |
| Walk.WalkEntry | pkg/fsutil/walk.go:42-76 | under any stateful callback the recursive walk is the scan of the flat script: same calls in the same order, same final state, same error; an answer that is an error but no skip, or a skip where no directory is visited, is the last one and the result |
| Walk.WalkFrom | pkg/fsutil/walk.go:32-40 | a failed Stat of the root is one call whose answer is the result; otherwise the scan of the root's script |
| Walk.WalkEndsSo | pkg/fsutil/walk.go:42-76 | what ends a walk, told from its calls alone: an error that is no skip, or a skip of what is no directory, is the last call's and the result; without one the result is no error and just the items inside a skipped subtree go without a call |
| Walk.FailureIsReported | pkg/fsutil/walk.go:54-64 | a directory whose listing fails is called back on twice in a row, the second time with the error |
| Walk.PathAsListed | pkg/fsutil/walk.go:65-71 | an entry is visited under the path its listing gave, or, if it gave none, under its name in the directory's path; nothing else about it changes |
| Walk.CallsExact | pkg/fsutil/walk.go:42-76 | an entry is called back on if and only if no skip pruned it and no error stopped the walk before it; calls run forward, none repeats; only the last one can stop the walk, and its error is the result |
| Walk.CallsAreSeen | pkg/fsutil/walk.go:42-76 | the calls these statements speak of are the ones a callback that keeps a log records, and keeping it changes nothing else |
| Walk.SubtreeContiguous | pkg/fsutil/walk.go:42-49 | each entry's visit opens one contiguous piece that is its subtree's script, and SkipDir jumps over exactly that piece |
| Walk.PositionOrder | pkg/fsutil/walk.go:65-75 | one entry is visited before another if and only if it is an ancestor or comes first in listing order where they part; no entry stands twice |
| Walk.LexicalExact | pkg/fsutil/walk.go:65-75 | entries are visited in the order of their paths, name by name, if and only if every listing of the tree came sorted by name without repetition |
| Walk.NameOrder | pkg/fsutil/walk.go:25-27 | the order meant: where two names part, their characters there decide, and a name comes ahead of those that go on after it |
| Walk.NamesOrder | pkg/fsutil/walk.go:25-27 | the same for paths, name by name |
| Walk.ItemHasEntry | pkg/fsutil/walk.go:54-64 | every call is one entry's visit or the one extra call, with the directory's own info, after its listing failed |
| Glob.Run | pkg/fsutil/glob.go:20-45 | the result is the matching entries before the first malformed match; there is an error if and only if the pattern is malformed on some entry that comes as far as being matched; a failed Stat gives an empty result |
| Glob.DirectChildrenExact | pkg/fsutil/glob.go:31-41 | without the any-depth prefix exactly the direct children whose names match, in listing order, whatever lies deeper |
| Glob.RecursiveExact | pkg/fsutil/glob.go:20-45 | with it exactly the named entries that match, at any depth, each once, in preorder |
| Glob.RelativeRootFindsNothing | pkg/fsutil/glob.go:31-34 | with a relative root and a driver that reports absolute paths nothing is found |
| Glob.NonRecursiveExact | pkg/fsutil/glob.go:31-41 | on a driver that reports a directory under its normal path, the answer is the matching direct children if and only if the root was given empty or absolute, or there are none |
| Glob.DeepIsSilent | pkg/fsutil/glob.go:31-34 | below any directory longer than the root the filter lets nothing through |
| S3.NormalizePrefix | s3/s3.go:459-465 | empty, or not starting with a separator and ending in exactly one |
| S3.MountPrefix | s3/s3.go:450-465 | of separators, a core and separators the core and one separator remain, or nothing if there is no core, and every path's key is the core, a separator and the path |
| S3.PrefixAsGiven | s3/s3.go:459-461 | every prefix is of that form |
| S3.KeyPathRoundTrip | s3/s3.go:450-456 | every key that is no directory marker becomes a path and comes back as itself under the mount's prefix |
| S3.Driver.constructor | s3/s3.go:128-131 | a new driver is connected and uses the normalised prefix |
| S3.Driver.Stat | s3/s3.go:144-191 | with a client that does not fail, what the bucket says of the path; with any client, a success or a not-found answer is the bucket's own if and only if no object was missed by a failed lookup |
| S3.Driver.ListDir | s3/s3.go:196-255 | a successful listing holds every non-empty first segment below the directory once and nothing else, as a file with its size if an object has that name and as a directory otherwise |
| S3.ListDirAgreesWithStat | s3/s3.go:144-255 | for every bucket, prefix, directory and name: statting the name's path gives exactly the listed entry, and fails exactly when it is not listed |
| S3.ListingIsStatted | s3/s3.go:144-255 | a listing told by Stat alone: each name once, each entry as Stat gives it at its path, and none missing whose path can be statted |
| S3.ObjectListedFirst | s3/s3.go:227-252 | an object is listed ahead of the common prefix of the same name, so the first of the two that is seen is the file |
| S3.EntryIsListed | s3/s3.go:214-252 | every entry of the directory has an event, the object's own if there is one |
| S3.ListedIsEntry | s3/s3.go:222-241 | every event with a name is an entry of the directory, and its trailing separator tells a directory from a file |
| S3.Driver.Mkdir | s3/s3.go:321-333 | the bucket gains the empty placeholder and nothing else, or, on failure, perhaps nothing |
| S3.Driver.Remove | s3/s3.go:339-377 | the exact change to the bucket, also when the object's lookup failed; after success the path is gone if and only if `Goes`: no object missed, none shared with a directory, not the root; a refusal as not empty is justified |
| S3.RemovedIsGone | s3/s3.go:339-377 | after a removal that succeeded the path names nothing, if and only if no object was missed by a failed lookup, the path did not name both an object and a directory, and it is not the root |
| S3.MissedRemoval | s3/s3.go:348-376 | one object whose lookup fails once: Remove succeeds and the file is still there |
| S3.Driver.Rename | s3/s3.go:382-434 | at every state passed through, each original object's bytes are at its source or destination key, no source key is gone before the last copy is in place, and other keys are untouched; on success the bucket is exactly the moved one; it succeeds on a reliable client exactly when there is something to rename; after success the old path names nothing and the new one what it did if and only if `GoesOver` |
| S3.FileWentOver | s3/s3.go:389-399 | after a file's rename the old path names nothing and the new one a file of its size, if and only if neither is the root, they differ, the new one is not below the old one, and the old one was no directory too |
| S3.DirWentOver | s3/s3.go:401-434 | after a directory's rename the old path names nothing and the new one a directory, if and only if neither path has an object, one missed by the lookup included, and the old one is not the root |
| S3.FileRenamedSo | s3/s3.go:391-398 | a file's rename in so many words: at every state its bytes are at one of the two keys and every other key is as it was; success swaps the keys |
| S3.DirRenamedSo | s3/s3.go:401-434 | a directory's rename in so many words, for every state and key: bytes at the source or the destination, no source key gone before all copies are there, every other key as it was |
| S3.Driver.MoveFile | s3/s3.go:391-398 | a file's bytes are at one of its two keys throughout, and on success exactly the key has changed |
| S3.Driver.CopyAll | s3/s3.go:407-422 | the copying phase deletes nothing, ends with a copy of every key under the source, and lists exactly those keys for deletion |
| S3.Driver.DeleteAll | s3/s3.go:428-433 | the deleting phase keeps every copy and ends in the moved bucket |
| S3.MovedExact | s3/s3.go:401-434 | in the moved bucket nothing is left under the source, each suffix and its bytes stand under the destination, and every other key is as it was |
| S3.DirectoriesApart | s3/s3.go:401-402 | directories that part at different names have prefixes that are apart, as the claims about renames ask |
| S3.CopyStep | s3/s3.go:415-421 | one copy touches no other object's copy and keeps the rename safe |
| S3.DeleteStep | s3/s3.go:428-432 | one delete removes no copy and keeps the rename safe |
| S3.AllDeleted | s3/s3.go:428-433 | all copied and all deleted is the moved bucket |
| DriveTree.UncleanNamesNothing | gdrive/gdrive.go:873-897 | a path with an empty segment resolves to nothing in every tree |
| DriveTree.OnePath | gdrive/gdrive.go:873-908 | two paths that resolve to the same entry have the same segments |
| DriveTree.DeletedExact | gdrive/gdrive.go:371-374 | deleting an entry removes its path and every path through it, and changes no other |
| DriveTree.RelinkedExact | gdrive/gdrive.go:397-415 | moving an entry empties every path through its old place and keeps all others that named something |
| DriveTree.CreatedKeeps | gdrive/gdrive.go:340-350 | creating an entry changes no path that named something |
| DriveCache.Driver.constructor | gdrive/gdrive.go:120-120 | the seeded cache is true to every tree |
| DriveCache.Driver.ResolvePath | gdrive/gdrive.go:864-909 | answers as the uncached walk does, id or not-found, with any true cache; teaches the cache only true entries, among them the path itself, so that an immediate second call asks nothing; never asks more than once per component |
| DriveCache.Driver.WalkComponents | gdrive/gdrive.go:873-908 | the same for the loop |
| DriveCache.WalkStep | gdrive/gdrive.go:877-906 | each turn, hit or query, stays on the walk the remote tree gives, and a miss proves the whole path names nothing |
| DriveCache.Driver.ListDir | gdrive/gdrive.go:189-257 | however the remote pages: every child once, under its path and id, all of them cached truly; fails on a reliable remote exactly when the path names nothing |
| DriveCache.Driver.ListFolder | gdrive/gdrive.go:204-256 | the same for the loop over the pages |
| DriveCache.Driver.AddPage | gdrive/gdrive.go:218-248 | one page extends the listing by its names and keeps the cache true |
| DriveCache.Driver.AddChild | gdrive/gdrive.go:220-247 | one child is listed under its path and cached truly |
| DriveCache.Driver.CreateEntry | gdrive/gdrive.go:340-354 | one new entry with its data, a double if and only if the name was taken; the cache stays true if and only if nothing was cached, or the entry is no double and the path has no empty segment |
| DriveCache.Driver.Mkdir | gdrive/gdrive.go:328-355 | as CreateEntry, after resolving the parent; success means that an entry was made; the whole is one of the steps that runs are made of |
| DriveCache.Driver.UploadFile | gdrive/gdrive.go:780-860 | on every remote and path: an existing file keeps its id and the tree its shape, any other path is created; an upload to an existing path makes a double if and only if its lookup failed and the POST took effect; the data replaces one entry's content and no other's, and after success the path leads to that entry if and only if it is no double and existed or has no empty segment; the exact condition for the cache to stay true |
| DriveCache.LandsThere | gdrive/gdrive.go:799-803 | after a creation the path leads to the new entry if and only if that is no double and the path has no empty segment |
| DriveCache.Driver.FindTarget | gdrive/gdrive.go:783-792 | the ids are the ones the remote tree gives, the cache stays true, and on a reliable remote a lookup fails only for what is not there |
| DriveCache.Driver.ReplaceContent | gdrive/gdrive.go:791-858 | success means the file holds the data, any other outcome that it does or holds what it held; nothing else changes, neither the tree nor the cache |
| DriveCache.PutCreated | gdrive/gdrive.go:351-353 | caching a created entry under the path it was asked for is right if and only if the path has no empty segment |
| DriveCache.DoubleMisleads | gdrive/gdrive.go:856-858 | caching a double's id is never right |
| DriveCache.Driver.Remove | gdrive/gdrive.go:360-377 | the entry and nothing else is deleted; the cache stays true if and only if nothing was deleted, or the deletion was acknowledged and no other cached path ran to or through the entry; the whole is a step of runs |
| DriveCache.RemoveExact | gdrive/gdrive.go:375-375 | dropping one key is enough if and only if no other cached path runs to or through the deleted entry |
| DriveCache.Driver.Rename | gdrive/gdrive.go:381-420 | for every pair of paths: the entry hangs under the new parent by the new name, or is a double there if the name is another entry's; the exact condition for the cache to stay true, for a move, a rename onto another entry and one onto itself, acknowledged or not; the whole is a step of runs |
| DriveCache.Driver.FindMove | gdrive/gdrive.go:389-410 | the entry and the two folders are the ones the remote tree gives, and looking them up does not decide whether the cache will stay true |
| DriveCache.RenameExact | gdrive/gdrive.go:417-418 | the exact condition for the two cache updates of a rename to leave it true |
| DriveCache.TouchExact | gdrive/gdrive.go:417-418 | after renaming an entry onto itself the two cache updates are right if and only if the new path has no empty segment |
| DriveCache.CoverExact | gdrive/gdrive.go:413-418 | after renaming an entry onto another one the cache is wrong, whether or not the reply came |
| DriveCache.NewPathResolves | gdrive/gdrive.go:418-418 | after a move the new path leads to the entry if and only if it has no empty segment and is not below the old path |
| DriveCache.EntryEdge | gdrive/gdrive.go:911-921 | an entry hangs by its path's last segment in the folder the rest leads to, and nowhere else |
| DriveRuns.StepExact | gdrive/gdrive.go:189-420 | from a true cache every outcome of an operation, a change whose reply was lost and a double among them, leaves a true cache if and only if its guard held: a condition on the cache and the paths before the call, and that no deletion or move goes unheard, no double is cached and nothing is moved onto another entry |
| DriveRuns.RunStaysTrue | gdrive/gdrive.go:189-420 | along every run of the steps that the driver's listings, creations, uploads, removals and renames promise to take, failed and unheard ones included, the cache is true throughout if and only if every guard held |
| DriveRuns.StaleDescendant | gdrive/gdrive.go:375-375 | a run of one removal after which a cached path names nothing: the guard is needed |
| DriveRuns.BlindUpload | gdrive/gdrive.go:783-786 | an upload to an existing file whose lookup failed: a second entry of the name, cached in place of the first |
| OneDriveHttp.Driver.Do | onedrive/onedrive.go:605-662 | over every sequence of replies: each request carries a token and the whole body; every reply but the last is a lost one, a 401 in first place, or one of 429, 502, 503 and 504; the last one decides the result, a status below 400 the response and any other that is not gone on after its error; each response body is closed once or handed over open; waiting is the sum of the decided waits |
| OneDriveHttp.CallOutcome | onedrive/onedrive.go:605-662 | the same for the whole of a call, told from its replies and the authority's answers alone, with the error each status stands for, and when it is the authority that ended the call |
| OneDriveHttp.WaitsInNumbers | onedrive/onedrive.go:762-781 | the waits of a call: the header's seconds if they are 1 to 120, and otherwise half a second, one second, two seconds |
| OneDriveHttp.Driver.Try | onedrive/onedrive.go:617-661 | the same for the loop; the trailing return is unreachable |
| OneDriveHttp.Driver.Attempt | onedrive/onedrive.go:617-660 | one turn of the loop: the authority's refusal before anything was sent, or one request, its reply and what that reply calls for; what it sent, waited, closed and asked for is exactly that |
| OneDriveHttp.Driver.SendOnce | onedrive/onedrive.go:618-635 | no request without a usable token, the body sent from its start whatever an earlier try read; a failure is the authority's answer |
| OneDriveHttp.Driver.React | onedrive/onedrive.go:636-659 | each reply leads to the decided action, re-authorising asks the authority once, and the body is closed unless it is handed over |
| OneDriveHttp.AddTurn | onedrive/onedrive.go:617-660 | one more turn keeps the record of the call complete: every request accounted for, and its end explained by its last event |
| OneDriveHttp.ConversationBounds | onedrive/onedrive.go:605-662 | at most four requests; at most one 401-driven refresh, on the first reply; at most 360 s of waiting, and 3.5 s if no Retry-After is honoured |
| OneDriveHttp.WaitBounds | onedrive/onedrive.go:762-781 | the same bounds turn by turn |
| OneDriveHttp.BackoffShape | onedrive/onedrive.go:775-781 | waits never shrink from one attempt to the next, lie between 0.5 s and 5 s, and are 5 s from the fifth on |
| OneDriveHttp.LastAttemptEnds | onedrive/onedrive.go:661-661 | no reply to the last attempt is gone on after |
| OneDriveHttp.Driver.EnsureToken | onedrive/onedrive.go:678-686 | after success there is an access token with at least 60 s left or minted in this call; the authority is asked, once, exactly when there is not, and the call succeeds if and only if it need not be asked or answers with an access token |
| OneDriveHttp.Driver.Refresh | onedrive/onedrive.go:688-756 | presents the token held; succeeds if and only if the answer holds an access token, whether it rotates or not; asks for re-authorisation if and only if it is a 4xx with invalid_grant; stays in step with the authority if and only if that did not rotate or the answer was used, however the answer was lost or spoilt |
| OneDriveHttp.RunInStep | onedrive/onedrive.go:688-756 | along every run of refreshes, answers lost after a rotation included, the token presented is the current one if and only if no rotation was wasted before; while it is, every answer with an access token is used; after a waste no refresh succeeds |
| OneDriveHttp.RunsThereAre | onedrive/onedrive.go:688-756 | a rotation whose answer arrives is followed, and one whose answer is lost leaves the driver with a token that is worth nothing |
| OneDriveUpload.Uploads.PutChunk | onedrive/onedrive.go:551-583 | at most four requests, all with the same range; the chunk succeeds if and only if its last reply is 200, 201 or 202, is given up only after four tries or on a status that is not retried, and with the error of that status; success means the range is stored and acknowledged once; waits are the decided ones; every response body is closed |
| OneDriveUpload.Uploads.TryChunk | onedrive/onedrive.go:553-582 | the same for the loop |
| OneDriveUpload.ChunkOutcome | onedrive/onedrive.go:551-583 | what a chunk comes to, told from its replies alone |
| OneDriveUpload.ChunkWaitsInNumbers | onedrive/onedrive.go:562-579 | a chunk waits as any other call does |
| OneDriveUpload.SessionOutcome | onedrive/onedrive.go:528-545 | a session that began succeeds if and only if every chunk was sent and its last reply was 200, 201 or 202; with no other reply in last place only the disk can make it fail |
| OneDriveUpload.Uploads.UploadSession | onedrive/onedrive.go:505-546 | all it did is accounted for by one opening call, what was granted, and the replies chunk by chunk: the requests are the ranges in order, each as often as it was answered, at most four times; every failure has its cause there or in the disk; success means the server holds exactly the body, acknowledged exactly its ranges, and made the file if and only if there was a byte to send; what is acknowledged is always a prefix; a failure after the session opened cancels it once, any other outcome never |
| OneDriveUpload.Uploads.BeginSession | onedrive/onedrive.go:506-526 | one call with the fixed body; each of its failures has its cause in that call or in what was granted; the answer's body is closed once |
| OneDriveUpload.Uploads.SendChunks | onedrive/onedrive.go:528-545 | the same for the loop: requests, replies and acknowledged ranges are those of the chunks it reports, and its result is what the last of them came to, or a failed read |
| OneDriveUpload.Uploads.SendNext | onedrive/onedrive.go:531-543 | one turn extends what the server holds by the next chunk of the file, and makes the file exactly with the last one; a failure is a failed read or the chunk's last reply |
| OneDriveUpload.SentFew | onedrive/onedrive.go:530-544 | no range goes out more than four times, over all chunks |
| OneDriveUpload.LastCompletes | onedrive/onedrive.go:530-544 | the chunk that reaches the end completes the file, byte for byte, and no other one does |
| OneDriveUpload.RangesShape | onedrive/onedrive.go:530-544 | the ranges are well formed, contiguous from the start to the last byte, and all but the last are full chunks |
| OneDriveUpload.RangesPartition | onedrive/onedrive.go:530-544 | each byte of the file lies in exactly one range |
| OneDriveUpload.ChunkAligned | onedrive/onedrive.go:51-51 | full chunks are a multiple of 320 KiB and under 60 MiB |
| OneDriveUpload.StoreGrows | onedrive/onedrive.go:539-543 | storing the next chunk at its offset extends exactly what is held |
| OneDriveUpload.StoreTwice | onedrive/onedrive.go:575-578 | repeating a range changes nothing, which is what makes the retry safe |
| OneDriveUpload.Uploads.PutSmall | onedrive/onedrive.go:490-500 | one call that carries the data and gives the result; success means the file's content is the data, any other outcome that it is the data or as before; each response body is closed once |
| OneDriveUpload.Writer.constructor | onedrive/onedrive.go:202-207 | a new writer has accepted nothing and holds nothing |
| OneDriveUpload.Writer.Write | onedrive/onedrive.go:424-457 | at most one of memory and temporary file holds data, and it is the concatenation of what was reported accepted; memory never exceeds 4 MiB; without disk errors the file exists exactly beyond that; what a write does, case by case, for each thing the disk may do |
| OneDriveUpload.Writer.Close | onedrive/onedrive.go:459-477 | unless an error sticks or the rewind fails, the first call makes one upload of exactly the accepted bytes, by one call or one session, on every outcome, and all that was sent belongs to it; otherwise nothing is sent; success of a session makes the file if and only if something was accepted; no temporary file remains; later calls do nothing |
| OneDriveUpload.FailingWrite | onedrive/onedrive.go:440-456 | one oversized write of which the disk takes nothing leaves an empty file and no sticky error |
| OneDriveUpload.EmptySession | onedrive/onedrive.go:528-545 | a session over no bytes sends no chunk and succeeds whenever it opens |
| OneDriveUpload.Writer.CleanupTemp | onedrive/onedrive.go:479-486 | the writer's file and no other is gone |
| MockUpload.AppendExact | test/mockapi/main.go:258-292 | the appending server ends with the body if and only if every chunk arrived once or there was only one chunk |
| MockUpload.EarlyChunk | test/mockapi/main.go:266-283 | a chunk that does not end the file is appended each time it comes |
| MockUpload.LastChunk | test/mockapi/main.go:285-290 | the last chunk coming again becomes a file of its own |
| Multipart.RoundTrip | gdrive/gdrive.go:808-816 | the parser recovers metadata and data if and only if neither holds a blank line or ends in a line break |
| Multipart.BodyAsSent | gdrive/gdrive.go:810-816 | the body is the two parts, each behind a dash line with the boundary, a header and a blank line, and a closing dash line |
| Multipart.PlainMeta | test/mockapi/drive.go:185-201 | with plain metadata the parser finds it and a prefix of the data, all of it if and only if the data is plain |
| Multipart.OtherMeta | test/mockapi/drive.go:191-195 | metadata that is not plain is never recovered |
| Multipart.OneLineIsPlain | gdrive/gdrive.go:806-810 | metadata without a carriage return, as JSON encoding leaves it, is plain |
| Multipart.DashLineIsCut | test/mockapi/drive.go:192-199 | the cut falls at the boundary line, whatever dashes the part itself holds |
| Base64.RoundTrip | cmd/tui/preview.go:353-353 | a strict decoder of section 4 of RFC 4648 recovers all data |
| Base64.Alphabet | cmd/tui/preview.go:353-353 | the digits are those of section 4 of RFC 4648 |
| Base64.GroupNumber | cmd/tui/preview.go:353-353 | three bytes and their four digits are one number of 24 bits, most significant first; what is missing counts as zero and is padding |
| Base64.DecodeOnlyEncodings | cmd/tui/preview.go:353-353 | that decoder accepts nothing but encodings |
| Base64.EncodedText | cmd/tui/preview.go:353-353 | encoded text has only digits and padding, four characters for three bytes |
| Kitty.KittyChunks | cmd/tui/preview.go:352-385 | the loop prints the specified chunks of the encoding, in both the single and the chunked form |
| Kitty.ChunkFacts | cmd/tui/preview.go:359-383 | payloads put together are the encoding; each non-final one has 4096 characters and m=1; the final one alone has m=0; a single chunk has no m; only the first opens a transmission |
| Kitty.EncodeKitty | cmd/tui/preview.go:389-391 | prints the plain stream that the readers below are proved on |
| Kitty.EncodeKittyTmux | cmd/tui/preview.go:397-403 | overwriting the slice in place gives the wrapped stream, each chunk wrapped once |
| Kitty.EscapeBytes | cmd/tui/preview.go:150-152 | a graphics escape and a passthrough block, byte by byte |
| Kitty.DoubledAt | cmd/tui/preview.go:150-152 | inside a block each ESC is doubled and nothing else changes |
| Kitty.StripDoubled | cmd/tui/preview.go:150-152 | whatever a block holds, escapes included, tmux passes it on as it was and ends the block where it ends |
| Kitty.TmuxIsTransparent | cmd/tui/preview.go:397-403 | stripping the passthrough from the tmux form gives exactly the plain form |
| Kitty.NextOfPrinted | cmd/tui/preview.go:376-381 | a printed escape is read back as its keys and payload |
| Kitty.TerminalSeesImage | cmd/tui/preview.go:389-391 | a terminal that reads the plain form recovers the image's bytes, however many chunks they took |
| Kitty.BothFormsShowTheImage | cmd/tui/preview.go:389-403 | the same through tmux |
| TextPreview.TrimToValid | cmd/tui/preview.go:225-227 | the loop leaves the longest valid prefix |
| TextPreview.LoadText | cmd/tui/preview.go:214-234 | the text is valid, and is the longest valid prefix within the first 4096 bytes, less a byte order mark; of a valid file at most three of those bytes are dropped, none if it is no longer than that |
| TextPreview.CutLosesLittle | cmd/tui/preview.go:225-227 | wherever valid text is cut, leaving out at most three bytes more makes it valid again |
| TextPreview.ValidAfterBom | cmd/tui/preview.go:230-230 | stripping the mark keeps the text valid |
| TextPreview.ValidExactly | cmd/tui/preview.go:225-225 | the validity test accepts exactly the encodings of sequences of scalar values, sections 3 and 4 of RFC 3629 |
| FtpDownload.OpenFile | ftp/ftp.go:376-411 | opening fails if and only if the transfer failed before handing over anything; otherwise, empty files included, the reader still has every byte to deliver |
| FtpDownload.PrimedReader.Read | ftp/ftp.go:420-427 | takes the next bytes off what is left: none lost, repeated or passed over; the end is reported only when nothing is left |
| FtpDownload.PrimedReader.Close | ftp/ftp.go:431-434 | the primed byte is dropped and the pipe closed |
| FtpDownload.TakesFromTheFront | ftp/ftp.go:420-427 | one read splits what is left into what it delivers and what is left then, and makes progress if there is room |
| FtpDownload.DeliversAPrefix | ftp/ftp.go:415-427 | for every sequence of read sizes the bytes delivered are a prefix of the file, all of it once an end is reported, and the end reported is the transfer's |
| FtpDownload.ComesToTheEnd | ftp/ftp.go:415-427 | a caller that keeps asking for at least a byte gets the whole file and its end |
| FtpFeeder.StepRefines | ftp/ftp.go:394-397 | seen from the reader every step of the goroutine and of the pipe is the list-of-writes pipe's own Read, its closing, or nothing at all |
| FtpFeeder.ReaderGetsTheFile | ftp/ftp.go:394-427 | in every interleaving the reader has been given a prefix of the file, and all of it when it is told how the transfer ended |
| FtpFeeder.WholeDownload | ftp/ftp.go:394-427 | a reader that takes what each write offers gets the whole file and is then told its end |
| FtpFeeder.WaitsOnlyForReader | ftp/ftp.go:394-397 | the goroutine is stuck if and only if it is gone, or has bytes to hand over to a reader that is open; each step of its own brings it nearer its end |
| FtpFeeder.ComesToRest | ftp/ftp.go:429-434 | left to itself it comes to rest within a bound, and is at rest if and only if it is gone, or has something for a reader that is open |
| FtpFeeder.CloseFreesTheFeeder | ftp/ftp.go:429-434 | once the reader has closed, and with a transfer that stops at its first failed write, at most five more steps are left to the goroutine, however much of the file was not read |
| FtpFeeder.EndsAfterClose | ftp/ftp.go:429-434 | whatever the goroutine was at when the reader closed, there is a way to its end |
| FtpUpload.StepInv | ftp/ftp.go:442-487 | every step of either goroutine keeps the protocol's invariant |
| FtpUpload.UploadIsFaithful | ftp/ftp.go:449-484 | in every interleaving, at every point: the transfer has read exactly what writes reported plus what the pending one has handed over; every Close returned the transfer's own result; a transfer that saw the end read everything |
| FtpUpload.CallsComeBack | ftp/ftp.go:449-484 | in every interleaving: a Write succeeds only with all of its bytes taken, and falls short only with some left and after Close began or the transfer returned; the transfer reads the end only after Close began; a later Close is told what the first one was |
| FtpUpload.EndIsFinal | ftp/ftp.go:459-465 | after the first Close began nothing more is reported or read |
| FtpUpload.NothingStaysBlocked | ftp/ftp.go:479-484 | once the transfer has returned, something pending always has a step open to it, each such step brings it nearer the end, and no other step is possible but a new call |
| FtpUpload.Settles | ftp/ftp.go:459-484 | within three steps no Write, Close or send is pending, and a pending Close has returned the transfer's result |
| FtpUpload.WholeUpload | ftp/ftp.go:449-487 | for any data and any outcome there is an upload from start to end: the transfer takes the data and reads its end, and Close returns the outcome |
| Transport.StepInv | pkg/api/transport.go:54-127 | every atomic step of any number of requests, connection calls and snapshots keeps the invariant |
| Transport.StepCounts | pkg/api/transport.go:96-127 | after each step the counters are the sum of what the jobs have added, and none has gone back |
| Transport.CountersAreExact | pkg/api/transport.go:96-212 | after every run each byte moved is counted once, except those of reads and writes that have still to add theirs; OpsWritten and the connection Reads counted together are OpsRead, the requests in flight, those failed and the connection Writes counted; so over HTTP alone OpsWritten less OpsRead is the requests in flight plus those failed |
| Transport.SuccessiveSnapshotsGrow | pkg/api/transport.go:54-59 | a snapshot begun after another was finished has no smaller component |
| Snapshots.QuietSnapshotIsExact | pkg/api/transport.go:54-59 | a snapshot during which no counter moved is not torn, and is the counters |
| Snapshots.SnapshotIsAMoment | pkg/api/transport.go:53-59 | for every load order and run, a finished snapshot shows the counters as they stood at some moment if and only if no counter it had still to load was raised after one it had loaded |
| Transport.KindsDecide | pkg/api/transport.go:54-212 | for every load order and every set of kinds of job: snapshots never show more reads than writes, in any run of such jobs, if and only if connection Reads are not among them and, round trips being among them, OpsRead is loaded before OpsWritten |
| Transport.LoadOrderDecides | pkg/api/transport.go:54-59 | over HTTP alone it is the order of those two loads that decides |
| Transport.SnapshotsAreBalanced | pkg/api/transport.go:54-59 | the order in the code is a good one: OpsRead is at most OpsWritten in every snapshot of every run without connection Reads |
| Snapshots.SnapshotIsNoMoment | pkg/api/transport.go:53-59 | a run whose snapshot is torn and shows the counters of no moment in it |
| Snapshots.MomentBetween | pkg/api/transport.go:54-59 | counters that stood at some moment of a run lie between those at its start and its end |
| Transport.CallsDoNotPairUp | pkg/api/transport.go:193-200 | for every load order, a run of one connection Read after which a snapshot shows one read and no write |

## Left out

- The drivers `dropbox`, `sftp`, `smb` and `webdav`, the cgo exports, the registry and mount manager, thumbnails, error classifiers, and the terminal interface: little of their own logic beyond calls into libraries.
- `withReconnect` in the FTP driver: one retry of a repeatable call, read off its body.
- JSON, HTTP, OAuth and query-string encodings: messages are values with a status, fields and failure. `path.Match` is any function that answers yes, no or malformed.
- Sleeping and time: waits are added to a clock number.
- Modification times and content types of entries, and the file or folder kind of Drive entries.
- S3: opening and creating files; renames of a path onto itself or between overlapping prefixes; listings are of the bucket as it stood when they began, in any order that puts an object ahead of the common prefix of its name.
- S3.Driver.Rename: the claims about a directory rename ask that neither prefix extends the other.
- Drive: opening files, re-authorisation, and changes made by others. Two entries of one name arise only through the driver; lookups are taken to go on finding the one that had the name first, and the other never takes it over, even once that one is gone. The remote refuses an empty name and the deletion of the root. Entries below a deleted folder lose their path rather than their id.
- Drive listings: a page that is empty and yet announces another one.
- OneDrive: the calls to `refresh` are one after another; its unlocked read of the refresh token is not modelled. Removing a temporary file is taken to succeed, and the refresh reply's own body is not counted.
- FtpFeeder: what the FTP library does between writes; that it stops at its first failed write is assumed where said.
- FtpUpload: one caller at a time writes and closes, as the writer's interface asks.
- The counters are unbounded numbers, so wrap-around at 64 bits is not modelled; a request body that a transport rewinds through `GetBody` is not.
- Bytes are characters in `Multipart` and in the escape streams of `Kitty`.

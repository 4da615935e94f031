# A verified model of the NoteSwing collaborative editor's document core

NoteSwing is a Java client/server editor in which several users edit one
document at a time: a text in which every embedded image occupies a single
placeholder character (U+FFFC), plus the image records themselves. This
project models the parts of it that hold and change that state, and proves
what each operation does to it.

- **The server's document state machine** (`Documents`). It models
  `server/document/DocumentManager`: the text as `seq<char>` and the image
  blocks as `map<int, ImageBlock>`. INSERT, DELETE, FULL_SYNC, IMAGE_INSERT,
  IMAGE_RESIZE and IMAGE_MOVE are first given as functions on a `Doc` value,
  with one lemma per operation stating its effect. A `DocumentManager` class
  then changes the buffer and the map in place, with loops over the image
  map, and every method is proved to follow those functions. Snapshots
  (`createState`/`loadState`) round-trip. Every offset is clamped into the
  text, so no message can make an operation fail.
- **DELETE's 32-bit sum.** The end of the range is computed as
  `offset + length` in Java `int`, so it is modelled with explicit 32-bit
  wrap-around (`Wrap32`). A sum that overflows upward wraps negative, and
  the DELETE then deletes nothing (`DeleteOverflowIsNoOp`). A sum that
  overflows downward wraps to a non-negative end, and the DELETE then removes
  the text from 0 up to that end (`DeleteUnderflowWrapsForward`). Offset
  `Integer.MIN_VALUE` with length -1 erases everything
  (`DeleteUnderflowErasesAll`).
- **The legacy single-document state machine** (`LegacyDocuments`). It
  models `server/core/DocumentManager`, which keeps its images in a list and
  clamps nothing. An offset outside the text makes Java's `StringBuilder`
  throw, so the model states exactly when `apply` returns normally
  (`Applicable`) and requires that.
- **The client's image table** (`ClientImages`). It has the same
  offset-shifting rules (shared in `Offsets`), an id counter and a
  nearest-offset hit test.
- **Rooms, registry and routing** (`Rooms`, `Registry`, `Service`):
  - a room's membership, its load-once flag, the snapshot sent to a joining
    session, the broadcast of each edit to every member but its sender, and
    the coalescing autosave (15 edits or 1200 ms);
  - the registry of rooms;
  - the service that moves sessions between rooms and drops edits for a
    document the sender does not have open.

  Storage is an in-memory pair of maps (`Storage`), each session's sent
  messages are an `outbox` sequence (`Sessions`), and the clock is a `now`
  parameter.
- **The three line-lock tables** (`ClientLocks`, `ServerLocks`,
  `LegacyLocks`, with the shared release-all rule in `LockMaps`) and the
  client's lock controller (`LockControl`).
- **Two small pure pieces:** the `ImageBlock`/`ImageState` conversion
  (`ImageBlocks`) and the image file-name test (`ImageFiles`).

Java `null` is `Option` for values and a nullable class type (`Session?`,
`DocumentRoom?`) for objects. Java `int` is an unbounded `int` except where
noted. Where a Java loop walks a `HashMap` or `HashSet`, the model takes the
entries in an unspecified order (`Common.Pick`). Each such operation is
proved against a specification that holds for every order. The one exception
is `FindByOffsetNear`'s choice between two equally close images.

## Model

| member | source | states |
|---|---|---|
| Common.Wrap32 | src/server/document/DocumentManager.java:39 | Java `int` addition: the result lies in the 32-bit range, differs from the exact sum by a multiple of 2^32, and equals the sum when the sum fits |
| ImageBlocks.ToState | src/server/document/ImageBlock.java:21-29 | the state carries the block's id, offset, width, height and data unchanged |
| ImageBlocks.FromState | src/server/document/ImageBlock.java:31-33 | the block carries the state's five fields unchanged |
| ImageBlocks.BlockRoundTrip | src/server/document/ImageBlock.java:21-33 | `fromState(toState(b))` is `b` |
| ImageBlocks.StateRoundTrip | src/server/document/ImageBlock.java:21-33 | `toState(fromState(s))` is `s` |
| Offsets.ClampOffset | src/server/document/DocumentManager.java:115-119 | the result lies in `[0, len]`; a negative offset gives 0, one past the end gives `len`, one inside is kept |
| Offsets.InsertAtFacts | src/server/document/DocumentManager.java:33 | inserting `t` at `c` grows the text by `\|t\|`, keeps the prefix before `c`, puts `t` at `c` and the old suffix after it |
| Offsets.ShiftFromZero | src/server/document/DocumentManager.java:109 | a shift by zero changes no block, so the early return changes nothing |
| Offsets.ShiftFromFacts | src/server/document/DocumentManager.java:108-113 | the shift keeps every id; blocks at or after `from` move by `delta`, the others are untouched |
| Offsets.ShiftExceptFacts | src/server/document/DocumentManager.java:92-104 | the shift skipping one block keeps every id, leaves the skipped block alone and moves every other block at or after `from` by `delta` |
| Offsets.ShiftExceptKeepsIds | src/server/document/DocumentManager.java:92-104 | the shift keeps each block stored under its own id |
| Offsets.CutRangeFacts | src/server/document/DocumentManager.java:45-53 | a block survives exactly when its offset lies outside `[start, end)`; survivors at or after `end` move back by `end - start`, the others are untouched |
| Offsets.ShiftOneMonotone | src/server/document/DocumentManager.java:101-104 | a forward shift keeps the order of two offsets |
| Offsets.ShiftAll | src/server/document/DocumentManager.java:108-113 | the loop over the map yields exactly the shifted map, whatever the iteration order |
| Offsets.ShiftAllExcept | src/server/document/DocumentManager.java:92-95 | the loop that skips the moved block yields exactly the shifted map, whatever the iteration order |
| Offsets.CutAll | src/server/document/DocumentManager.java:45-53 | the iterator loop that removes and shifts yields exactly the cut map, whatever the iteration order |
| Documents.ApplyIgnoresUnhandled | src/server/document/DocumentManager.java:16-28 | a null message, a null mode or a mode other than the six edits leaves text and images unchanged |
| Documents.InsertEffect | src/server/document/DocumentManager.java:30-35 | INSERT puts the text at the clamped offset `c`; images at or after `c` move by its length, the others are untouched; null or empty text is a no-op |
| Documents.DeleteEffect | src/server/document/DocumentManager.java:37-54 | with both ends clamped to `[s, e)`: nothing changes when `s >= e`; otherwise `[s, e)` leaves the text, images inside it are removed, images at or after `e` move back by `e - s`, and those before `s` stay |
| Documents.DeleteEndWithoutOverflow | src/server/document/DocumentManager.java:39 | when `offset + length` fits in an `int`, the range's end is that sum clamped |
| Documents.DeleteOverflowIsNoOp | src/server/document/DocumentManager.java:38-40 | for every `int` offset and length whose sum overflows upward, the end wraps negative and the DELETE deletes nothing |
| Documents.DeleteUnderflowWrapsForward | src/server/document/DocumentManager.java:38-40 | for every `int` offset and length whose sum overflows downward, the start clamps to 0, the end is the sum plus 2^32 clamped into the text, and the text from 0 to that end is removed |
| Documents.DeleteUnderflowErasesAll | src/server/document/DocumentManager.java:38-40 | DELETE at offset `Integer.MIN_VALUE` with length -1 erases the whole text |
| Documents.FullSyncEffect | src/server/document/DocumentManager.java:56-59 | FULL_SYNC sets the text (empty for null) and keeps the image map |
| Documents.ImageInsertEffect | src/server/document/DocumentManager.java:61-73 | IMAGE_INSERT grows the text by one placeholder at the clamped offset, moves the other images at or after it by one, and stores the block there with non-positive sizes as -1; a null payload is a no-op |
| Documents.ImageResizeEffect | src/server/document/DocumentManager.java:75-80 | an unknown block is a no-op; otherwise only the positive dimensions are written, and the text and every other block stay |
| Documents.ImageMoveEffect | src/server/document/DocumentManager.java:82-106 | an unknown block or an unchanged clamped offset is a no-op; otherwise no image is added or removed, the length is kept when a placeholder stood at the old position (one longer otherwise), and the block lands on a placeholder at the decremented, re-clamped target |
| Documents.ImageMoveKeepsOthers | src/server/document/DocumentManager.java:92-104 | IMAGE_MOVE keeps the order of any two other images and changes only their offsets |
| Documents.StepKeepsWellKeyed | src/server/document/DocumentManager.java:16-28 | every operation keeps each image stored under its own id |
| Documents.StepKeepsIdentity | src/server/document/DocumentManager.java:16-106 | no operation changes the id or the data of an image it keeps (IMAGE_INSERT may replace the block stored under its own id) |
| Documents.BlocksOfLookup | src/server/document/DocumentManager.java:157-161 | with distinct ids, the loaded map holds exactly the listed ids, each block built from its state |
| Documents.LoadedIsWellKeyed | src/server/document/DocumentManager.java:157-161 | after loading, every image is stored under its own id |
| Documents.LoadCreateRoundTrip | src/server/document/DocumentManager.java:141-162 | loading a snapshot of a document gives back the same text and image map |
| Documents.LoadNullIsEmpty | src/server/document/DocumentManager.java:151-154 | loading null leaves an empty text and no images |
| Documents.TextLengthAccounting | src/server/document/DocumentManager.java:30-54 | after any run of INSERTs and DELETEs, the text length is the initial one plus the inserted lengths minus the clamped deleted lengths |
| Documents.DocumentManager.constructor | src/server/document/DocumentManager.java:13-14 | a new manager holds an empty text and no images |
| Documents.DocumentManager.Apply | src/server/document/DocumentManager.java:16-28 | the new state is the state machine's step on the old state, and the id-keying invariant is kept |
| Documents.DocumentManager.ApplyInsert | src/server/document/DocumentManager.java:30-35 | the in-place insert and shift yield the INSERT step |
| Documents.DocumentManager.ApplyDelete | src/server/document/DocumentManager.java:37-54 | the in-place delete and iterator loop yield the DELETE step |
| Documents.DocumentManager.ApplyFullSync | src/server/document/DocumentManager.java:56-59 | the in-place replacement yields the FULL_SYNC step |
| Documents.DocumentManager.ApplyImageInsert | src/server/document/DocumentManager.java:61-73 | the in-place insert yields the IMAGE_INSERT step |
| Documents.DocumentManager.ApplyImageResize | src/server/document/DocumentManager.java:75-80 | the in-place update yields the IMAGE_RESIZE step |
| Documents.DocumentManager.ApplyImageMove | src/server/document/DocumentManager.java:82-106 | the delete, two shift loops and insert yield the IMAGE_MOVE step |
| Documents.DocumentManager.ShiftImages | src/server/document/DocumentManager.java:108-113 | the text stays and the map becomes the shifted map |
| Documents.DocumentManager.GetDocument | src/server/document/DocumentManager.java:121-123 | returns the whole text |
| Documents.DocumentManager.BuildFullImageSyncMessages | src/server/document/DocumentManager.java:125-139 | one IMAGE_INSERT per image, each image exactly once, with length 1 and the block's id, offset, sizes and data |
| Documents.DocumentManager.CreateState | src/server/document/DocumentManager.java:141-149 | the snapshot holds the text and lists every block exactly once as its state |
| Documents.DocumentManager.LoadState | src/server/document/DocumentManager.java:151-162 | the new state is the one loaded from the snapshot (empty for null, null fields as empty), and the invariant holds |
| LegacyDocuments.OtherModesIgnored | src/server/core/DocumentManager.java:91-93 | a mode other than the five handled changes nothing |
| LegacyDocuments.InsertEffect | src/server/core/DocumentManager.java:41-46 | INSERT puts the text at exactly `offset`; each list entry at or after it moves by the text's length, the rest stay; null text is a no-op |
| LegacyDocuments.ShiftedOnDeleteMembers | src/server/core/DocumentManager.java:116-129 | an entry is in the result exactly when it comes from an entry outside `[offset, offset + length)`, moved back by `length` when it lay at or after the end |
| LegacyDocuments.ShiftedOnDeleteShrinks | src/server/core/DocumentManager.java:116-129 | DELETE never adds entries |
| LegacyDocuments.ShiftedOnDeleteOrigins | src/server/core/DocumentManager.java:116-129 | every survivor comes from an entry outside the range, moved back by `length` when it lay at or after the end and unmoved otherwise |
| LegacyDocuments.DeleteText | src/server/core/DocumentManager.java:48-52 | DELETE removes `[offset, min(offset + length, \|text\|))` from the text |
| LegacyDocuments.FullSyncEffect | src/server/core/DocumentManager.java:54-61 | FULL_SYNC replaces the text (empty for null) and empties the image list |
| LegacyDocuments.ImageInsertEffect | src/server/core/DocumentManager.java:63-78 | IMAGE_INSERT puts one placeholder at `offset`, moves the earlier entries at or after it by one, and appends the message's entry unfiltered |
| LegacyDocuments.ResizedFirstEffect | src/server/core/DocumentManager.java:80-89 | only the first entry with the block id takes the new size, unconditionally; with no match the list is unchanged |
| LegacyDocuments.DocumentManager.constructor | src/server/core/DocumentManager.java:14-33 | a new manager holds an empty text and no images |
| LegacyDocuments.DocumentManager.Apply | src/server/core/DocumentManager.java:38-95 | for a message on which Java does not throw, the new state is the legacy step on the old one |
| LegacyDocuments.DocumentManager.GetDocument | src/server/core/DocumentManager.java:97-99 | returns the whole text |
| LegacyDocuments.DocumentManager.GetImages | src/server/core/DocumentManager.java:101-104 | a copy with the same entries in the same order |
| LegacyDocuments.DocumentManager.ShiftImagesOnInsert | src/server/core/DocumentManager.java:108-114 | the loop yields the inserted-shift of the list, the text unchanged |
| LegacyDocuments.DocumentManager.ShiftImagesOnDelete | src/server/core/DocumentManager.java:116-129 | the iterator loop yields the delete-shift of the list, the text unchanged |
| LegacyDocuments.DocumentManager.ResizeFirstMatch | src/server/core/DocumentManager.java:80-89 | the loop with its early exit yields the resize of the first match |
| ClientImages.ImageStore.constructor | src/client/ui/image/ImageStore.java:9-10 | an empty table whose counter starts at 1 |
| ClientImages.ImageStore.CreateLocalImage | src/client/ui/image/ImageStore.java:12-21 | the new record takes the counter's old value as its id (not yet used), the counter grows by one, and the record is stored with the given fields |
| ClientImages.ImageStore.RegisterRemoteImage | src/client/ui/image/ImageStore.java:23-33 | stores or overwrites record `id`; the counter rises to at least `id + 1` and never falls; every stored id stays below it |
| ClientImages.ImageStore.Get | src/client/ui/image/ImageStore.java:35-37 | null exactly for an unknown id, otherwise the stored record, which carries that id |
| ClientImages.ImageStore.Resize | src/client/ui/image/ImageStore.java:39-44 | an unknown id is a no-op; otherwise only the positive dimensions are written |
| ClientImages.ImageStore.Move | src/client/ui/image/ImageStore.java:46-50 | sets the offset of a known record; an unknown id is a no-op |
| ClientImages.ImageStore.ShiftOnInsert | src/client/ui/image/ImageStore.java:53-60 | the table becomes the shifted table (delta 0 changes nothing); no record is added or removed |
| ClientImages.ImageStore.ShiftOnDelete | src/client/ui/image/ImageStore.java:62-75 | a non-positive length is a no-op; otherwise the records in the range are removed and the later ones move back |
| ClientImages.ImageStore.FindByOffsetNear | src/client/ui/image/ImageStore.java:78-90 | null exactly when no record lies within distance 1; otherwise a stored record within distance 1 than which no record is closer |
| Storage.DocumentStorage.StoredAfterEnsure | src/server/storage/DocumentStorage.java:38-65 | what loading finds: the stored snapshot, an empty one for a new non-blank id, nothing for a blank id never stored |
| Storage.DocumentStorage.TitleFor | src/server/storage/DocumentStorage.java:85-89 | the stored non-blank title, otherwise "Untitled"; never blank |
| Storage.EnsuredFacts | src/server/storage/DocumentStorage.java:38-60 | ensuring a document exists touches no other id, keeps every stored snapshot and title, gives a non-blank id both, is idempotent, and makes no difference to a following save's title |
| Storage.DocumentStorage.EnsureExists | src/server/storage/DocumentStorage.java:38-60 | a non-blank id gets an empty snapshot and the title "Untitled" where it had none; every other entry is unchanged; a blank id changes nothing |
| Storage.DocumentStorage.Load | src/server/storage/DocumentStorage.java:62-65 | ensures the document exists (same new maps as EnsureExists), returns what loading then finds, and counts one load |
| Storage.DocumentStorage.Save | src/server/storage/DocumentStorage.java:67-77 | stores the snapshot under the id (blank or not), keeps a non-blank id's non-blank title and writes "Untitled" otherwise, leaves every other id alone, and counts one save |
| Storage.DocumentStorage.GetTitle | src/server/storage/DocumentStorage.java:79-89 | returns the stored non-blank title or "Untitled", after ensuring the document exists (same new maps as EnsureExists) |
| Storage.DocumentStorage.Delete | src/server/storage/DocumentStorage.java:131-136 | true exactly for a non-blank stored id, which is then removed; otherwise nothing changes |
| Sessions.Session.Send | src/server/core/ClientHandler.java:48-56 | the message is appended to the session's outbox |
| Rooms.SnapshotIsTagged | src/server/document/DocumentRoom.java:50-67 | every snapshot message carries the room's document id and the server's user id, and the FULL_SYNC covers the whole text from offset 0 |
| Rooms.AutosaveStep | src/server/document/DocumentRoom.java:81-90 | an edit saves exactly when it brings the count to 15 or 1200 ms have passed; a save resets the count and the time, otherwise the count grows by one; the count stays in `[0, 15)` |
| Rooms.AutosaveWithinFifteen | src/server/document/DocumentRoom.java:81-90 | whatever the clock does, every run of `15 - dirtyEdits` edits includes a save |
| Rooms.DocumentRoom.constructor | src/server/document/DocumentRoom.java:24-27 | a new room has no members, is not loaded, has zero counters and an empty document |
| Rooms.DocumentRoom.LoadIfNeeded | src/server/document/DocumentRoom.java:31-39 | the first call ensures the document exists in storage (no other id touched), loads the stored snapshot once and counts one load; later calls change nothing |
| Rooms.DocumentRoom.Join | src/server/document/DocumentRoom.java:41-44 | the session joins the members and its current document becomes the room's |
| Rooms.DocumentRoom.Leave | src/server/document/DocumentRoom.java:46-48 | the session leaves the members; nothing else changes |
| Rooms.DocumentRoom.SendSnapshotTo | src/server/document/DocumentRoom.java:50-67 | after loading if need be, appends exactly FULL_SYNC, one IMAGE_INSERT per image and SYNC_END to the session's outbox; storage changes only by ensuring this document exists |
| Rooms.DocumentRoom.ApplyAndBroadcast | src/server/document/DocumentRoom.java:69-79 | applies the edit once to the loaded document, appends it to every member's outbox except the sender's, then counts it towards autosave; storage changes only in this document's entries, by the first load and by a save |
| Rooms.DocumentRoom.AutosaveMaybe | src/server/document/DocumentRoom.java:81-90 | the counters follow the autosave step; a save stores a snapshot of the current document and changes no other id; otherwise storage is untouched |
| Rooms.DocumentRoom.SaveNow | src/server/document/DocumentRoom.java:92-97 | loads the document if need be (the document is then what loading brings in), stores a snapshot of it without touching other ids, and resets the counters |
| Registry.DocumentRegistry.constructor | src/server/document/DocumentRegistry.java:9 | no rooms |
| Registry.DocumentRegistry.GetIfPresent | src/server/document/DocumentRegistry.java:11-14 | null for a null id, otherwise the open room if any; never creates one |
| Registry.DocumentRegistry.GetOrCreate | src/server/document/DocumentRegistry.java:16-19 | null for a null id; the open room if there is one; otherwise a fresh empty room for that id, now filed under it |
| Registry.DocumentRegistry.Remove | src/server/document/DocumentRegistry.java:21-24 | the id's room is forgotten, so a later lookup finds nothing; a null id is a no-op |
| Registry.GetOrCreateIsStable | src/server/document/DocumentRegistry.java:16-19 | asking twice for the same id gives the same room, and it is then present |
| Service.DocumentService.constructor | src/server/document/DocumentService.java:15-17 | a service with an empty registry over the given storage |
| Service.DocumentService.Leave | src/server/document/DocumentService.java:42-52 | a null session or one with no document is a no-op; otherwise the session leaves that room (if open) and its current document becomes null; every other room is unchanged and no room's load flag or autosave counters change |
| Service.DocumentService.Open | src/server/document/DocumentService.java:32-40 | a null id or session is a no-op; otherwise the session leaves its old room, joins the room of `docId` (made if absent, loaded if need be) and receives one snapshot of it; other rooms keep their state machines, flags and counters and lose only this session; storage changes only by ensuring `docId` exists |
| Service.DocumentService.Enter | src/server/document/DocumentService.java:37-39 | the room of `d` is found or made, gains the session, ends up loaded with the state loading brings, and sends one snapshot; other rooms and their state machines are untouched |
| Service.DocumentService.ApplyEdit | src/server/document/DocumentService.java:54-62 | an edit without message, document id or sender, or for a document the sender does not have open, changes nothing; otherwise the room of that document applies it, relays it to the other members and counts it towards autosave, while other rooms, their state machines, sessions outside the room and other storage entries are untouched |
| Service.DocumentService.Edit | src/server/document/DocumentService.java:60-61 | the accepted edit: as in ApplyEdit, for the room of the message's document |
| Service.DocumentService.Delete | src/server/document/DocumentService.java:27-30 | the room is dropped from the registry; the result is storage's deletion, which removes the snapshot and title on success and changes nothing otherwise |
| LockMaps.ReleaseAllFacts | src/client/ui/LineLockManager.java:36-40 | releasing keeps every document, leaves no line owned by the user, and keeps every line owned by someone else |
| LockMaps.ReleaseAllIdempotent | src/client/ui/LineLockManager.java:36-40 | releasing twice is releasing once |
| LockMaps.RemoveOwnedBy | src/client/ui/LineLockManager.java:38 | the loop removing one user's lines from a document yields exactly the lines not owned by that user |
| LockMaps.RemoveAllOwnedBy | src/client/ui/LineLockManager.java:36-40 | the loop over every document yields the release-all table |
| ClientLocks.LineLockManager.constructor | src/client/ui/LineLockManager.java:11 | no locks |
| ClientLocks.LineLockManager.TryLock | src/client/ui/LineLockManager.java:13-24 | a free line, or one already held by the caller, is taken and the caller is returned; a line held by another user returns that user and changes nothing; either way the answer is the line's owner afterwards and no other document changes |
| ClientLocks.LineLockManager.Unlock | src/client/ui/LineLockManager.java:26-34 | only the owner frees the line; an unknown document or a non-owner is a no-op |
| ClientLocks.LineLockManager.ReleaseAllByUser | src/client/ui/LineLockManager.java:36-40 | the table becomes the release-all table for the user |
| ClientLocks.LockIsExclusive | src/client/ui/LineLockManager.java:13-24 | of two users asking for a free line, both get the first user's name as its owner |
| ServerLocks.LineLockManager.constructor | src/server/core/manager/LineLockManager.java:9 | no locks |
| ServerLocks.LineLockManager.TryLock | src/server/core/manager/LineLockManager.java:12-18 | true exactly when the line was free, which records the caller; a locked line changes nothing, even for its owner |
| ServerLocks.LineLockManager.Unlock | src/server/core/manager/LineLockManager.java:21-26 | only the owner frees the line |
| ServerLocks.LineLockManager.GetOwner | src/server/core/manager/LineLockManager.java:28-30 | null exactly for a free line, otherwise its owner |
| ServerLocks.LockIsExclusive | src/server/core/manager/LineLockManager.java:12-26 | of two users asking for a free line only the first succeeds, and the second cannot unlock it |
| LegacyLocks.LineLockManager.constructor | src/server/core/LineLockManager.java:10 | no locks |
| LegacyLocks.LineLockManager.ReleaseAllLocksOfUser | src/server/core/LineLockManager.java:13-19 | a null user is a no-op; otherwise the table becomes the release-all table |
| LegacyLocks.ReleaseKeepsEmpty | src/server/core/LineLockManager.java:10-19 | releasing from the empty table leaves it empty, so the table never gains an entry |
| LockControl.LineLockController.constructor | src/client/controller/LineLockController.java:20-24 | no known owners, nothing sent |
| LockControl.LineLockController.RequestLock | src/client/controller/LineLockController.java:27-34 | a null document sends nothing; otherwise exactly one LOCK message with the document, `blockId` = line and the own user id |
| LockControl.LineLockController.Unlock | src/client/controller/LineLockController.java:36-43 | a null document sends nothing; otherwise exactly one UNLOCK message with the document, `blockId` = line and the own user id |
| LockControl.LineLockController.OnRemoteLock | src/client/controller/LineLockController.java:57-66 | a null owner is ignored; otherwise the owner is recorded, and the line is then locked by me exactly when that owner is me, and by another otherwise |
| LockControl.LineLockController.OnRemoteUnlock | src/client/controller/LineLockController.java:68-73 | the line's entry is removed whoever is reported, so it is locked by no one |
| LockControl.LineLockController.ResetAllLocks | src/client/controller/LineLockController.java:75-78 | no line is locked by anyone |
| LockControl.LockedByMeOrOther | src/client/controller/LineLockController.java:46-54 | a line is never locked both by me and by another, and a line has an owner exactly when it is locked by one of them |
| ImageFiles.LowerChar | src/client/ui/image/ImageIOHelper.java:33 | an upper-case ASCII letter moves 32 code points up to its lower-case letter; every other character is kept |
| ImageFiles.ToLower | src/client/ui/image/ImageIOHelper.java:33 | lower-cases each character in place, keeping the length |
| ImageFiles.LowerOfUpper | src/client/ui/image/ImageIOHelper.java:33 | lower-casing an upper-cased name gives the lower-cased name |
| ImageFiles.IsImageFile | src/client/ui/image/ImageIOHelper.java:32-37 | true exactly when the lower-cased name ends in ".png", ".jpg", ".jpeg", ".gif" or ".bmp"; such a name has at least four characters |
| ImageFiles.IsImageFileIgnoresCase | src/client/ui/image/ImageIOHelper.java:32-37 | a name and its upper-case spelling are judged alike |
| ImageFiles.NoDotNoImage | src/client/ui/image/ImageIOHelper.java:34-36 | a name without a dot is never an image |
| ImageFiles.SuffixesAreImages | src/client/ui/image/ImageIOHelper.java:34-36 | each accepted extension on its own, in either case, is an image name |

## Left out

- The Swing client and its image UI: rendering, highlighting, dialogs,
  `ImageResizer`, `ImageMover` and the AWT helpers of `ImageIOHelper`. These
  are display code or floating-point scaling. The UI calls made by
  `LineLockController` (`lockLine`, `unlockLine`, `clearAllLineHighlights`)
  are dropped.
- Sockets and threads. A sent message is appended to an outbox; the client's
  `Client.send` becomes the controller's `sent` sequence. `synchronized`,
  `volatile` and the concurrent maps are modelled as sequential, atomic
  operations.
- The filesystem behind `DocumentStorage`. It is two maps plus ghost load and
  save counters. A failure of `deleteRecursively` is not modelled, `listMetas`
  and `create` are not modelled (UUIDs, the clock), and neither is
  `updatedAt`.
- The clock. `System.currentTimeMillis` is the `now` parameter.
- Session: it models the current-document id and the `send` of the server's
  client handler as the rooms use them. NoteSwing's `ClientHandler` has
  `send` but not the current-document accessors the rooms call.
- Messages: one datatype with the fields the room-based server uses.
  NoteSwing's legacy `EditMessage` lacks several of them.
- Java `int` overflow, apart from DELETE's `offset + length` on the
  room-based server. This covers the id counter, `Math.abs` in the hit test,
  offset shifts, and the legacy DELETE's sum, which is required not to
  overflow.
- Object identity of image records. `ImageBlock`, the client's `ImageInfo`
  and the legacy `ImageState` are values, so aliasing through references is
  not captured. `GetImages`' copy therefore equals the list, rather than
  being a new list sharing the same entry objects, and a caller's later
  change to a returned `ImageInfo` is not modelled.
- Lock tables and the controller take non-null user ids and, except where
  the source tests for null, non-null document ids.
- Text outside the Basic Multilingual Plane. A Java `String` is a sequence
  of UTF-16 code units; the model's `char` is one Unicode scalar value. For
  text made only of BMP characters the two agree. A character outside the
  BMP (an emoji, say) counts as two offsets in Java and one in the model,
  and Java can split it between its surrogates; neither is modelled.
- ImageFiles.ToLower: lower-cases ASCII letters only, as Java does in a
  non-Turkish default locale. In a Turkish locale Java turns `I` into a
  dotless `ı`, so "PHOTO.GIF" would not count as an image; that locale is
  not modelled. Java also lower-cases non-ASCII letters. Only two of them
  yield an ASCII letter: the Kelvin sign gives `k`, which no extension
  contains, and `İ` gives `i` plus a combining dot, which cannot be followed
  by the `f` of ".gif". So the image-file test is unaffected.
- `isBlank` follows Java's `Character.isWhitespace` in full
  (`Storage.Whitespace`).
- `DocumentRoom.applyAndBroadcast` takes a non-null message, as its only
  caller guarantees.
- ClientImages.ImageStore.FindByOffsetNear: between two equally close
  records, which one is returned depends on hash-map order. The model leaves
  that choice open and does not fix Java's order.

# VayuMail Mobile: models and proofs

Dafny models of the parts of VayuMail Mobile in which state has to survive failures and interleavings, with proofs of
what each part promises. Verify everything with `dafny verify dfyconfig.toml`.

| file | what it models |
|---|---|
| `Mirror.dfy` | the message table as a mirror of a server mailbox, with any number of sync passes interleaved row by row |
| `FolderCache.dfy`, `SoloPass.dfy`, `SoloRefresh.dfy` | the sync and refresh code of one folder, call by call, and its reading as runs of `Mirror` and `FlagSync` |
| `FlagSync.dfy` | the CONDSTORE anchor under interleaved syncs and refreshes, with the server changing between any two calls |
| `MasterKey.dfy`, `KeyCalls.dfy` | creation and publication of the master key file by racing callers in several processes, and what each call comes to |
| `SealedStore.dfy` | the sealed credential store over an atomically replaced file, and several writers of that file |
| `FtsIndex.dfy`, `Search.dfy`, `SearchMeaning.dfy` | the full-text index kept by triggers, the schema migrations, search through the index, and what the query language means |
| `AppLock.dfy`, `Gate.dfy`, `Settings.dfy`, `Opening.dfy` | the lockout ladder that PIN and TOTP share, the lock screen with its asynchronous outcomes, the settings' use of it, and the ways in |
| `Move.dfy`, `ConnPool.dfy` | moving a message under failures with one rerun, and ownership of the pooled connections |
| `RichSpans.dfy`, `RichMeaning.dfy` | folding sanitized markup into styled paragraphs, and what they show |
| `Loader.dfy` | the coalescing snapshot loader |
| `Hosts.dfy`, `SetupCode.dfy`, `Provision.dfy` | setup codes: host rules, verification by the client, one-time tokens of the service |
| `Sse.dfy`, `ChatReplay.dfy` | the chat event stream, and conversations under repeated delivery |
| `ThreadKey.dfy` | conversation keys from subjects |
| `Strings.dfy`, `Numbers.dfy` | string and number helpers |

Code that changes an object step by step is a class whose methods are proved against functions on values. Code whose
point is what happens between goroutines, processes or machines is a state machine with one action per store call,
server answer or file operation, and the theorems quantify over all its runs. A server is a ghost: UIDs ascend and are
never reused within a UIDVALIDITY, a MODSEQ grows with every change (sections 2.3.1.1 and 6.4.8 of RFC 3501, section
3.1.4.1 of RFC 7162), answers come in ascending UID order, and UIDVALIDITY changes only between sessions; a pass may go
on storing after its session is lost.

Twelve promises are false of the code as first stated. For each there is a concrete run, and lemmas giving, in both
directions, the condition under which the code does keep it:

- Two sync passes that both saw an old UIDVALIDITY can lose mail, because the second one clears the rows the first
  one's window rests on (`Mirror.TwoPassesAfterResetLoseMail`). The guarantee survives a clear exactly when it is
  quiet (`Mirror.ClearIsHarmlessIffQuiet`), and over whole runs when all are (`Mirror.QuietRunsLeaveNoGap`).
- A command that read the row of a folder never synced, and is run a second time with it after a failure and a
  UIDVALIDITY reset, labels old rows with the new UIDVALIDITY and skips mail (`Mirror.RerunAfterResetMislabels`). An
  anchor is right exactly when the rows go by its UIDVALIDITY already or there are none
  (`Mirror.AnchorKeepsValidityIff`).
- A pass that has lost its connection with an answer in hand goes on storing; after a reset that another pass has
  anchored, its rows are labelled wrongly too (`Mirror.LostPassStoresStaleRow`). A stored row is right exactly when the
  session that fetched it is the one anchored (`Mirror.StoreKeepsValidityIff`), and a window such a pass reads is
  harmless exactly when it hides no message (`Mirror.WindowIsHarmlessIffQuiet`). Runs whose anchors and rows are right
  are called honest; that holds by itself where no pass outlives its session over a reset
  (`Mirror.SettledResetsAreHonest`).
- The CONDSTORE anchor can come to vouch for stale flags: a full sync of a cached folder moves it without reading the
  old rows (`FlagSync.ResyncGoesStale`), and a refresh moves it past a message that another pass holds
  (`FlagSync.LateStoreGoesStale`). Each move is harmless exactly under a condition on the cache and the other passes
  (`FlagSync.AnchorIsHarmlessIff`, `FlagSync.AdvanceIsHarmlessIff`), which holds by itself with one session at a time
  (`FlagSync.SoloRunsAreCareful`).
- A failed sync after an exclusive create removes a file that others may have adopted
  (`MasterKey.FailedSyncDisagrees`, `MasterKey.FailedSyncHarmlessIff`).
- The comments at `internal/crypto/sealed.go:140-146` and `internal/crypto/masterkey_publish.go:11-23` say the mutex
  closes the window in which a reader meets the empty file. It covers the losers of the exclusive create, not another
  provider's first read (`MasterKey.FirstReadCanMeetEmptyFile`, `MasterKey.FirstReadFailsIff`); the model follows the
  code.
- A second factor that cannot be read counts as none (`internal/applock/totp.go:51-55`), so the app can open after one
  factor (`Gate.FingerprintAloneOpens`). It can exactly if a lookup failed (`Gate.StaysShutIff`,
  `Gate.OpensOtherwiseAfterFailedLookup`).
- Changing or removing the lock through the settings' screen does not always take every factor in one run: an outcome
  of an earlier run carries the screen past them (`Gate.StaleOutcomeAdvancesSettings`). Arming the screen is harmless
  exactly when nothing it still waits for can succeed (`Settings.BeginIsCleanIff`); that it is not busy is enough
  (`Settings.PatientBeginIsClean`).
- Guessing is throttled only as far as the settings table works (`AppLock.FullDiskCountsNothing`). A wrong answer
  escapes the ladder exactly when a settings call it needed failed (`AppLock.EscapesIff`), and for those that do not
  the bound holds (`AppLock.ThrottleBound`).
- The search operators are documented at `internal/store/search.go:18-26` to refine a match, but an expression with a
  scoped term beside any other is a syntax error of FTS5 (`Search.ScopedSearchFails`, `Search.AcceptedIff`).
- A fault on a pooled connection is to be made good by one rerun, and an error of the rerun to be real
  (`internal/syncmanager/connpool.go:37-45`). A move whose run fails after it dropped the local row is reported failed
  by its rerun, which misses the row; the rerun makes a fault good exactly if it falls before that
  (`Move.OneFaultMadeGoodIff`).
- A move without the MOVE extension into the message's own folder destroys it if it was already flagged
  (`Move.MoveOntoItselfLosesMail`, `Move.FallbackConservesIff`).

## Model

| member | source | states |
|---|---|---|
| `Mirror.BaseStep` | internal/mail/imapsync/fetch.go:26-88 | One store call, server answer, server change, lost connection, abort or reset, by any of the interleaved passes, those that outlive their connection over a reset included, keeps the bookkeeping, unless it labels rows of another UIDVALIDITY: rows of one UIDVALIDITY, anchors never ahead of the server, every answer inside what the server has issued |
| `Mirror.EveryRowBelongsToTheStoredValidity` | internal/mail/imapsync/fetch.go:26-39 | Over every honest run, racing clears and resets under passes that hold only a folder row or have lost their connection included, every cached row belongs to the UIDVALIDITY stored with the folder |
| `Mirror.AnchorKeepsValidityIff` | internal/mail/imapsync/fetch.go:28-36 | Storing the anchor keeps every row under its own UIDVALIDITY, then and over every honest run on, if and only if there are no rows or they go already by the UIDVALIDITY it stores |
| `Mirror.StoreKeepsValidityIff` | internal/mail/imapsync/fetch.go:63-80 | So does storing a row, if and only if it is one the window skips or the UIDVALIDITY of the session that fetched it is still the one anchored |
| `Mirror.RerunAfterResetMislabels` | internal/syncmanager/exec.go:321-340 | A concrete run without any clear: the first run of a command stores a row and fails, the server resets, the rerun with the old folder row labels the old row with the new UIDVALIDITY and leaves a live message uncached below it |
| `Mirror.LostPassStoresStaleRow` | internal/mail/imapsync/fetch.go:63-80 | A concrete run without a deleted row: a pass loses its connection with the answer in hand, the server resets, another pass anchors, the first stores a row of the old UIDVALIDITY under the new one above an uncached message |
| `Mirror.SettledResetsAreHonest` | internal/syncmanager/connpool.go:69-104 | A run is honest, and its windows are quiet, if no reset falls while a pass past its SELECT is still at work or a pass holds a folder row read before the first sync |
| `Mirror.NoGapStep` | internal/mail/imapsync/fetch.go:46-87 | Every single action keeps both completeness and what the rows still to be stored rest on, unless it labels foreign rows, clears the rows under another pass's window, or reads a window over rows of another UIDVALIDITY that hides a message |
| `Mirror.QuietRunsLeaveNoGap` | internal/mail/imapsync/fetch.go:26-88 | Main result: over every honest run of any number of passes, arrivals, expunges, lost connections, resets and aborts whose clears and windows are quiet, every live server UID at or below HighestUID is cached |
| `Mirror.SettledRunsLeaveNoGap` | internal/mail/imapsync/fetch.go:26-88 | The same with the premises on anchors, stored rows and windows replaced by one on resets |
| `Mirror.MildIsQuiet` | internal/store/folders.go:135-144 | Honest runs that delete no rows and read no window that hides a message satisfy the premise of the main result |
| `Mirror.ResumeSkipsNothing` | internal/mail/imapsync/fetch.go:46-60 | The answer to a resumed range fetch contains every live message the cache lacks |
| `Mirror.NoGapExactly` | internal/mail/imapsync/fetch.go:46-87 | The invariant is exact: it holds of a state if and only if no honest continuation without a further clear or a loud window ever loses a message |
| `Mirror.ClearIsHarmlessIffQuiet` | internal/mail/imapsync/fetch.go:26-32 | Deleting the rows of a stale UIDVALIDITY while other passes run is harmless if and only if none of them is about to store above a live message that only the deleted rows covered |
| `Mirror.WindowIsHarmlessIffQuiet` | internal/mail/imapsync/fetch.go:41-48 | Reading HighestUID while the cache goes by another UIDVALIDITY than the session is harmless if and only if it lies below every live message and below all to come |
| `Mirror.TwoPassesAfterResetLoseMail` | internal/mail/imapsync/fetch.go:26-88 | A concrete run of two passes after a reset that ends with server message 1 below HighestUID and not cached: the unconditional claim is false |
| `Mirror.RemovalIsHarmlessIff` | internal/mail/imapsync/idle.go:283-299 | Removing any set of rows, as an inventory made earlier would, keeps the guarantee if and only if no removed row is still live below a row that stays or below what a pass will store |
| `FolderCache.FetchAnswerIs` | internal/mail/imapsync/fetch.go:49-60 | The modelled answer to `n+1:*` satisfies sections 2.3.1.1 and 6.4.8 of RFC 3501: the range in ascending order, or the last message when the range is empty |
| `FolderCache.Folder.UpsertMessage` | internal/store/messages.go:109-151 | One row is inserted or its flags overwritten; every other row stays |
| `FolderCache.Folder.UpdateMessageFlags` | internal/store/messages_sync.go:61-69 | Exactly the row of that UID takes the flags; a missing row is not created |
| `FolderCache.Folder.SetFolderSyncState` | internal/store/folders.go:125-133 | Both anchors change and no row does |
| `FolderCache.Folder.ClearFolderMessages` | internal/store/folders.go:137-144 | All rows go and the anchors stay |
| `FolderCache.Folder.HighestUID` | internal/store/messages_sync.go:116-125 | The largest cached UID, 0 for none |
| `FolderCache.Folder.DeleteMessagesNotIn` | internal/store/messages_sync.go:74-112 | Exactly the rows outside the inventory are deleted |
| `FolderCache.Folder.SyncFolder` | internal/mail/imapsync/fetch.go:26-88 | Cut after any number of store calls, a pass leaves exactly the anchors, rows and reported new UIDs its window and the answered prefix determine, with the clear on a UIDVALIDITY change first |
| `FolderCache.Folder.DeltaSync` | internal/mail/imapsync/idle.go:190-204 | A delta pass stores and reports exactly the messages above the cache and moves no anchor |
| `FolderCache.Folder.RefreshFlags` | internal/mail/imapsync/idle.go:216-278 | Only rows whose flags differ are written and reported, all of them unless an update fails, and that is when the refresh fails; the anchor moves to the largest MODSEQ seen, with CONDSTORE and a positive anchor only |
| `FolderCache.Folder.ReconcileExpunged` | internal/mail/imapsync/idle.go:283-299 | Exactly the cached messages the server no longer has are removed |
| `FolderCache.RefreshMirrors` | internal/mail/imapsync/idle.go:216-278 | From a sound anchor either form of refresh gives every row the server still has the server's flags |
| `FolderCache.CondstoreRefinesFullScan` | internal/mail/imapsync/idle.go:216-278 | From a sound anchor CHANGEDSINCE and the full scan end with the same table, the same rows written and reported, a sound anchor and one not below the old |
| `FolderCache.SameDifferences` | internal/mail/imapsync/idle.go:244-262 | What the anchor skips differs nowhere, so both forms report the same messages in the same order |
| `FolderCache.MirroredIsSound` | internal/mail/imapsync/idle.go:264-277 | Once rows mirror the server, any anchor up to the server's highest MODSEQ is sound |
| `FolderCache.ResumeKeepsCovered` | internal/mail/imapsync/fetch.go:46-87 | A resumed pass cut at any call leaves every server message at or below the highest row cached |
| `FolderCache.CompleteResumeCoversMailbox` | internal/mail/imapsync/fetch.go:46-87 | A completed resumed pass holds every server message and invents none |
| `FolderCache.NothingNewNothingStored` | internal/mail/imapsync/fetch.go:67-76 | The last message answered to an empty range is neither stored nor reported |
| `FolderCache.Converge` | internal/mail/imapsync/fetch.go:26-88 | With the server quiet, one completed sync and one reconciliation make the cached UIDs the server's, and the sync completes exactly if all its calls do; the second time round no message row is written and nothing reported |
| `FolderCache.ResyncKeepsSoundnessIff` | internal/mail/imapsync/fetch.go:33-39 | Storing the SELECT's HIGHESTMODSEQ over a cache that was not cleared keeps a sound anchor sound if and only if a refresh just before would have found nothing to write |
| `SoloPass.SyncFolderIsARun` | internal/mail/imapsync/fetch.go:26-88 | The contract of the imperative SyncFolder, for every cut and any folder row it is handed, fresh or kept by a rerun, is a run of the interleaving machine, so the machine's theorems apply to the code |
| `SoloPass.DeltaSyncIsARun` | internal/mail/imapsync/idle.go:190-204 | So is the contract of a delta pass of the IDLE session, cut at any call |
| `SoloPass.ReconcileIsAStep` | internal/mail/imapsync/idle.go:283-299 | The rows a reconciliation leaves are those of one step of the machine |
| `FlagSync.BaseStep` | internal/mail/imapsync/idle.go:190-278 | Over any passes interleaved, every action keeps anchors and answers inside what the server has issued, and a message known to a refresh cached as long as the server has it |
| `FlagSync.SoundExactly` | internal/mail/imapsync/idle.go:244-262 | The anchor is sound and no pass holds an answer it vouches for wrongly, if and only if no run on that leaves the anchor alone ever makes it unsound |
| `FlagSync.TrackedStep` | internal/mail/imapsync/idle.go:216-262 | A refresh vouches for every row that no other pass has written since it read the anchor, through any server changes between its calls |
| `FlagSync.AdvanceIsHarmlessIff` | internal/mail/imapsync/idle.go:264-277 | The anchor a refresh moves stays sound for good if and only if no row that another pass wrote meanwhile, and no answer another pass still holds, belies it |
| `FlagSync.AnchorIsHarmlessIff` | internal/mail/imapsync/fetch.go:33-36 | The anchor a sync stores before it fetches stays sound for good if and only if every row the server changed since the old anchor is up to date, and so is every answer a pass holds |
| `FlagSync.CarefulRunsStaySound` | internal/mail/imapsync/idle.go:190-278 | Over every run of interleaved syncs, delta passes and refreshes in which each move of the anchor meets its condition, the anchor stays sound |
| `FlagSync.SkippedRowsAreCurrent` | internal/mail/imapsync/idle.go:228-243 | In such runs a row that differs from the server always has a MODSEQ beyond the anchor, so CHANGEDSINCE returns it |
| `FlagSync.SoloRunsAreCareful` | internal/mail/imapsync/idle.go:190-278 | With one session at a time, and full syncs of an empty cache or where SELECT reports the stored anchor itself, the conditions hold by themselves, whatever the server does between the calls, and the anchor never decreases |
| `FlagSync.SoundFromTheFirstSync` | internal/mail/imapsync/fetch.go:33-39 | In those runs, starting from a folder never synced, no hypothesis on the anchor is needed |
| `FlagSync.LateStoreGoesStale` | internal/mail/imapsync/idle.go:264-277 | A concrete run: one pass holds a fetched message, the server changes it, another pass refreshes past the change, the first stores: the anchor vouches for stale flags |
| `FlagSync.ResyncGoesStale` | internal/mail/imapsync/fetch.go:33-36 | A concrete run: a folder is synced, the server changes a flag, a second full sync moves the anchor past it without reading it |
| `SoloRefresh.RefreshFlagsIsARun` | internal/mail/imapsync/idle.go:216-278 | The contract of a completed RefreshFlags, rows and anchor, is a run of the anchor machine |
| `MasterKey.InvStep` | internal/crypto/sealed.go:67-172 | Every read, temp file, link, exclusive create, write, adoption, error and process crash but a failed sync keeps the file consistent with what has been returned |
| `MasterKey.AllCallersAgree` | internal/crypto/sealed.go:67-172 | Over every interleaving of any callers in any processes, without a failed sync after an exclusive create, all keys ever returned are the same 32 bytes and are what the file holds |
| `MasterKey.PublishedFileIsFinal` | internal/crypto/masterkey_publish.go:36-69 | Once any call has returned a key, the file never changes again |
| `MasterKey.ShortFileReturnsNothing` | internal/crypto/sealed.go:74-86 | A reader that meets a short file fails and never returns another key |
| `MasterKey.SealedStaysOpenable` | internal/crypto/sealed.go:214-258 | What any caller sealed, any later caller in any process opens |
| `MasterKey.FailedSyncHarmlessIff` | internal/crypto/masterkey_publish.go:53-69 | Removing the complete file after a failed sync keeps agreement if and only if nobody has been given the key meanwhile |
| `MasterKey.FailedSyncDisagrees` | internal/crypto/masterkey_publish.go:58-62 | A concrete run of three processes in which such a removal leads to two different keys |
| `MasterKey.ExclusiveLoserAdopts` | internal/crypto/masterkey_publish.go:36-53 | Within one process the publishing mutex makes a loser of the exclusive create read the winner's complete key |
| `MasterKey.FirstReadFailsIff` | internal/crypto/sealed.go:74-86 | Over every one-process run without a failed sync, a first read without a cached key fails if and only if some call has created the file exclusively and not yet written all 32 bytes |
| `MasterKey.FirstReadCanMeetEmptyFile` | internal/crypto/sealed.go:74-86 | Such a run: another provider's first read, which takes no mutex, meets the still empty file |
| `KeyCalls.LinkLoserAdopts` | internal/crypto/sealed.go:157-168 | Where links are not refused, whatever dies or fails elsewhere, the loser of the link race returns the key in the file, and so does every call that finds the file |
| `KeyCalls.LinkedCallsFailByErrorOnly` | internal/crypto/sealed.go:67-172 | In those runs a step of a call ends in failure if and only if it is an error of its own |
| `KeyCalls.LinkLoserFailsIff` | internal/crypto/sealed.go:157-168 | With exclusive creates about, in one process, the loser of the link race fails if and only if the file is gone again or some call has created it and not yet written it whole; else it returns what the file holds |
| `KeyCalls.CreatorReturnsItsKey` | internal/crypto/masterkey_publish.go:53-69 | A call that created the file and wrote it whole returns what the file holds |
| `KeyCalls.KeysAreDrawn` | internal/crypto/sealed.go:86-89 | Every key ever returned is one that some call of the run drew |
| `KeyCalls.CallCompletesIff` | internal/crypto/sealed.go:67-172 | In every state reached without a failed sync a call can end with the key in the file by its own steps if and only if it has not failed, no short file of another stands there, the file it lost a race to is there, and the mutex it waits for is free |
| `SealedStore.Disk.RenamePublish` | internal/crypto/sealed.go:370-386 | The rename succeeds exactly if at most six attempts find the target busy; otherwise nothing changes |
| `SealedStore.Disk.WriteFileAtomic` | internal/crypto/sealed.go:318-360 | Done writes exactly the data and only past the rename, a reported failure changes no file, a crash leaves the target as it was or complete and at most one stray temp file |
| `SealedStore.Keystore.Persist` | internal/crypto/sealed.go:286-304 | After success reopening gives the entries in memory; after a failure or an earlier crash, those of before |
| `SealedStore.Keystore.StoreSecret` | internal/crypto/sealed.go:214-230 | The alias holds the sealed secret in memory and, after success, on disk; every other alias stays |
| `SealedStore.Keystore.DeleteSecret` | internal/crypto/sealed.go:260-268 | The alias is gone from both; a missing alias writes nothing |
| `SealedStore.Keystore.Fetch` | internal/crypto/sealed.go:232-258 | Exactly the secret held under the alias, and none if there is none |
| `SealedStore.Lifetime` | internal/crypto/sealed.go:194-304 | With a crash or error at any step of any operation, the disk holds the secrets after the last completed operation, and after the one in flight exactly if that got as far as its rename |
| `SealedStore.Lifetimes` | internal/crypto/sealed.go:194-304 | Over any number of such lifetimes in a row, the store opened at the end holds exactly the secrets after the operations that completed or got as far as their rename |
| `SealedStore.LastOperationDecides` | internal/crypto/sealed.go:214-268 | What is held under an alias is the secret last stored, or nothing if the last operation was a delete |
| `AtomicWriters.WritersNeverMix` | internal/crypto/sealed.go:318-360 | Over every interleaving of any writers, crashes included, the file holds its old content or the complete data of one writer |
| `AtomicWriters.RenamePublishesOwnData` | internal/crypto/sealed.go:341-360 | A writer that reaches its rename finds its own temp file and publishes its own data |
| `FtsIndex.PostingsAreTokens` | internal/store/schema.go:143-162 | The postings of a row in a column are exactly the tokens of its text at their positions, for indexed columns only |
| `FtsIndex.NarrowTriggerRefines` | internal/store/schema.go:191-204 | Where the version 5 trigger does not fire, the version 2 trigger would have put back what it took out |
| `FtsIndex.AgreesAfterUpdate` | internal/store/schema.go:155-160 | Delete-then-insert of the old and new postings restores agreement for the updated row |
| `FtsIndex.Database.UpsertMessage` | internal/store/messages.go:109-151 | Insert, or merge by the conflict rule (an empty body never overwrites a fetched one; sender, subject, date and snooze stay), with the index in agreement |
| `FtsIndex.Database.SetMessageBool` | internal/store/messages.go:297-317 | The named flag of one row takes the value, every other field and row stays; the index stays in agreement though no indexed column is named |
| `FtsIndex.Database.SetSnooze` | internal/store/intelligence.go:40-56 | The snooze of one row moves, nothing else, and the index stays in agreement |
| `FtsIndex.UpsertsKeepIdentityAndBody` | internal/store/messages.go:118-136 | However often a message is upserted, its row keeps sender, subject, date and snooze, carries the last text and HTML bodies fetched (an envelope alone erases none), and takes thread, snippet, attachment mark and flags from the last upsert |
| `FtsIndex.RowAfterUpserts` | internal/store/messages.go:109-151 | The same from the insert on: what the first upsert wrote and what became of it |
| `FtsIndex.Database.UpdateMessageFlags` | internal/store/messages_sync.go:61-69 | Every row of that folder and UID takes the flags, no other; the index agrees |
| `FtsIndex.Database.DeleteLocalMessage` | internal/store/messages.go:320-334 | The row and its postings go together |
| `FtsIndex.Database.DeleteRows` | internal/store/messages_sync.go:74-112 | A bulk delete removes exactly those rows and keeps agreement |
| `FtsIndex.Database.Rebuild` | internal/store/schema.go:161-162 | The rebuild makes the index agree with the rows from any index whatever |
| `FtsIndex.Database.Migrate` | internal/store/schema.go:208-243 | From any older version agreement survives every migration, with the rows untouched |
| `Search.ParsedMeaning` | internal/store/search.go:158-161 | The attachment and the unread filter are set exactly if some field spells their operator, in any letter case |
| `Search.ParseFrom` | internal/store/search.go:140-179 | Fields read one after another add up: terms in order, filters together, of two readable dates of one operator the later, the date that stands for none included |
| `Search.AcceptedIff` | internal/store/search.go:145-178 | The expression written for the terms is one of the FTS5 grammar if and only if there is one term at most or none is scoped, and no operand holds a NUL |
| `Search.ScopedSearchFails` | internal/store/search.go:150-158 | A search from anyone for any word that is no operator is refused, whatever the index holds |
| `Search.FieldsConjoin` | internal/store/search.go:140-179 | Where the search for two lists of fields together is answered, so is each alone, and a row matches it exactly if it matches both, unless one is silent or both set the same date bound |
| `Search.PhraseFromIs` | internal/store/search.go:29-87 | The index places a phrase in a column of a row exactly where its tokens stand in the text in order, the last one begun |
| `Search.HitsAreMatches` | internal/store/search.go:29-87 | The rows the index lists under a term are exactly those whose text has its phrase in those columns |
| `Search.Search` | internal/store/search.go:29-87 | A search answers exactly if its expression is accepted; the rows it then finds through the index are exactly those a linear scan with the same terms and filters would find, and an operand without tokens finds nothing by itself |
| `SearchMeaning.SearchFields` | internal/store/search.go:29-87 | The whole search, from the fields typed: refused exactly where a scoped field stands beside another text or an operand holds a NUL; else exactly the undeleted messages of the account that say in the columns asked what each field asks for, have the attachment or are unread where asked, and lie before the last readable before date and after the last readable after date |
| `SearchMeaning.ParsedIsMeant` | internal/store/search.go:140-179 | The query parsed from any fields asks of a message exactly what the fields ask |
| `SearchMeaning.ParsedDates` | internal/store/search.go:162-169 | The bound of each date operator is its last readable operand, and none if there is none |
| `SearchMeaning.ParsedTerms` | internal/store/search.go:149-176 | from: searches sender address and name, subject: the subject alone, any other word all five columns; a term holds where its tokens stand one after another, the last perhaps only begun |
| `SearchMeaning.UnquotedMeaning` | internal/store/search.go:143-145 | An operand loses its quotes and nothing else |
| `AppLock.ValidPIN` | internal/applock/applock.go:241-251 | True exactly for 4 to 12 digits |
| `AppLock.LockoutLadder` | internal/applock/applock.go:207-225 | No delay up to five failures, then 30 seconds doubling up to 15 minutes |
| `AppLock.Manager.Verify` | internal/applock/applock.go:123-152 | Right exactly if no deadline still to come is read and the PIN matches; a refused attempt changes nothing; otherwise the shared counter and deadline move as far as the settings calls succeed |
| `AppLock.Manager.VerifyTOTP` | internal/applock/totp.go:68-96 | The same for a code, trimmed of white space, within one step of skew, on the same counter |
| `AppLock.AcceptedCodes` | internal/applock/totp.go:76-87 | A code is accepted exactly if it is that of the 30-second step of now or of one of its neighbours |
| `AppLock.Manager.RecordFailure` | internal/applock/applock.go:185-208 | Counter and deadline after a failure, whichever settings call fails, and exactly when that is reported |
| `AppLock.Manager.ClearLockout` | internal/applock/applock.go:228-238 | What a clear leaves, whichever settings call fails, and exactly when that is reported |
| `AppLock.Manager.Set` | internal/applock/applock.go:92-117 | Only a valid PIN is stored, and storing one clears the ladder as far as the settings calls succeed |
| `AppLock.EscapesIff` | internal/applock/applock.go:123-208 | An evaluated wrong answer escapes the ladder, by not being counted, opening no window or being evaluated while one is open, if and only if a settings call that it needed failed |
| `AppLock.InvOfRun` | internal/applock/applock.go:123-225 | Over every sequential run of attempts, whichever settings calls fail, the counter and the deadline are no lower than the wrong answers on the ladder since the last right one ask for |
| `AppLock.BookOfRun` | internal/applock/applock.go:123-225 | Without a fault the ladder holds every evaluated wrong answer since the last right one, and the stored book is exactly what they ask for |
| `AppLock.EvaluatedIff` | internal/applock/applock.go:162-181 | Without a fault an attempt is evaluated if and only if at most five wrong answers lie since the last right one or the lockout opened by the last of them has run out, to the second |
| `AppLock.FullDiskCountsNothing` | internal/applock/applock.go:193-197 | With a settings table that takes no writes any number of wrong answers is evaluated and none counted |
| `AppLock.WaitAfterWrongAnswer` | internal/applock/applock.go:185-225 | Whichever settings calls fail, between two right answers the wait after wrong answer k of the ladder, k at least 6, of either factor, exceeds its lockout less a second |
| `AppLock.ThrottleBound` | internal/applock/applock.go:123-225 | Whichever settings calls fail, between two right answers any span of T admits at most 11 + T/899s wrong answers that do not escape the ladder |
| `Gate.AlwaysStep` | ui/state/lockstate.go:127-294 | One step of any screen, verification, lock, unlock or reload keeps the snapshot flag equal to the lock and every PIN under way to SetPIN valid |
| `Gate.SnapshotFollowsLock` | ui/state/appstate_loader.go:205-214 | Over every interleaving snap.Locked equals locked, and every PIN the screen sends to SetPIN satisfies the PIN rule |
| `Gate.TapKeepsGood` | ui/screens/lock.go:234-293 | Keys keep the entry within its limit and let only a PIN of legal length reach confirmation and SetPIN |
| `Gate.GuardedStep` | ui/screens/lock.go:234-356 | With PIN and second factor set, every step that removes neither and fails no lookup of the second, arming the settings' screen anew at any time included, keeps: one outstanding verification on the gate, and the gate past the first factor only if that was right in the same run |
| `Gate.OpensOnlyAfterBothFactors` | ui/state/lockstate.go:167-253 | While PIN and second factor stay set, no removal is in flight and no lookup of the second factor fails, the app opens only by a TOTP success on the gate, in a run of the gate in which a first factor had been right |
| `Gate.StaysShutIff` | internal/applock/totp.go:51-55 | From a guarded state, a step that removes nothing leaves a state from which the app opens by a right code alone if and only if it is not a lookup of the second factor that failed |
| `Gate.OpensOtherwiseAfterFailedLookup` | ui/state/lockstate.go:171-179 | Over every run that removes nothing, an opening otherwise than by a right code comes after a lookup that failed |
| `Gate.FingerprintAloneOpens` | ui/state/lockstate.go:331-339 | A concrete run: at the gate the program starts with, a right fingerprint and one failed read of the keystore open the app while the second factor is enrolled |
| `Gate.StaleOutcomeAdvancesSettings` | ui/screens/settings_security.go:55-66 | A concrete run in which the settings' screen is armed anew while a PIN is being verified, and the old outcome carries the new run past its PIN |
| `Settings.BeginIsCleanIff` | ui/screens/lock.go:91-105 | Arming the settings' screen to change or remove the lock: no continuation gets the new run past a factor it was not given if and only if everything the screen still waits for has failed already |
| `Settings.CleanStep` | ui/screens/lock.go:234-356 | Every action but arming the screen anew keeps the run clean: past the first factor only if that was right in it, past the second only if its code was right or none was found, and every outcome under way of the same run or a failure |
| `Settings.OrderedOverRuns` | ui/screens/lock.go:304-356 | Over every run jobs and right factors are of the current or an earlier run of their screen, which is all the condition above presumes |
| `Settings.PatientBeginIsClean` | ui/screens/settings_security.go:55-66 | From the program's start, if screens are armed anew only while not busy, every run that changes or removes the lock is clean |
| `Gate.StartsGuarded` | ui/app.go:98-129 | Gate and settings' screen as the program starts them satisfy the guard |
| `Opening.BusyIsAwaited` | ui/screens/lock.go:295-315 | Over every run a screen that takes no answer now has an outcome queued or a verification under way |
| `Opening.AnswerFreesPad` | ui/screens/lock.go:305-356 | An outcome folded in leaves the pad free and empty, unless it starts the removal of the lock; a wrong one leaves stage and intent |
| `Opening.SetPinWasRepeated` | ui/screens/lock.go:258-275 | The PIN handed to SetPIN is the one entered twice in a row |
| `Opening.TypingEnters` | ui/screens/lock.go:233-252 | Typing enters what is typed, and Backspace takes it back |
| `Opening.SubmitStarts` | ui/screens/lock.go:254-292 | What submitting an entry starts at each stage |
| `Opening.OneOpeningPerFirstFactor` | ui/screens/lock.go:352-355 | A right first factor is good for one opening: after it the app stays shut through any locks and right codes until a first factor is right on the gate again |
| `Opening.RightAnswersOpen` | ui/state/lockstate.go:163-253 | From every state an orderly run reaches, whatever is under way, right answers open the app |
| `Move.World.MoveUID` | internal/mail/imapsync/ops.go:38-59 | MOVE, or COPY then STORE then EXPUNGE, with a call lost or answered wrongly anywhere, keeps the message on the server at every moment; it succeeds exactly if all its calls do, and then has the effect of the move |
| `Move.World.CopyAndExpunge` | internal/mail/imapsync/ops.go:45-59 | The fallback flags and expunges only once a copy exists that the expunge leaves alone, also when it starts over |
| `Move.World.ExecMove` | internal/syncmanager/exec.go:73-129 | At every point of the command, its single rerun included, the server holds the message in source or destination, and the local row is gone only if the source no longer has it; success means the destination has it, and comes exactly if the pooled run succeeds or, with the row still there, the credential, the dial and the whole fresh run do |
| `Move.MoveOnce` | internal/syncmanager/connpool.go:52-112 | The same from any described world |
| `Move.OneFaultMadeGoodIff` | internal/syncmanager/connpool.go:67-98 | A single fault on a pooled connection is made good by the rerun if and only if it falls before the local row is dropped |
| `Move.UndisturbedSucceeds` | internal/syncmanager/exec.go:100-129 | With every call answered the command succeeds, pooled or not |
| `Move.FallbackConservesIff` | internal/mail/imapsync/ops.go:45-59 | The fallback loses the message if and only if source and destination are one folder and it was already flagged \Deleted |
| `Move.MoveOntoItselfLosesMail` | internal/mail/imapsync/ops.go:45-59 | A concrete mailbox for which it does |
| `Move.FallbackKeepsOthersIff` | internal/mail/imapsync/ops.go:53-59 | The plain EXPUNGE removes another message of the folder exactly if that was flagged \Deleted; MOVE never does |
| `ConnPool.Manager.WithCommandConn` | internal/syncmanager/connpool.go:52-112 | The command runs on the pooled connection if one is there and not idle too long, and again on a fresh one exactly if that failed and one can be dialed; it succeeds as the last run does; a connection is parked exactly after success, and ownership stays unique |
| `ConnPool.Manager.DropCommandConn` | internal/syncmanager/connpool.go:116-123 | The client of that alias is closed and forgotten, no other |
| `ConnPool.Manager.Shutdown` | internal/syncmanager/manager.go:116-127 | Afterwards every client ever dialed is closed |
| `ConnPool.OwnedAfterPark` | internal/syncmanager/connpool.go:97-111 | Pooling a fresh client, or touching the pooled one, keeps ownership unique |
| `RichSpans.CollapseSpace` | internal/mail/mime/richspans.go:196-217 | The loop computes the collapsing specification |
| `RichSpans.CollapsedMeaning` | internal/mail/mime/richspans.go:196-217 | Collapsing keeps every other character in order and leaves single spaces only |
| `RichSpans.Append` | internal/mail/mime/richspans.go:186-192 | Appending shows exactly the old characters and then the new, and no two neighbouring runs share a style |
| `RichMeaning.RichParagraphs` | internal/mail/mime/richspans.go:87-182 | Every block of the events in its own paragraph, with its tag, depth and what its own events give, glyph for glyph and merged, cut to 5000; below the cap the paragraphs say, but for white space and in order, exactly what the texts, bullets and image labels say |
| `RichMeaning.UnmergedIs` | internal/mail/mime/richspans.go:87-182 | The fold of the events is the paragraphs of their blocks, defined event by event without it |
| `RichMeaning.EventIsShown` | internal/mail/mime/richspans.go:87-182 | What an event gives stands in the paragraph of its own block |
| `RichMeaning.GivenIs` | internal/mail/mime/richspans.go:87-182 | A break gives a newline; a text carries the link open around it and, for well-nested events, the emphasis of exactly the tags open around it |
| `RichMeaning.ParagraphsSay` | internal/mail/mime/richspans.go:87-182 | No character is lost, doubled or moved between the events and the paragraphs of their blocks |
| `RichSpans.CountersCountOpenTags` | internal/mail/mime/richspans.go:54-81 | For well-nested events the counters count the open tags of each kind |
| `RichSpans.TextCarriesEnclosingTags` | internal/mail/mime/richspans.go:100-127 | For well-nested events a text's emphasis is exactly the set of tags open around it |
| `Loader.RefreshIsNeverLost` | ui/state/appstate_loader.go:25-55 | A Refresh issued since the last reload began implies a queued token or a loader between dequeue and reload |
| `Loader.QuiescentMeansUpToDate` | ui/state/appstate_loader.go:95-201 | In every quiescent state whose last reload neither gave up nor left out a part it could not read, the snapshot was computed from the account, folder and thread selected last and from the store with all that was written |
| `Loader.SettlesWithinTwoReloads` | ui/state/appstate.go:375-380 | From every reachable state whose callers have refreshed, at most two reloads without a failed read bring the snapshot up to date |
| `Hosts.InDomainIsLabelSuffix` | internal/mail/account/qrprovision.go:168-175 | A host is in a domain exactly if the domain's labels are its last labels; ending with the same letters is not enough |
| `SetupCode.PublicIsTrimmed` | internal/mail/account/autoconfig.go:328-340 | A public name has nothing to trim, so the check and the dialed name agree |
| `SetupCode.EndpointAccepted` | internal/mail/account/qrprovision.go:181-203 | An endpoint passes exactly if it is https without user info on the default port, at a public host inside the mailbox's domain |
| `SetupCode.AcceptedIff` | internal/mail/account/qrprovision.go:91-163 | Whoever made the code, it is accepted exactly if it decodes, has version 1, is unexpired, is signed by the key it names, and every mode, port and host is trustworthy; what is returned is what was decoded |
| `SetupCode.RefusalMeaning` | internal/mail/account/qrprovision.go:91-141 | What each refusal means, first fault first: transport and port errors are reported of validly signed, unexpired codes only |
| `Provision.Service.PruneExpired` | cmd/vayumail-provision/service.go:58-64 | Exactly the tokens past their window are dropped |
| `Provision.Service.BuildPayload` | cmd/vayumail-provision/service.go:69-105 | The table gains the token and the code encodes the signed fields |
| `Provision.Service.HandleExchange` | cmd/vayumail-provision/service.go:173-203 | Looking a token up uses it up, whatever the answer; the password is that of the mailbox granted |
| `Provision.GrantedIff` | cmd/vayumail-provision/service.go:173-194 | After any run an exchange is granted exactly for a token minted, not presented since, found expired by no request, within its window, to the mailbox it was minted for |
| `Provision.EachTokenPaysOnce` | cmd/vayumail-provision/service.go:173-194 | Over every interleaving a token yields credentials at most once and only for its own address |
| `Provision.MintedCodeAcceptedIff` | cmd/vayumail-provision/service.go:69-105 | A minted code verifies exactly if its fields are trustworthy and the second of its expiry has not been reached; each of its fields is then the service's own |
| `Provision.AcceptedCodeRedeems` | cmd/vayumail-provision/service.go:58-105 | At every instant at which the client accepts a minted code its token is still held, unless someone presented it, and redeems for the code's own user name |
| `Sse.ParseSSE` | internal/chat/stream.go:97-130 | The loop delivers exactly the events of the specification, in order |
| `Sse.NoiseIsIgnored` | internal/chat/stream.go:117-129 | Comments and unknown fields between any lines change nothing |
| `Sse.BlankLineSeparates` | internal/chat/stream.go:103-120 | Parsing distributes over concatenation at a blank line |
| `Sse.BlockDelivers` | internal/chat/stream.go:117-168 | What a block of lines delivers at its blank line: an envelope or a receipt if its last event field says so and its data reads as one with an id, a ping if named so, else nothing |
| `Sse.UnfinishedTailYieldsNothing` | internal/chat/stream.go:114-130 | An event without its blank line is not delivered |
| `Sse.StreamRoundTrip` | internal/chat/stream.go:97-168 | For every list of envelope, receipt and ping events printed as lines, with noise inserted anywhere and an unfinished tail, exactly that list is delivered in order |
| `Sse.LinesOfText` | internal/chat/stream.go:98-118 | Splitting the text of any lines gives them back, for either line ending and before any rest |
| `Sse.WireRoundTrip` | internal/chat/stream.go:97-168 | The round trip on the text of the stream |
| `ChatReplay.ChatState.ApplyIncoming` | ui/state/chatstate_events.go:253-303 | An envelope whose id the conversation holds changes nothing; another is appended sealed, and bumps the badge and notifies exactly if its conversation is not the open one |
| `ChatReplay.ChatState.SetStatusByID` | ui/state/chatstate_events.go:306-318 | The first message of that id in one conversation that holds it is marked, whatever the order of the scan |
| `ChatReplay.ChatState.RevealMessage` | ui/state/chatstate_ops.go:69-85 | Exactly the received messages of that id are opened with their burn deadline |
| `ChatReplay.ChatState.OpenRoom` | ui/state/chatstate_ops.go:145-160 | The conversation becomes the open one with an empty badge |
| `ChatReplay.ChatState.CloseRoom` | ui/state/chatstate_ops.go:163-167 | No conversation is open |
| `ChatReplay.HeldAfterStep` | ui/state/chatstate_events.go:253-318 | No action but a rebind loses a message, and only arrivals and sends bring one in |
| `ChatReplay.RepeatsChangeNothing` | ui/state/chatstate_events.go:253-303 | Repeats of envelopes already received, anywhere in a run and however many, leave messages, order, badges, notifications and activity times as in the run without them |
| `ChatReplay.RunsUpToRepeatsAgree` | ui/state/chatstate_events.go:253-303 | Two runs that differ by repeats only end in the same state, from any state |
| `ChatReplay.StateIsHistory` | ui/state/chatstate.go:218-226 | The state holds exactly the messages the run brought in since the last rebind, and the conversation last opened |
| `ChatReplay.BadgeCountsBackgroundArrivals` | ui/state/chatstate_ops.go:145-167 | A badge counts exactly the distinct messages that arrived in the background since the conversation was last opened, and notifications are exactly the background arrivals |
| `ChatReplay.PendingAreDistinct` | ui/state/chatstate_events.go:253-303 | The arrivals a badge counts carry different ids |
| `ChatReplay.WarningMeansUntrusted` | ui/state/chatstate_events.go:265-296 | Over every run a received message is shown without a warning exactly if its envelope was validly signed, by the verified key if the conversation was verified when it arrived |
| `ChatReplay.OpenIffRevealed` | ui/state/chatstate_ops.go:69-85 | Over every run a received message is open if and only if the user has revealed it since it arrived, and its burn deadline is then its reading time after the last reveal, whatever is reported of it meanwhile |
| `ChatReplay.MarkedIs` | ui/state/chatstate_events.go:306-318 | What an outcome makes of a message: its status, and a deadline at the first reading only |
| `ThreadKey.StripRemovesLongestStack` | internal/mail/imapsync/fetch.go:213-221 | The stripping function removes the longest text the pattern matches, and nothing if the pattern does not match |
| `ThreadKey.StackKeepsNormal` | internal/mail/imapsync/fetch.go:213-221 | Any stack of recognised prefixes in front of any subject leaves its normal form |
| `ThreadKey.ThreadIsStableIff` | internal/mail/imapsync/fetch.go:219-229 | With and without the stack the thread is the same for all message ids if and only if the normal form is not empty |
| `ThreadKey.SameThreadIff` | internal/mail/imapsync/fetch.go:219-229 | Two messages are in one thread if and only if their normal forms agree and say something, or neither says anything and they answer the same message or are one |
| `ThreadKey.PlainNormal` | internal/mail/imapsync/fetch.go:219-222 | Without a prefix the normal form is the subject, trimmed and in lower case |
| `ThreadKey.PrefilledKeepsNormal` | ui/widgets/composer_draft.go:14-30 | The composer's reply and forward subjects have the normal form of the original, for every subject |
| `ThreadKey.PrefilledIsMarkedOnce` | ui/widgets/composer_draft.go:14-30 | Reply and forward subjects are marked as such, once however often |
| `ThreadKey.TrailingSpaceKeepsNormal` | internal/mail/imapsync/fetch.go:219-222 | Trailing white space does not change a normal form that is not empty |
| `ThreadKey.SentReplyJoinsThread` | ui/widgets/composer_draft.go:72-83 | A reply or forward, sent with the trimmed proposed subject, is in the thread of the message it answers, whatever the ids |

## Left out

- Mirror.QuietRunsLeaveNoGap: asks every clear and window to be quiet and every anchor and stored row to be honest, because without these the property is false of the code (`Mirror.TwoPassesAfterResetLoseMail`, `Mirror.RerunAfterResetMislabels`, `Mirror.LostPassStoresStaleRow`).
- MasterKey.AllCallersAgree: excludes a failed sync after an exclusive create, where it is false (`MasterKey.FailedSyncHarmlessIff`).
- FlagSync.CarefulRunsStaySound: asks every move of the anchor to meet its exact condition, because without it the property is false of the code; a server without CONDSTORE, whose anchor stays 0, and the optimistic local marks of `execMark` are not part of it.
- Mirror.RemovalIsHarmlessIff: the inventory and the delete of a reconciliation are one step of the machine; this lemma says exactly when a delete made from an older inventory is harmless.
- Gate.OpensOnlyAfterBothFactors: speaks of the gate, and asks that no lookup of the second factor fails, without which it is false (`Gate.StaysShutIff`). Reading whether a PIN is set is taken not to fail.
- Settings.BeginIsCleanIff: a lookup that finds no second factor, because it failed or none is enrolled, counts as that factor given; after a failed removal the same run goes on.
- FolderCache.Converge: the anchors, which every sync writes again, are not among the writes it counts.
- Loader.QuiescentMeansUpToDate: excludes a last reload that gave up on a store error, after which the old snapshot stays, and one that committed without a part it could not read, such as the thread.
- Provision.EachTokenPaysOnce: tokens drawn are taken to be fresh; `Provision.GrantedIff` needs no such premise.
- ThreadKey.SentReplyJoinsThread: lower-casing is that of ASCII letters.
- The store, the gate and the loader state machines work on values where the source updates fields under a mutex; what happens inside one critical section is one action.
- The 32-bit width of UIDs, whose resume point wraps after the last one; message bodies, envelopes and the `attachments` column of a cached row; joining and splitting flag strings.
- Ranking and the result limit of search, and cutting its input into fields; the tokenizer is a parameter, and the FTS5 grammar is modelled without its operators.
- AES-GCM, PBKDF2, HMAC, Ed25519, JSON, base64, RFC 3339, URL parsing and the folding of letter case in user names are parameters with their laws; the wrapped key provider is not modelled.
- Timestamps of chat envelopes and cancellation and the line limit of the stream reader; sending, acknowledging and key fetches of the chat engine.
- The burn clamp of outgoing chat messages, delivery states ordered in time, and case folding of peer names beyond ASCII.
- The pool's control structure appears again in `Move.World.ExecMove`, since a method cannot be passed as the command; syncing the destination after a move reads the server only.
- Permanent deletes, marks and sends of the command loop, and starting and stopping account runners.
- Search results of the loader, whose queue is bypassed when the query is cleared; waiters for added accounts.
- Authorization and user lookup of the setup-code endpoint, and the client's HTTP exchange.
- Layout, animation, notifications, autoconfiguration, MIME parsing and sanitizing.

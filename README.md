# mail_backup in Dafny

A model of the scripts of `mail_backup`, which back up an IMAP mailbox into a
SQLite database and then maintain, recover, analyse and export what is stored.

- **The backup run** (`main.py`) is modelled in modules `Store` and `Sync`:
  - the `downloaded_emails`, `email`, `email_address`, `email_participant`
    and `folder_uidvalidity` tables, as maps and sets keyed by their
    declared keys;
  - the insert-or-ignore store of each message;
  - the per-folder UIDVALIDITY baseline check (section 2.3.1.1 of RFC 3501);
  - the numeric maximum uid and the `max+1:*` fetch window (section 6.4.8 of
    RFC 3501);
  - batches of ten with the "whole batch already stored" skip;
  - per-message failure isolation into `failed_emails`;
  - three attempts per folder and the case-insensitive folder denylist;
  - the final retry of failed messages, and `backfill_from_json`.
- **The address normaliser** is in modules `Recipients` and `Store`:
  - `parse_recipients` in both its forms;
  - `get_or_create_email_address`, which trims and lower-cases;
  - the participant triples.
- **String logic of message extraction** is in module `Naming`: the folder
  component of attachment paths, attachment file names, and the
  case-insensitive Message-ID lookup (section 3.6.4 of RFC 5322).
- **The re-runnable normalisation pass** (`migration_script.py`) is in module
  `Migration`, including the bounded `safe_commit` retry.
- **The targeted recovery of logged INBOX uids**
  (`recover_missing_inbox_mails.py`) is in module `Recovery`.
- **The month-by-month, size-capped JSON export**
  (`export_sqlite_to_json_chunks.py`) is in module `Export`. It is a class
  over the `buffers`, `sizes` and `file_counters` dictionaries.
- **The three small scripts** are in modules `MessageIdBackfill`,
  `CompareUids` and `YearAnalysis`:
  - `backfill_message_id.py`;
  - `compare_uids_by_year.py`;
  - `analyze_email_years.py`.

Shared modules:

- `Wrappers`: `Option`.
- `Text`: the Python string primitives the scripts use, plus SQLite's
  `CAST(... AS INTEGER)`.
- `Batching`: `split_into_batches`.
- `UidLists`: list logic after a fetch.
- `Tally`: the counting behind the two report scripts.

The mail server, the network and the other libraries are inputs:

- a folder's status and messages;
- outage plans saying which connection attempt or fetch raises;
- the byte size of a record's JSON encoding;
- the month a date parses to.

The database is a `class Database` whose methods change its tables in place.
The backup run is a `class Backup` holding the database and the global
`failed_emails` list. The export is a `class Exporter`.

## Model

A specification function that has no contract of its own (for example
`Recipients.ParseRecipients`, `Sync.CheckUidValidity`, `Sync.Window`,
`Sync.Skipped`, `Naming.CleanName`, `Naming.FindMessageId`,
`Text.IsDigits`) has no row; the lemmas that state its properties have.

| member | source | states |
|---|---|---|
| Batching.SplitIntoBatches | main.py:114-115 | Every batch is non-empty and at most `n` long, and all but the last are exactly `n` long. |
| Batching.FlattenSplitIntoBatches | main.py:114-115 | Concatenating the batches gives the input back, in order. |
| Batching.BatchIsSlice | main.py:115 | Batch `k` is the slice that starts at `k * n`, as the comprehension takes it. |
| Batching.BatchElementsFromInput | recover_missing_inbox_mails.py:119-120 | Every element of every batch is an element of the input. |
| Text.StripEmptyIff | main.py:95 | `strip()` gives `""` exactly for whitespace-only strings: the `if e.strip()` filter drops exactly those pieces. |
| Text.TrimStartSuffix | main.py:95 | `lstrip()` keeps a suffix of the string. |
| Text.TrimEndPrefix | main.py:95 | `rstrip()` keeps a prefix of the string. |
| Text.StripIdempotent | recover_missing_inbox_mails.py:116 | Stripping twice is stripping once. |
| Text.LowerStripCommute | main.py:47 | Lower-casing and stripping commute, so the address key is the same whichever is done first. |
| Text.JoinSplit | main.py:95 | Joining the pieces of a split on one delimiter rebuilds the string. |
| Text.SplitJoin | export_sqlite_to_json_chunks.py:32 | Splitting the join of delimiter-free pieces gives the pieces back. |
| Text.CastIntegerOfNatToDecimal | main.py:37-41 | A uid written as `str(n)` is read back as `n` by `CAST(uid AS INTEGER)`. |
| Text.Pad3 | export_sqlite_to_json_chunks.py:56 | `f"{part:03}"`: a digit string of at least three characters whose value is `part`. |
| Recipients.SplitAddresses | main.py:98 | The string form yields non-empty, stripped pieces that contain no `;` and no `,`. |
| Recipients.StringAndListFormsAgree | main.py:84-100 | A list of addresses and its `", "`-joined string parse to the same addresses. |
| Recipients.StripAvoids | main.py:95 | Stripping a piece that holds no delimiter leaves it free of delimiters. |
| Recipients.SplitAddressesOfJoin | main.py:95-98 | Non-empty, stripped addresses without `;` or `,` come back unchanged, in order and with their case, from their joined form. |
| Recipients.TupleGivesNothing | main.py:90-100 | A value that is neither a list nor a string, such as a tuple, gives `[]`. |
| Recipients.TupleRecipientsLost | main.py:92-100 | As written, a one-address tuple parses to `[]`, while the joined string stored for the same message parses to that address. |
| Recipients.TupleAddressLost | main.py:92-100 | The same loss for any single address. |
| Recipients.CorrectedFormsAgree | main.py:84-100 | With the correction, a tuple, a list and the joined string of the same addresses give the same result. |
| Recipients.CorrectedTupleKeepsAddresses | main.py:84-100 | Well-formed addresses given as a tuple come back unchanged and in order. |
| Recipients.LowerParserIsLowerOfParser | migration_script.py:99-102 | The migration parser is main.py's string parser followed by lower-casing of each address. |
| Recipients.ParsedLowerAddresses | migration_script.py:99-102 | Every address the migration parser yields is non-empty and already lower-case. |
| UidLists.WithoutMembers | main.py:130 | The missing-uid comprehension keeps exactly the uids outside the stored set. |
| UidLists.WithoutAppend | recover_missing_inbox_mails.py:137 | The comprehension keeps input order: filtering a concatenation concatenates the filtered parts. |
| UidLists.WithoutNothing | main.py:130 | Nothing is dropped when no uid is stored. |
| UidLists.UidRange | main.py:152-155 | `(0, 0)` for an empty folder; otherwise both ends are uids of the folder and every uid lies between them. |
| UidLists.Sort | main.py:160 | `sorted` gives an ascending permutation of the uids. |
| UidLists.SortedBatchesSpec | main.py:158-161 | The batches hold each uid exactly as often as the folder does, ascending across batches, each of at most 500. |
| Naming.SafeFolderSpec | main.py:375 | The sanitised folder has the same length, contains no `/` and no space, and keeps every other character in place. |
| Naming.AttachmentNameSpec | main.py:388-390 | An attachment name contains neither `/` nor `\` and has no surrounding whitespace. |
| Naming.AttachmentNameDefault | recover_missing_inbox_mails.py:86-88 | Without a file name or a guessed extension, the name is `attachment_{i}.bin`. |
| Naming.CleanNameSpec | main.py:390 | A cleaned name is stripped and holds neither separator. |
| Naming.CleanNameUnchanged | main.py:390 | A stripped name without separators is kept as it is. |
| Naming.FindMessageIdFirstMatch | main.py:401-408 | The first header whose lower-cased name is `message-id` decides the value, converted with `str()`, whatever follows it. |
| Naming.FindMessageIdAbsent | main.py:401-408 | Without a matching header there is no message id. |
| Naming.MessageIdNameIgnoresCase | main.py:404 | `Message-ID`, `MESSAGE-ID` and `message-id` all match; `Message_ID` does not. |
| Store.AsText | main.py:331-334 | A non-string value is stored as its `str()`, and `None` stays `None`. |
| Store.InsertIfAbsentKeeps | main.py:255 | An insert-or-ignore on the primary key never changes a stored row and always leaves the key present. |
| Store.InsertIfAbsentSize | main.py:316-341 | An insert-or-ignore adds exactly one row when the key was absent, and none otherwise. |
| Store.InsertIfAbsentIdempotent | main.py:316-341 | Repeating an insert-or-ignore, with any row, changes nothing. |
| Store.AddressKeyIgnoresCaseAndSpace | main.py:44-47 | Inputs that differ only in letter case or outer whitespace have the same lookup key. |
| Store.WhitespaceOnlyAddressKey | main.py:45-47 | The emptiness test runs before trimming, so a whitespace-only address is stored as `""`. |
| Store.ResolveSpec | main.py:44-55 | Falsy input: `None` and no write. Otherwise: the id now stored under the key; an existing id is returned unchanged; a new key gets one new row with a fresh id. |
| Store.ResolveIdempotent | main.py:44-55 | Resolving the same input twice returns the same id the second time and writes nothing. |
| Store.ResolveSameKeySameId | migration_script.py:73-84 | Two inputs with the same key get the same id, whichever comes first. |
| Store.ResolveDistinctKeys | main.py:491 | Inputs with different keys never share an id, as the UNIQUE column demands. |
| Store.ResolveKeepsIds | main.py:44-55 | Resolving never removes or changes an id in use. |
| Store.AddParticipantIdempotent | main.py:103-111 | A second identical `add_participant` leaves the address table and the triple set as the first left them. |
| Store.AddParticipantLinks | main.py:103-111 | The only triple added is `(pk, id, role)`, and nothing is linked when the address resolves to `None`. |
| Store.LinkManyLinksEach | main.py:631-636 | Every non-empty address of a list ends up stored and linked to the message under the role. |
| Store.LinkManyOnlyOwn | migration_script.py:193-212 | Every triple the loop adds is `(pk, id(a), role)` for one of the looped addresses `a`. |
| Store.LinkManyKeeps | main.py:631-636 | Linking keeps the address table well formed, changes no stored id and removes no triple. |
| Store.LinkParticipantsSpec | main.py:630-636 | After linking a message, every non-empty address of each list is linked under its own role; no id changed, no triple was removed, and every new triple is `(pk, id(a), role)` for an address `a` of that role's list. |
| Store.MaxUidOf | main.py:37-41 | `MAX(CAST(uid AS INTEGER))`: `None` for no uids; otherwise the numeric value of some uid, at least that of every uid. |
| Store.MaxUidIsNumeric | main.py:37-41 | The maximum is numeric: `{"9", "10"}` gives 10. |
| Store.Database.constructor | main.py:239-292 | A fresh database has empty tables and id counters at 1. |
| Store.Database.ExistingUids | main.py:118-121 | `get_existing_uids` (and `get_downloaded_uids` of compare_uids_by_year.py:28-34, the same query): exactly the uids stored for the folder. |
| Store.Database.GetMaxUid | main.py:37-41 | `None` exactly when the folder has no stored uid; otherwise the numeric maximum of the folder's stored uids. |
| Store.Database.SetUidValidity | main.py:302-307 | INSERT OR REPLACE: the folder's value becomes `v`; the other folders keep theirs. |
| Store.Database.MarkEmailDownloaded | main.py:316-341 | Insert-or-ignore on `(uid, folder)` of the row with `str()`-converted fields; afterwards `is_email_downloaded` holds. |
| Store.Database.GetOrCreateEmailAddress | main.py:44-55 | The table and the returned id are those of `Resolve`; the table stays well formed. |
| Store.Database.GetOrCreateEmail | main.py:58-81 | One `email` row is always added, because there is no key on `(uid, folder)`. The lookup by `message_id = ?` finds nothing exactly when the Message-ID is `None`; otherwise it returns a row of this uid and folder. |
| Store.Database.GetOrCreateEmailByUid | migration_script.py:87-96 | One row with a NULL message id is always added, and the pk of a row of this uid and folder is returned. |
| Store.Database.AddParticipant | main.py:103-111 | The address is resolved, and the triple is inserted only when the id is truthy. |
| Store.Database.LinkAll | main.py:631-636 | Linking every address of a list under one role, left to right, gives the tables of `LinkMany`. |
| Store.Database.LinkMessage | main.py:630-636 | Linking a message's sender and its `to`, `cc` and `bcc` lists gives the tables of `LinkParticipants`. |
| Sync.FindUidValiditySpec | main.py:533-538 | No value exactly when no status name upper-cases to `UIDVALIDITY`; otherwise the value of such an entry. |
| Sync.CheckUidValiditySpec | main.py:528-547 | The folder passes exactly when a UIDVALIDITY is reported and the stored one is absent or equal. Only a baseline writes; a mismatch or a missing value writes nothing and stops the folder loop. |
| Sync.SkippedIgnoresCase | main.py:566-570 | The denylist match ignores letter case: `Junk`, `INBOX.Trash` and `[Gmail]/Spam` are skipped, `INBOX` is not. |
| Sync.Unskipped | main.py:566-570 | The folders the loop does not skip: exactly the listed folders that are not denylisted. |
| Sync.TopUid | main.py:587-593 | The largest numeric uid of a folder, `None` exactly for an empty folder. |
| Sync.From | main.py:587-593 | The messages whose numeric uid is at least the bound, and no others. |
| Sync.WindowSpec | main.py:587-593 | The window holds every message above the stored maximum; the only other message it can hold is the folder's last one. |
| Sync.WindowReturnsLastMessage | main.py:587-593 | With nothing newer than the stored maximum, `max+1:*` still returns the folder's last message. |
| Sync.FetchUids | main.py:606 | A batch fetch returns exactly the folder's messages whose uid is in the batch. |
| Sync.FindMessage | main.py:659 | The message with the uid if the folder has one, else `None`. |
| Sync.BackfillRowsSpec | main.py:437-467 | Backfilling never changes a stored row and leaves exactly the stored keys plus the keys of the items. |
| Sync.Backup.constructor | main.py:16 | `failed_emails` starts empty. |
| Sync.Backup.LogError | main.py:142-149 | The pair `(uid, folder)` is appended to `failed_emails`. |
| Sync.Backup.RecordMessage | main.py:616-629 | The downloaded row is inserted if absent, an `email` row is always added, and the lookup yields a pk exactly when the Message-ID is present. |
| Sync.Backup.StoreMessage | main.py:611-639 | A message fails exactly when extraction raises or it has no Message-ID, and then its pair is appended. With no Message-ID the downloaded and `email` rows are still stored, and no participant is linked. On success the sender is linked, and so are the to, cc and bcc addresses as the corrected parser reads them (see Left out and Findings). |
| Sync.Backup.StoreIntact | main.py:616-639 | For a message whose extraction succeeds, the downloaded row is inserted if absent and an `email` row is added. Without a Message-ID the pair is appended and nothing is linked. Otherwise the returned pk is the new row of this uid and folder, and the sender and the to, cc and bcc addresses (as the corrected parser reads them) are linked to it. |
| Sync.Backup.StorePending | main.py:607-639 | A message whose uid was stored at the start of the attempt changes nothing. Otherwise its row is the only new key, it is stored when intact, and `failed_emails` grows by its pair exactly when it fails. |
| Sync.Backup.StoreBatch | main.py:607-639 | Uids already stored at the start of the attempt are passed over. Every other message that does not break is stored. A failing message does not stop its siblings. Rows are only added, all in this folder. `failed_emails` grows by exactly `FailedOf`: one pair per failing, not yet stored message, in message order. |
| Sync.Backup.StoreListedBatch | main.py:601-639 | Fetching batch `k` and storing it covers every intact, unstored message of the batch. `failed_emails` grows by exactly the pairs of the messages of that batch (`FailedIn`). |
| Sync.BatchesStoredCovers | main.py:600-640 | Once every batch is handled, every listed message that was not stored before and does not break is stored. |
| Sync.FailedOfSpec | main.py:607-639 | A pair is in `FailedOf` exactly when it comes from a message of the batch that was not stored before and fails in the pass, and it names this folder. |
| Sync.FailedInFetch | main.py:601-607 | Walking the folder's messages and keeping those of a batch gives the same pairs as fetching the batch and walking the fetched messages. |
| Sync.FailedInStored | main.py:602-604 | A batch whose uids are all stored gives no pair, so skipping it without a fetch appends nothing. |
| Sync.FailedOfAppend | main.py:607-639 | The pairs of two runs of messages are the pairs of the first followed by those of the second. |
| Sync.BatchesFailedFrom | main.py:600-640 | Every pair of the first `k` batches names this folder and a uid that was not stored before, of a failing message in one of those batches. |
| Sync.AttemptFailedSpec | main.py:581-640 | Every pair an attempt appends is a listed uid of this folder, not stored before, of a failing message. When the attempt does not raise, every such message has its pair. |
| Sync.Backup.StoreNextBatch | main.py:600-640 | One pass that stores a batch keeps the tables growing only by rows of the folder for listed, unstored uids, and leaves every batch stored so far covered, this one included. |
| Sync.Backup.StoreBatches | main.py:599-640 | The batch loop raises exactly when the failing batch is one that is fetched, i.e. not wholly stored. Without a raise every listed, unstored, intact message is stored; after a raise at batch `k`, every such message listed before batch `k` is, and new rows come only from that prefix of the listing. `failed_emails` grows by exactly the pairs of the batches before the one that raised, or of all batches. |
| Sync.Backup.Attempt | main.py:581-640 | An attempt lists the window from the stored maximum and reads the stored uids once. It raises only through the listing or a batch fetch, never through a message. Every intact message among the uids it gets through (`Handled`: none when the listing raises, the listing up to the failing batch, or all of it) is stored, and new rows come only from those uids. When it does not raise, that is every listed intact message. `failed_emails` grows by exactly `AttemptFailed` of the uids stored at its start. |
| Sync.Backup.AttemptNext | main.py:581-640 | One pass of the retry loop: the attempt starts from the uids stored at that moment, which include every earlier starting point, and whether it raises is `AttemptRaises` of its outage and that start. Without a raise every intact message of its window is stored. |
| Sync.Backup.EnsureFolderAndUidValidity | main.py:528-547 | The outcome is `CheckUidValidity` of the stored value and the status; only a baseline writes. |
| Sync.Backup.SyncFolder | main.py:572-647 | One to three attempts, every one before the last raising, stopping at the first that does not raise (`RetryShape`). The folder fails exactly when all three raise. Attempt `i+1` raises exactly as `AttemptRaises` says for its outage and the uids stored when it began (`AttemptsFrom`). When the folder does not fail, every intact message of the last attempt's window is stored. Every uid an attempt started from stays stored. When the folder does not fail and the server lists it in increasing uid order, every intact message of the window from the maximum stored before the first attempt is stored (`WindowStored`). New rows are uids of this folder, and `failed_emails` grows only by its pairs. |
| Sync.Backup.RetryOne | main.py:656-670 | A retry stores the entry's downloaded row when it succeeds, and appends the entry again when it fails. |
| Sync.Backup.RetryFailed | main.py:652-673 | The queue only grows by re-appended entries. A new row comes from a visited entry. Every successful retry is stored, and every failed one is queued again. A persistently failing entry exhausts the fuel. |
| Sync.Backup.BackfillFromJson | main.py:437-467 | A missing file changes nothing. Otherwise the table is `BackfillRows`, and the count is the number of rows added. |
| Sync.Backup.VisitFolder | main.py:566-647 | A denylisted folder changes nothing and does not halt. Otherwise, with `o` the UIDVALIDITY outcome of the stored value and the status, the loop halts with `o` exactly when the status raises or `o` stops the run, and then nothing changes either. Otherwise the folder joins the attempted folders, its attempts are those of SyncFolder, and it joins the failed folders exactly when all three attempts raised. The folder loop's state `RunLoop` is kept, including the stored windows of `FoldersStored`. |
| Sync.Backup.Run | main.py:550-683 | Stored rows and UIDVALIDITY values are never changed. New rows, failures and failed folders belong to attempted folders. When the loop runs out, the attempted folders are exactly the non-denylisted server folders, in order. When it breaks at folder `i`, `o` is the UIDVALIDITY outcome of that folder, it stops the run, and the attempted folders are the non-denylisted ones before `i`. `Aborted(Some(i))` means folder `i`'s status raised, which ends the run before the retry phase. Every attempted folder that did not fail and that the server lists in increasing uid order has every intact message of its window, from the maximum stored when the run began, stored at the end (`FoldersStored`). |
| Sync.Backup.SyncAndRecord | main.py:572-647 | A folder that passed its UIDVALIDITY check is synced, joins the failed folders exactly when all three attempts raised, and keeps the folder loop's state `RunLoop`. |
| Sync.WindowAscending | main.py:587-593 | A window of a folder listed in increasing uid order is in increasing uid order. |
| Sync.HandledDownward | main.py:589-601 | In a listing in increasing uid order, a prefix holds every listed message whose uid is not above one of the prefix's uids. |
| Sync.ProgressStep | main.py:581-640 | One attempt keeps a folder listed in uid order stored in that order: every intact message above the first maximum and not above a stored uid is stored. |
| Sync.ProgressDone | main.py:572-647 | Stored in uid order, and with the last attempt's whole window stored, every intact message of the window from the first attempt's maximum is stored. |
| Sync.SyncFolderDone | main.py:572-647 | When the retry loop stops, its state gives the folder's contract, including the stored window when the folder did not fail and is listed in uid order. |
| Sync.FoldersStoredStep | main.py:566-647 | Syncing one more folder keeps every stored window: a folder attempted for the first time still holds the uids it held when the run began, and a folder seen again keeps the window of its first sync or is among the failed ones. |
| Sync.RunLoopStep | main.py:566-647 | Syncing a folder that is not denylisted keeps the folder loop's state, with the folder attempted and, when it failed, among the failed folders. |
| Migration.LockedIgnoresCase | migration_script.py:17 | The locked-database test ignores letter case. |
| Migration.SafeCommit | migration_script.py:11-22 | A commit is attempted at most `retries` times. It succeeds at the first attempt that does; a non-lock error is re-raised at once. It gives up exactly when every attempt hit a locked database. |
| Migration.EmailsAddedStep | migration_script.py:87-96 | Each processed row adds one fresh `email` row under the next key. |
| Migration.RowLinksOnlyOwn | migration_script.py:182-212 | Every triple that linking a row adds is one the row asks for: its sender under `from`, or a parsed address under its role. |
| Migration.RowsTripleSpec | migration_script.py:182-212 | `RowsTriple` holds exactly when the triple is one that some row `i` asks for under `pks[i]`. |
| Migration.RowLinksSpec | migration_script.py:182-212 | Linking a row produces its sender triple under `from` and a triple for every parsed address under its role. |
| Migration.RowLinkedStable | migration_script.py:179-212 | A row's triples stay once linked: later rows only add ids and triples. |
| Migration.CommitPointsSpec | migration_script.py:214-216 | The progress commits are exactly at the multiples of `BATCH_SIZE` and at the total, in increasing order. |
| Migration.CommitWithinBatch | migration_script.py:214-216 | Every processed row is followed by a commit within `BATCH_SIZE` rows. |
| Migration.MigrateRow | migration_script.py:180-212 | One new `email` row of the row's uid and folder; the address and participant tables are exactly `RowLinks` of the old ones: the sender under `from`, then the parsed `to`, `cc` and `bcc`. Every new triple is one the row asks for. |
| Migration.Migrate | migration_script.py:167-225 | `processed` ends at the row count. Old `email` rows are kept, and one fresh row is added per source row. Every row's triples are present, and every new triple is one that some processed row asks for under its key (`OnlyRowTriples`). `commits` lists the progress commits, at `CommitPoints`, and then the final one. |
| Recovery.LineUid | recover_missing_inbox_mails.py:116 | A line contributes its stripped text exactly when that is a digit string. |
| Recovery.LoadMissingUids | recover_missing_inbox_mails.py:114-116 | Every loaded uid is a stripped digit string. |
| Recovery.LoadMissingUidsMembers | recover_missing_inbox_mails.py:114-116 | A uid is loaded exactly when some line strips to it and it is a digit string, so blank lines are dropped. |
| Recovery.LoadMissingUidsAppend | recover_missing_inbox_mails.py:114-116 | File order is kept: the uids of two parts of a file are the two parts' uids, in order. |
| Recovery.LoadMissingUidsOfLog | main.py:135-136 | A log written one uid per line by `log_missing_uids` is read back unchanged. |
| Recovery.ToFetchSpec | recover_missing_inbox_mails.py:133-137 | The uids to fetch are exactly the logged digit strings not stored for INBOX. |
| Recovery.Intact | recover_missing_inbox_mails.py:154-174 | The messages whose extraction does not raise. |
| Recovery.Reached | recover_missing_inbox_mails.py:154-174 | An attempt handles a prefix of the fetched messages, and all of them when it does not raise. |
| Recovery.StoreItemsSpec | recover_missing_inbox_mails.py:46-54 | Storing keeps every row, adds an INBOX row for each message, and adds rows for these messages only. |
| Recovery.StoreItemsIdempotent | recover_missing_inbox_mails.py:46-54 | Re-running the same inserts changes nothing: a retried batch never duplicates rows. |
| Recovery.StoreItemsPresent | recover_missing_inbox_mails.py:46-54 | Storing messages that are all stored already changes nothing. |
| Recovery.BatchItemsFromFetched | recover_missing_inbox_mails.py:147-181 | Every recovered message of a batch is an intact message the server returned for it. |
| Recovery.BatchItemsComplete | recover_missing_inbox_mails.py:147-181 | A batch that does not give up recovers every intact message returned for it. |
| Recovery.BatchItemsGiveUp | recover_missing_inbox_mails.py:180-181 | A batch that gives up keeps what its three attempts handled before raising. |
| Recovery.RecoveredMayRepeat | recover_missing_inbox_mails.py:158-179 | An attempt that raises after handling a message is retried from the start, so `recovered` gets that message twice. |
| Recovery.RecoverItemsFromBatches | recover_missing_inbox_mails.py:145-181 | Every recovered message is an intact INBOX message whose uid was to be fetched. |
| Recovery.Metadata | recover_missing_inbox_mails.py:183-192 | The metadata file is untouched exactly when nothing was recovered; otherwise it is the old items followed by the recovered ones. |
| Recovery.StoreReached | recover_missing_inbox_mails.py:154-173 | The loop stores each intact message it reaches and returns exactly those, in order. |
| Recovery.StoreAttempt | recover_missing_inbox_mails.py:154-174 | The messages of one attempt are those it reaches intact, and each of them is stored. |
| Recovery.StoreMessage | recover_missing_inbox_mails.py:155-172 | A message that extracts is stored and appended to the recovered list. One that raises is skipped and leaves both unchanged. |
| Recovery.RecoverBatch | recover_missing_inbox_mails.py:147-181 | Up to three attempts, each from the start of the batch. It gives up exactly when all three raise, and a failing message does not count as a failed attempt. |
| Recovery.RecoverNext | recover_missing_inbox_mails.py:146-183 | One batch of the loop keeps the loop invariant: `recovered` is the recovered messages of the batches so far, the table holds them, and `gaveUp` holds exactly the earlier batches that gave up. |
| Recovery.Recover | recover_missing_inbox_mails.py:133-192 | `to_fetch` comes from the log and the stored INBOX uids. The batches of 20 are recovered in order. `gaveUp` holds exactly the batches whose three attempts raised. The table and the metadata follow `recovered`. |
| Recovery.RecoverSpec | recover_missing_inbox_mails.py:140-181 | Old rows are unchanged and every recovered message has a row. New rows belong to recovered INBOX messages that were logged and not yet stored; with nothing to fetch, nothing changes. |
| Export.StripAll | export_sqlite_to_json_chunks.py:32 | Each piece stripped, same length. |
| Export.SplitField | export_sqlite_to_json_chunks.py:26-33 | A falsy field gives `[]`; otherwise one stripped piece per comma plus one, keeping empty pieces. |
| Export.SplitFieldOfJoin | export_sqlite_to_json_chunks.py:26-33 | The `", "`-joined lists the backup stores come back unchanged, provided the addresses are non-empty, stripped and free of commas. |
| Export.MonthKey | export_sqlite_to_json_chunks.py:67-70 | A date that parses gives its `YYYY-MM` month; a date that does not parse gives `"unknown"`. |
| Export.FileNameSpec | export_sqlite_to_json_chunks.py:56 | The name is the month, `-`, a digit string whose value is the part, and `.json`. |
| Export.Exported | export_sqlite_to_json_chunks.py:65-66 | One record per row, in table order, each `row_to_dict` of its row. |
| Export.Exporter.constructor | export_sqlite_to_json_chunks.py:47-49 | Empty `buffers`, `sizes` and `file_counters`, and nothing written. |
| Export.Exporter.Flush | export_sqlite_to_json_chunks.py:51-63 | An absent or empty buffer is a no-op. Otherwise the buffer is written as the month's next part under its file name, the counter advances, and the buffer and its size reset. The loop invariant is kept. |
| Export.Exporter.EnsureMonth | export_sqlite_to_json_chunks.py:72-75 | A new month gets an empty buffer, size 0 and part counter 1; a known month is unchanged. |
| Export.Exporter.Append | export_sqlite_to_json_chunks.py:85-86 | The record joins its month's buffer, and the size grows by its estimate. |
| Export.Exporter.Add | export_sqlite_to_json_chunks.py:65-86 | The buffer is flushed first exactly when it is non-empty and adding the record would pass the cap; then the record is appended. The invariant is kept: sizes are buffer sums, and every file is within the cap unless it holds one record. |
| Export.Exporter.FlushAll | export_sqlite_to_json_chunks.py:89-90 | Every buffer ends written and empty. |
| Export.ExportRows | export_sqlite_to_json_chunks.py:65-90 | Each month's files hold exactly that month's records in table order, and every record is written exactly once. A month's parts are numbered 1, 2, … as written. Every file is non-empty, named after its month and part, and within the cap unless it holds one record. |
| Export.ExportComplete | export_sqlite_to_json_chunks.py:88-90 | Once every buffer is empty, the files hold every processed record exactly once, month by month in order. |
| MessageIdBackfill.NewMessageIdFirstHeader | backfill_message_id.py:33-41 | The first header whose lower-cased name is `message-id` gives the value written. |
| MessageIdBackfill.NewMessageIdNoHeader | backfill_message_id.py:33-41 | Without a Message-ID header, `""` is written. |
| MessageIdBackfill.DoneSpec | backfill_message_id.py:24-30 | `folders_done` holds exactly the folders of earlier rows that were selected successfully. |
| MessageIdBackfill.SelectOnlyFirstTime | backfill_message_id.py:28-30 | `folder.set` is issued for a row exactly when no earlier row selected its folder successfully; once selected, a folder is never selected again. |
| MessageIdBackfill.RowValueSource | backfill_message_id.py:32-41 | A value written for a row is the Message-ID of the message with its uid in the folder the session had selected. |
| MessageIdBackfill.WrongFolderFetched | backfill_message_id.py:28-32 | As written, for rows `A`, `B`, `A` the third row is fetched from folder `B` and gets `B`'s Message-ID. |
| MessageIdBackfill.CorrectedFetchesOwnFolder | backfill_message_id.py:28-32 | With the correction, every value written for `(uid, folder)` is the Message-ID of that uid in that folder. |
| MessageIdBackfill.Values | backfill_message_id.py:25-54 | One value per row, `None` exactly for a row that raises. |
| MessageIdBackfill.ApplyRowsSpec | backfill_message_id.py:42-45 | A `downloaded_emails` row ends with the last value written for its key; a row no update reached is unchanged. |
| MessageIdBackfill.ApplyEmailsSpec | backfill_message_id.py:46-49 | An `email` row ends with the last value written for its uid and folder; a row no update reached is unchanged. |
| MessageIdBackfill.SameValueInBothTables | backfill_message_id.py:42-49 | The `downloaded_emails` row and the `email` rows of the same uid and folder end with the same message id. |
| MessageIdBackfill.NonEmptyIdsUntouched | backfill_message_id.py:19-20 | A row with a non-empty message id is never changed. |
| MessageIdBackfill.CommitPointsSpec | backfill_message_id.py:50-54 | A periodic commit happens exactly at a row number divisible by 1000 whose row did not raise. |
| MessageIdBackfill.ProcessRow | backfill_message_id.py:26-41 | One row: the select step, whether `folder.set` was issued, and the value read. |
| MessageIdBackfill.WriteMessageId | backfill_message_id.py:42-49 | The two UPDATE statements of a row set the message id of its `downloaded_emails` row and of the `email` rows of its uid and folder, and keep the database well formed. |
| MessageIdBackfill.StoreRow | backfill_message_id.py:31-49 | A row that raised writes nothing; any other row advances both tables by one step of `ApplyRows`/`ApplyEmails`. |
| MessageIdBackfill.RecordRow | backfill_message_id.py:28-54 | One row extends the `folder.set` calls, the logged rows and the commit points exactly as the row-by-row specification says. |
| MessageIdBackfill.UpdateMessageIds | backfill_message_id.py:13-58 | The tables end as `ApplyRows`/`ApplyEmails` of the row values. The `folder.set` calls, the logged rows and the commit points are those of the row-by-row specification. |
| CompareUids.YearOf | compare_uids_by_year.py:40-43 | A message without a date goes to 1900; otherwise to its year. |
| CompareUids.MissingUids | compare_uids_by_year.py:60 | Disjoint from the stored uids, within the server's, and holding every server uid that is not stored. |
| CompareUids.UidsOfYearSpec | compare_uids_by_year.py:37-45 | A bucket holds exactly the uids of the fetched messages of its year, and its size is their number. |
| CompareUids.ExactlyOneBucket | compare_uids_by_year.py:37-45 | With distinct uids, a message's uid is in the bucket of year `y` exactly when `y` is its year. |
| CompareUids.SortYears | compare_uids_by_year.py:66 | The distinct years in ascending order, each once. |
| CompareUids.AddMessage | compare_uids_by_year.py:40-44 | Adding one fetched message keeps the year map exact: its keys are the years met and each list holds the uids of its year in fetch order, with the key order listing each year once. |
| CompareUids.CategorizeByYear | compare_uids_by_year.py:37-45 | The keys are exactly the years met, and each bucket lists its year's uids in fetch order. |
| CompareUids.Report | compare_uids_by_year.py:66-72 | The years come ascending and once each, each with its bucket size, and `total` is the sum of the sizes. |
| CompareUids.Compare | compare_uids_by_year.py:54-72 | The missing uids are the server's minus the stored ones. The years come ascending, with their counts, and `total` equals both the sum of the counts and the number of messages fetched. |
| Tally.CountsAddUp | analyze_email_years.py:14-22 | Each record is counted under exactly one key: the counts of distinct keys covering all records add up to their number. |
| Tally.CountPositive | analyze_email_years.py:14-22 | A key has a positive count exactly when some record carries it. |
| Tally.DistinctPermutation | analyze_email_years.py:24 | Sorting a dict's keys lists each key once. |
| YearAnalysis.YearKey | analyze_email_years.py:15-20 | `"unknown"` for a missing date or one shorter than four characters; otherwise exactly the date's first four characters. |
| YearAnalysis.SortKeys | analyze_email_years.py:24 | `sorted` under Python's string order: ordered, and a permutation of its input. |
| YearAnalysis.SortedKeysOrdered | analyze_email_years.py:24-25 | In the sorted keys, every key is at most every later one. |
| YearAnalysis.CountRecord | analyze_email_years.py:15-21 | Counting one more record keeps every counter equal to the number of records carrying its key, with the key order listing each key once. |
| YearAnalysis.CountYears | analyze_email_years.py:14-22 | `total` is the number of records, the keys are exactly the records' keys, and each count is the number of records with that key. |
| YearAnalysis.SortDistinctKeys | analyze_email_years.py:24 | `sorted` of the counter keys lists every key once, in ascending string order. |
| YearAnalysis.Report | analyze_email_years.py:24-25 | The keys come sorted and once each, each with its count. |
| YearAnalysis.AnalyzeYears | analyze_email_years.py:7-25 | The keys come sorted, once each, and are exactly those of the records. Each is printed with its number of records, and the counts add up to `total`, the number of records. |

## Left out

- The IMAP client is not modelled; what it returns is an input:
  - login and the folder list;
  - `folder.status`, `folder.set` and `fetch`.
  Which calls raise is given by outage plans and failure sets.
- Not modelled: credentials (keyring and `getpass`), logging, `print`,
  timestamps and `time.sleep` between attempts.
- Attachment text extraction (fitz, python-docx) and the writing of
  attachments and directories are not modelled. Only the names of the saved
  files are.
- `mimetypes.guess_extension` is an input.
- The export's JSON encoding and its byte estimate are inputs, and so is
  `datetime.fromisoformat` with `strftime`. JSON loading and dumping of the
  metadata file are represented by lists of records.
- The migration's floating-point progress and ETA output is not modelled.
  The export cap is the integer `int(29.5 * 1024 * 1024)` = 30932992.
- Message dates in `compare_uids_by_year.py` are reduced to an optional year.
  The mail library's own default date for an unparsable header is not
  modelled.
- `lower()` and `upper()` change ASCII letters only; Unicode case mapping is
  not modelled.
- Rows that SQLite returns without `ORDER BY` come in an order given as input.
- `fetchone()` on a query matching several rows returns some matching row,
  not a specific one.
- Commits are steps in the model; durability and rollback are not modelled.
  In the backfill, the commit points are reported as an output. In the
  migration, only the progress commits and the final one are (see
  Migration.Migrate below).
- Sync.Backup.StoreMessage: links the to, cc and bcc participants through
  `Recipients.ParseRecipientsCorrected`. As written, the program hands the
  library's tuples to `parse_recipients`, which returns `[]` for them
  (main.py:92-100, 631-636), so it links no to, cc or bcc participant at all;
  only the sender is linked. The first Findings row states this.
- Sync.Backup.StoreIntact: the same corrected parser as
  Sync.Backup.StoreMessage, for the same reason.
- Recovery.LineUid and Recovery.LoadMissingUids: Python's `isdigit()` also
  accepts non-ASCII digits (`'²'`, `'٣'`); the model accepts only `'0'` to
  `'9'`. `log_missing_uids` writes only `str(int)`, so a log it wrote holds
  ASCII digits only.
- Sync.Backup.SyncFolder: states that `failed_emails` grows only by pairs
  of the folder. The exact pairs are stated per attempt, by
  Sync.Backup.Attempt through `AttemptFailed`, and are not composed over the
  retries.
- Sync.Backup.SyncFolder: states that the whole window from the maximum
  stored before the first attempt is stored only when the server lists the
  folder in increasing uid order (`Ascending`). Section 2.3.1.1 of RFC 3501
  numbers a mailbox's messages in increasing uid order, so this is the order
  a server lists them in. For another order only the last attempt's window
  is claimed, because an earlier attempt that raised part-way may have
  stored uids above messages it never reached.
- Sync.Backup.VisitFolder: the same as Sync.Backup.SyncFolder for
  `failed_emails`.
- Sync.Backup.Run: the stored windows of `FoldersStored` are claimed for
  folders listed in increasing uid order only, as for Sync.Backup.SyncFolder.
- Sync.Backup.RetryFailed: bounded by `fuel` and makes no termination claim.
  The source's loop never ends while a message fails for good, because each
  failure appends the entry again.
- Sync.Backup.Run: after an exception other than `RuntimeError` in the
  UIDVALIDITY check, the run ends before the retry phase. The logout and
  close on the way out are not modelled.
- Text.CastInteger: reads the leading ASCII digits only. SQLite's `CAST(x AS
  INTEGER)` also skips leading whitespace and accepts a sign, and it saturates
  at 64 bits. The uids it is applied to are written as `str(n)`, which has
  neither whitespace nor a sign.
- Migration.Migrate: `commits` does not record the commit after each new
  `email_address` row (migration_script.py:83) or the commit after each
  row's `email` insert (migration_script.py:94), so it lists only the
  progress commits and the final one.
- Migration.Migrate: every commit is taken to succeed. `safe_commit`'s
  failure paths are modelled separately in Migration.SafeCommit.
- `process_folder` (main.py:164-232) is never called and is not modelled.
- The `categories`, `email_categories`, `person` and `person_email` tables
  are created but never used, so they are not modelled.
- backfill_email_address_info.py calls a function that main.py does not
  define, and it reads columns the `email` table lacks, so there is no logic
  to model.
- MessageIdBackfill.UpdateMessageIds follows the script as written. The
  corrected folder selection exists only as
  `MessageIdBackfill.SelectedCorrected` and
  `MessageIdBackfill.RowValueCorrected`, with its property proved. No other
  part of the model consumes the backfilled values.

## Findings

| source | as written | input that shows it | evidently intended | confidence | as-written member | corrected member |
|---|---|---|---|---|---|---|
| main.py:92-100 | Only a `list` is parsed element by element. Any other non-string value gives `[]`, including the tuple the mail library hands over as a message's `to`, `cc` and `bcc`. | a message whose `to` is the tuple `("ann@example.com",)`: no `to` participant is linked, although the joined string stored for it parses to that address | any sequence of addresses, tuple or list, is parsed element by element | medium (relies on the library returning tuples), not executed | Recipients.TupleRecipientsLost | Recipients.CorrectedFormsAgree |
| backfill_message_id.py:28-32 | `folder.set` is issued only for a folder not yet in `folders_done`, so returning to a folder seen earlier fetches from whichever folder was selected last | missing rows `("1","A")`, `("1","B")`, `("2","A")`: the third row fetches uid 2 from folder `B` and writes `B`'s Message-ID to `A`'s row | select the row's folder whenever it is not the one currently selected | high, not executed | MessageIdBackfill.WrongFolderFetched | MessageIdBackfill.CorrectedFetchesOwnFolder |

`Sync` uses the corrected `parse_recipients`, `Recipients.ParseRecipientsCorrected`.

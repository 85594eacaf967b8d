# Auto-download bookkeeping of telegram-files, in Dafny

This project models the part of telegram-files that decides what to
download automatically.

- **The per-chat registry** (`SettingAutoRecords`) is a list of items keyed
  by `(telegramId, chatId)`. Each item carries the chat's rule and its
  history-scan cursor.
- **The holder** (`AutoRecordsHolder`) loads the registry once. It
  reconciles the registry with a new configuration and tells the remove
  listeners which chats were dropped.
- **The scheduler** (`AutoDownloadVerticle`) keeps one waiting queue per
  account. It polls messages for download while slots are free, scans a
  chat's history one file type at a time, and respects the daily download
  window.
- **The file record** (`FileRecord`) has the null-aware status tests, the
  copy that refreshes two source fields, and the row mapping.
- **The web dialog's rule editor** (`auto-download-dialog.tsx`) has the
  reducers that edit a rule, the destination-folder check that guards
  submit, and the reads of the chat's backfill bits.

Each Dafny module follows one source file:

| module | file |
|---|---|
| `AutoRecords` | `setting_auto_records.dfy` |
| `Holder` | `auto_records_holder.dfy` |
| `AutoDownload` | `auto_download_verticle.dfy` |
| `Files` | `file_record.dfy` |
| `Dialog` | `auto_download_dialog.dfy` |
| `Wrappers` | `wrappers.dfy`: `Option` and `Result` |
| `Sequences` | `sequences.dfy`: the no-duplicates predicate |

Classes are used where the source updates objects in place.
`SettingAutoRecords`, `AutoRecordsHolder` and `AutoDownloadVerticle` are
classes whose methods are proved against pure specification functions. The
properties are proved as lemmas about those functions.

Outside services are parameters. These are the Telegram client, the
database, the account registry and the clock:

- `accounts: map<int, bool>`: an account id that is absent has no running
  client; the value says whether the client is authorised.
- The search call, the stored-file lookup, the downloading-file count and
  the fetched message are parameters. For the search, the stored-file
  lookup and the fetch, `None` stands for a failed call. For the
  downloading-file count, `None` stands for a null count, which leaves
  `limit` free slots.

Java `null` becomes `Option`. An exception becomes a `Result` failure:
`Collectors.toMap` on a duplicate key, `Enum.valueOf` on an unknown name,
and the unboxing of a null column.

## Model

| member | source | states |
|---|---|---|
| AutoRecords.HasKey | api/src/main/java/telegram/files/repository/SettingAutoRecords.java:60-62 | true iff some item of the list has that telegram id and chat id |
| AutoRecords.NewItem | api/src/main/java/telegram/files/repository/SettingAutoRecords.java:69-71 | the three-argument add builds an item of that account, chat and rule with a fresh cursor: no type yet, from message 0 |
| AutoRecords.SettingAutoRecords.Exists | api/src/main/java/telegram/files/repository/SettingAutoRecords.java:60-62 | `exists(t, c)` holds iff some held item has key `(t, c)` |
| AutoRecords.SettingAutoRecords.constructor | api/src/main/java/telegram/files/repository/SettingAutoRecords.java:52-54 | a fresh registry holds no items |
| AutoRecords.SettingAutoRecords.FromItems | api/src/main/java/telegram/files/repository/SettingAutoRecords.java:56-58 | the registry holds exactly the given list |
| AutoRecords.WithoutKey | api/src/main/java/telegram/files/repository/SettingAutoRecords.java:73-75 | the list never grows; an item is in it iff it was in the input and has another key |
| AutoRecords.SettingAutoRecords.Add | api/src/main/java/telegram/files/repository/SettingAutoRecords.java:64-67 | every item with the new item's key is removed and the item is appended; the key exists afterwards; unique keys stay unique |
| AutoRecords.AddReplacing | api/src/main/java/telegram/files/repository/SettingAutoRecords.java:64-67 | after `removeIf` then `add`, the item is last and the list holds exactly the item and the old items of other keys |
| AutoRecords.AddReplacingPlacesItemLast | api/src/main/java/telegram/files/repository/SettingAutoRecords.java:64-67 | after `add(item)` the item is last and is the only one with its key |
| AutoRecords.AddReplacingKeepsOtherKeys | api/src/main/java/telegram/files/repository/SettingAutoRecords.java:64-67 | the items of every other key are kept, in their original order |
| AutoRecords.AddReplacingKeepsKeysUnique | api/src/main/java/telegram/files/repository/SettingAutoRecords.java:64-67 | if keys were unique before `add(item)`, they are unique after it |
| AutoRecords.SettingAutoRecords.AddRule | api/src/main/java/telegram/files/repository/SettingAutoRecords.java:69-71 | the three-argument add appends a fresh item unconditionally, so the length grows by one |
| AutoRecords.AddRuleCanDuplicateKey | api/src/main/java/telegram/files/repository/SettingAutoRecords.java:69-71 | appending with the three-argument add can leave two items with one key |
| AutoRecords.SettingAutoRecords.Remove | api/src/main/java/telegram/files/repository/SettingAutoRecords.java:73-75 | after `remove(t, c)` the key no longer exists and unique keys stay unique |
| AutoRecords.WithoutKeyKeepsOtherKeys | api/src/main/java/telegram/files/repository/SettingAutoRecords.java:73-75 | removing one key keeps the items of every other key, in order |
| AutoRecords.WithoutKeyIdempotent | api/src/main/java/telegram/files/repository/SettingAutoRecords.java:73-75 | a second `remove` of the same key changes nothing |
| AutoRecords.WithoutKeyUnique | api/src/main/java/telegram/files/repository/SettingAutoRecords.java:73-75 | removing a key keeps unique keys unique |
| AutoRecords.ChatIndex | api/src/main/java/telegram/files/repository/SettingAutoRecords.java:77-81 | the per-account map succeeds iff the account's chat ids are distinct (`toMap` throws otherwise); its keys are exactly the account's chat ids, each mapped to a held item of that account and chat |
| AutoRecords.SettingAutoRecords.GetItems | api/src/main/java/telegram/files/repository/SettingAutoRecords.java:77-81 | `getItems(t)` is that map over the held items |
| AutoRecords.DecimalStringInjective | api/src/main/java/telegram/files/repository/SettingAutoRecords.java:33-35 | distinct numbers print as distinct decimal strings |
| AutoRecords.UniqueKeyIdentifiesKey | api/src/main/java/telegram/files/repository/SettingAutoRecords.java:33-35 | two items have the same `uniqueKey()` string iff they have the same key |
| AutoRecords.UniqueKey | api/src/main/java/telegram/files/repository/SettingAutoRecords.java:33-35 | the log key splits at its first `:` into the telegram id's decimal string and the chat id's decimal string |
| Holder.AutoRecordsHolder.constructor | api/src/main/java/telegram/files/AutoRecordsHolder.java:18-27 | an empty registry, no listeners, no calls made, not initialised |
| Holder.AutoRecordsHolder.RegisterOnRemoveListener | api/src/main/java/telegram/files/AutoRecordsHolder.java:33-35 | the listener is appended to the listener list |
| Holder.AutoRecordsHolder.Init | api/src/main/java/telegram/files/AutoRecordsHolder.java:37-58 | once initialised, `init` changes nothing; otherwise it becomes initialised exactly when the load succeeds, and each stored item of an authorised account is added with the replacing add |
| Holder.AddAuthorizedProperties | api/src/main/java/telegram/files/AutoRecordsHolder.java:47-54 | loading keeps keys unique; every item it adds is a stored item of an authorised account |
| Holder.Authorized | api/src/main/java/telegram/files/AutoRecordsHolder.java:47-54 | an account that is not found is never authorised; a found one is iff its client is authorised |
| Holder.AddAuthorized | api/src/main/java/telegram/files/AutoRecordsHolder.java:47-54 | every item after loading was held or is a stored item of an authorised account; every stored item of an authorised account has its key held |
| Holder.AutoRecordsHolder.AdmitIncoming | api/src/main/java/telegram/files/AutoRecordsHolder.java:61-74 | the reconcile loop yields `Admit` of the held list and the new configuration |
| Holder.AdmitOne | api/src/main/java/telegram/files/AutoRecordsHolder.java:61-74 | one pass of the reconcile loop appends the incoming item iff its key is not held and its account is authorised, and otherwise leaves the list as it was |
| Holder.Admit | api/src/main/java/telegram/files/AutoRecordsHolder.java:61-74 | the reconcile loop keeps the held list as a prefix and adds at most one item per incoming item |
| Holder.AdmitOnlyAppends | api/src/main/java/telegram/files/AutoRecordsHolder.java:61-74 | the held list is kept as a prefix; every appended item is an incoming item of an authorised account whose key was not yet held |
| Holder.AdmitCoversAuthorized | api/src/main/java/telegram/files/AutoRecordsHolder.java:61-74 | every incoming item of an authorised account ends up with its key held |
| Holder.Retained | api/src/main/java/telegram/files/AutoRecordsHolder.java:77-84 | an item survives `removeIf` iff it was held and its key is still configured |
| Holder.Dropped | api/src/main/java/telegram/files/AutoRecordsHolder.java:76-84 | an item is reported removed iff it was held and its key is no longer configured |
| Holder.SplitHeld | api/src/main/java/telegram/files/AutoRecordsHolder.java:76-84 | the `removeIf` pass splits the held list into exactly the retained and the dropped items, both in held order |
| Holder.DroppedIgnoresAdmitted | api/src/main/java/telegram/files/AutoRecordsHolder.java:61-84 | items added in the same update are never reported removed: the removed list depends only on the previously held items |
| Holder.RetainedKeepsHeld | api/src/main/java/telegram/files/AutoRecordsHolder.java:61-62 | a held item whose key is still configured is kept as it was, not replaced by the incoming item |
| Holder.ReconcileKeepsKeysUnique | api/src/main/java/telegram/files/AutoRecordsHolder.java:60-88 | reconciliation keeps the registry's keys unique |
| Holder.AutoRecordsHolder.NotifyRemoved | api/src/main/java/telegram/files/AutoRecordsHolder.java:86 | each listener is called once, in registration order, with the removed list |
| Holder.AutoRecordsHolder.OnAutoRecordsUpdate | api/src/main/java/telegram/files/AutoRecordsHolder.java:60-88 | the new held list is the admitted list minus the unconfigured keys; the removed list is exactly the held items whose key is gone, in held order; listeners are called iff that list is non-empty |
| Files.IsDownloadStatus | api/src/main/java/telegram/files/repository/FileRecord.java:146-151 | `isDownloadStatus(null)` is true iff the status is null; for a status it is true iff the stored name is that status's name; it fails iff a stored name is no status |
| Files.ParseDownloadStatus | api/src/main/java/telegram/files/repository/FileRecord.java:150-150 | `DownloadStatus.valueOf` returns the status with exactly that name, and fails iff no status has it |
| Files.ParseTransferStatus | api/src/main/java/telegram/files/repository/FileRecord.java:157-157 | `TransferStatus.valueOf` returns the status with exactly that name, and fails iff no status has it |
| Files.IsTransferStatus | api/src/main/java/telegram/files/repository/FileRecord.java:153-158 | the same three statements over the transfer status |
| Files.DownloadStatusUnique | api/src/main/java/telegram/files/repository/FileRecord.java:35-37 | a record is in at most one download status |
| Files.TransferStatusUnique | api/src/main/java/telegram/files/repository/FileRecord.java:39-41 | a record is in at most one transfer status |
| Files.DownloadStatusNames | api/src/main/java/telegram/files/repository/FileRecord.java:35-37 | the download statuses are exactly the five names, and parsing inverts naming |
| Files.TransferStatusNames | api/src/main/java/telegram/files/repository/FileRecord.java:39-41 | the transfer statuses are exactly the four names, and parsing inverts naming |
| Files.WithSourceField | api/src/main/java/telegram/files/repository/FileRecord.java:142-144 | the copy has the new id and downloaded size and equals the record in every other field |
| Files.WithSourceFieldRoundTrip | api/src/main/java/telegram/files/repository/FileRecord.java:142-144 | refreshing the two fields and then restoring the old values gives back the record |
| Files.FromRow | api/src/main/java/telegram/files/repository/FileRecord.java:95-116 | the mapping succeeds iff every primitive column without a default is present; a null album id and a null start date become 0; a null completion date stays null; the sensitive flag is the dialect's reading, with a non-zero integer meaning true; every other column is copied into its own field; a failure names the first null primitive column in constructor order |
| Files.SensitiveColumn | api/src/main/java/telegram/files/repository/FileRecord.java:103-103 | on PostgreSQL the boolean column as read; otherwise null iff the integer column is null, and true iff it is non-zero |
| AutoDownload.RuleQuery | api/src/main/java/telegram/files/AutoDownloadVerticle.java:203-214 | the query is null iff the rule is null or its query is blank, and otherwise it is the rule's query |
| AutoDownload.RuleFileTypes | api/src/main/java/telegram/files/AutoDownloadVerticle.java:203-214 | the rule's own types when the rule is present and its list is non-empty, otherwise photo, video, audio, file |
| AutoDownload.HandleRule | api/src/main/java/telegram/files/AutoDownloadVerticle.java:203-220 | returns the query and the types; a blank type cursor is moved to the first type and every other field is unchanged |
| AutoDownload.HandleRuleIdempotent | api/src/main/java/telegram/files/AutoDownloadVerticle.java:215-217 | normalising an item a second time changes nothing |
| AutoDownload.DownloadTime | api/src/main/java/telegram/files/AutoDownloadVerticle.java:222-236 | no window always allows downloads; an empty window (start equal to end) never does; the endpoints themselves are never allowed |
| AutoDownload.DownloadTimeIsOpenArc | api/src/main/java/telegram/files/AutoDownloadVerticle.java:231-235 | on a clock, both branches together mean "strictly inside the arc from start forward to end", so windows that wrap past midnight are handled |
| AutoDownload.AutoDownloadVerticle.IsDownloadTime | api/src/main/java/telegram/files/AutoDownloadVerticle.java:222-225 | without a time limit the verticle may always download |
| AutoDownload.SurplusSize | api/src/main/java/telegram/files/AutoDownloadVerticle.java:243-246 | `limit` when the count is null; otherwise never negative, and either 0 or `limit - downloading` |
| AutoDownload.ExceedsLimit | api/src/main/java/telegram/files/AutoDownloadVerticle.java:238-241 | exceeded iff there is no free slot or the queue is longer than the limit: not exceeded implies a free slot, exceeded implies one of the two causes, and a queue longer than the limit is always exceeded |
| AutoDownload.NotExceededMeansFreeSlot | api/src/main/java/telegram/files/AutoDownloadVerticle.java:238-246 | a scan passes the limit check iff fewer than `limit` files are downloading (or the count is null and `limit` is positive) and the queue, if any, holds at most `limit` messages |
| AutoDownload.AddWaiting | api/src/main/java/telegram/files/AutoDownloadVerticle.java:248-264 | refused iff the batch is empty, or the add is unforced and the queue holds more than 30; otherwise the old queue is a prefix of the new one and the de-duplicated batch is its tail |
| AutoDownload.ForcedAddAlwaysSucceeds | api/src/main/java/telegram/files/AutoDownloadVerticle.java:248-264 | a forced add of a non-empty batch, as new messages use, bypasses the length cap |
| AutoDownload.AutoDownloadVerticle.AddWaitingDownloadMessages | api/src/main/java/telegram/files/AutoDownloadVerticle.java:248-264 | returns whether the add happened and stores the new queue only then |
| AutoDownload.PollCount | api/src/main/java/telegram/files/AutoDownloadVerticle.java:276-281 | the number of messages polled is `min(surplus, queue length)`: at most the queue length and at most the free slots, equal to one of them, and zero without a free slot |
| AutoDownload.AutoDownloadVerticle.Download | api/src/main/java/telegram/files/AutoDownloadVerticle.java:266-283 | exactly `min(surplus, queue length)` messages are taken from the head, in FIFO order, and the rest stay queued; nothing changes without a queue or a free slot |
| AutoDownload.QueueIsFifo | api/src/main/java/telegram/files/AutoDownloadVerticle.java:260-283 | messages leave in arrival order: a tick that takes no more than the earlier queue takes only earlier messages |
| AutoDownload.DropChat | api/src/main/java/telegram/files/AutoDownloadVerticle.java:57-58 | a message survives iff it was queued and belongs to another chat; the survivors keep their queue order (see `DropChatAppend`) |
| AutoDownload.AutoDownloadVerticle.OnItemsRemoved | api/src/main/java/telegram/files/AutoDownloadVerticle.java:56-58 | the remove listener applies `DropRemoved` to the queues |
| AutoDownload.DropChatAppend | api/src/main/java/telegram/files/AutoDownloadVerticle.java:57-58 | `removeIf` on a split queue is `removeIf` on each part, concatenated, so the survivors stay in queue order |
| AutoDownload.DropRemoved | api/src/main/java/telegram/files/AutoDownloadVerticle.java:56-58 | the set of accounts with a queue is unchanged; the listener never creates a queue |
| AutoDownload.DropRemovedExact | api/src/main/java/telegram/files/AutoDownloadVerticle.java:56-58 | a queued message survives iff no removed item has its account and chat |
| AutoDownload.DropRemovedKeepsOtherAccounts | api/src/main/java/telegram/files/AutoDownloadVerticle.java:56-58 | the queue of an account with no removed item is untouched |
| AutoDownload.AutoDownloadVerticle.OnNewMessage | api/src/main/java/telegram/files/AutoDownloadVerticle.java:297-312 | the fetched message is force-queued iff its chat is download-enabled and the account is running and authorised; otherwise nothing changes |
| AutoDownload.IndexOf | api/src/main/java/telegram/files/AutoDownloadVerticle.java:166 | -1 iff absent; otherwise the first position holding the value |
| AutoDownload.NextType | api/src/main/java/telegram/files/AutoDownloadVerticle.java:166-176 | no next type (history complete) iff the current type is first found at the last position; an unknown type restarts from the first type |
| AutoDownload.NextTypeWalksInOrder | api/src/main/java/telegram/files/AutoDownloadVerticle.java:164-176 | with distinct types the scan visits them in list order and completes after the last |
| AutoDownload.NextTypeRepeatsOnDuplicate | api/src/main/java/telegram/files/AutoDownloadVerticle.java:164-176 | with a repeated type, such as `["photo", "photo"]`, the type after it is the same type again, because `indexOf` finds the first copy |
| AutoDownload.Keepable | api/src/main/java/telegram/files/AutoDownloadVerticle.java:181-188 | an unknown file is kept; a kept file never has an unreadable status; a known file with a null status is not kept |
| AutoDownload.Unreadable | api/src/main/java/telegram/files/AutoDownloadVerticle.java:181-188 | an unreadable file is a known file whose stored status is non-null and names no status |
| AutoDownload.KeepForDownload | api/src/main/java/telegram/files/AutoDownloadVerticle.java:178-190 | a message is kept iff its file is unknown or its record is idle; the filter fails iff some known record has an unreadable status; it never adds messages; kept messages keep page order (see `KeepForDownloadAppend`) |
| AutoDownload.OnEmptyPage | api/src/main/java/telegram/files/AutoDownloadVerticle.java:164-176 | an empty page moves to the next type from message 0 and scans on, or marks the history complete after the last type |
| AutoDownload.KeepForDownloadAppend | api/src/main/java/telegram/files/AutoDownloadVerticle.java:178-190 | the filter on a split page is the filter of each part, concatenated, so kept messages stay in page order; the first failing part decides the failure |
| AutoDownload.OnMessages | api/src/main/java/telegram/files/AutoDownloadVerticle.java:177-199 | a page with messages: a failed lookup or filter stops the scan unchanged; nothing kept scans on from the page's cursor; kept messages that fit are appended to the queue, the cursor moves past the page and the scan stops; a full queue scans again from the same cursor |
| AutoDownload.RequestFor | api/src/main/java/telegram/files/AutoDownloadVerticle.java:152-157 | the search asks for the rule's keyword in the item's chat, from the item's message cursor and type, with the page size `min(30, 100)` |
| AutoDownload.ScanStep | api/src/main/java/telegram/files/AutoDownloadVerticle.java:145-200 | one call of the scan never changes the chat or rule, only appends to the queue, and completes only on the rule's last type |
| AutoDownload.EmptyPageAdvancesType | api/src/main/java/telegram/files/AutoDownloadVerticle.java:164-172 | an empty page moves the cursor to the next type, resets the message cursor to 0 and recurses |
| AutoDownload.LastTypeCompletes | api/src/main/java/telegram/files/AutoDownloadVerticle.java:173-176 | an empty page on the last type marks the item complete and stops |
| AutoDownload.CursorAdvancesOnlyOnSkipOrEnqueue | api/src/main/java/telegram/files/AutoDownloadVerticle.java:191-198 | on a page with messages, the cursor moves to the page's cursor only if the whole page was skipped or enqueued; otherwise it stays |
| AutoDownload.KeptPageIsQueued | api/src/main/java/telegram/files/AutoDownloadVerticle.java:177-196 | past the limit check, a page whose kept messages fit the queue stops the scan with them appended to the queue and the cursor at the page's next cursor |
| AutoDownload.FullQueueSearchesAgain | api/src/main/java/telegram/files/AutoDownloadVerticle.java:191-198 | past the limit check, a page whose kept messages meet a queue over 30 scans again from the same cursor with the queue unchanged |
| AutoDownload.Scan | api/src/main/java/telegram/files/AutoDownloadVerticle.java:139-201 | a whole scan never changes the item's account, chat or rule; with no calls left it changes nothing |
| AutoDownload.ScanQueueGrowsAtTail | api/src/main/java/telegram/files/AutoDownloadVerticle.java:139-201 | a whole scan only appends to the account's queue |
| AutoDownload.ScanCompletesOnLastType | api/src/main/java/telegram/files/AutoDownloadVerticle.java:139-201 | a scan marks the item complete only when its cursor is on the rule's last type |
| AutoDownload.ScanStopsWhenExceeded | api/src/main/java/telegram/files/AutoDownloadVerticle.java:141-148 | out of time or over the limit, the scan changes nothing |
| AutoDownload.SearchFailureStops | api/src/main/java/telegram/files/AutoDownloadVerticle.java:158-163 | past the limit check, a failed or null search stops the scan with the type cursor normalised, and the queue and the completion mark unchanged |
| AutoDownload.AutoDownloadVerticle.HistoryStep | api/src/main/java/telegram/files/AutoDownloadVerticle.java:145-200 | one call on the live queue does what `ScanStep` specifies |
| AutoDownload.AutoDownloadVerticle.AddHistoryMessage | api/src/main/java/telegram/files/AutoDownloadVerticle.java:139-201 | the recursive scan ends in the state `Scan` specifies: the returned item, the completion mark and the account's queue, with every other queue unchanged |
| AutoDownload.AutoDownloadVerticle.SetLimit | api/src/main/java/telegram/files/AutoDownloadVerticle.java:124-127 | a limit update stores the value, or 5 when the value does not parse |
| AutoDownload.AutoDownloadVerticle.constructor | api/src/main/java/telegram/files/AutoDownloadVerticle.java:46-52 | no queues, the default limit of 5, no time window |
| Dialog.FolderRegexCharacterization | web/src/components/auto-download-dialog.tsx:394-395 | the folder regular expression (at most one leading separator, then non-empty segments each followed by at most one separator) accepts exactly the strings with none of the seven forbidden characters `<>:"\|?*` and no two adjacent separators |
| Dialog.MatchesFolderRegex | web/src/components/auto-download-dialog.tsx:394-395 | the regular expression accepts the empty string and a lone separator, and rejects a string that starts with a forbidden character |
| Dialog.IsFolderPath | web/src/components/auto-download-dialog.tsx:394-399 | the executable test agrees with the regular expression on every string |
| Dialog.DoubleSeparatorRejected | web/src/components/auto-download-dialog.tsx:395 | two adjacent separators anywhere, as in `a//b` or a leading `//`, fail the expression |
| Dialog.ForbiddenCharRejected | web/src/components/auto-download-dialog.tsx:395 | any forbidden character fails the expression, so `C:\…` is refused |
| Dialog.CanSubmit | web/src/components/auto-download-dialog.tsx:396-409 | submit always proceeds without a transfer rule; with one it proceeds iff the destination is non-empty and matches the expression |
| Dialog.SelectFileType | web/src/components/auto-download-dialog.tsx:438-447 | the type is selected afterwards; an already selected type leaves the rule unchanged; otherwise the type is appended; no other field changes |
| Dialog.SelectKeepsNoDuplicates | web/src/components/auto-download-dialog.tsx:438-447 | a duplicate-free type list stays duplicate-free |
| Dialog.WithoutType | web/src/components/auto-download-dialog.tsx:449-454 | the filter keeps exactly the other types |
| Dialog.RemoveFileType | web/src/components/auto-download-dialog.tsx:449-454 | every occurrence of the type is gone, every other type keeps its membership, and no other field changes |
| Dialog.RemoveUndoesSelect | web/src/components/auto-download-dialog.tsx:438-454 | removing a freshly selected type restores the rule exactly |
| Dialog.RemoveKeepsNoDuplicates | web/src/components/auto-download-dialog.tsx:449-454 | removing a type keeps a duplicate-free list duplicate-free |
| Dialog.ChangeTransferRule | web/src/components/auto-download-dialog.tsx:456-468 | without a transfer rule nothing changes; otherwise each supplied field overwrites and each absent one is kept, and no other field of the rule changes |
| Dialog.PatchTransferRule | web/src/components/auto-download-dialog.tsx:462-466 | `{...tr, ...changes}`: each supplied field takes the new value, and each absent field keeps the old one |
| Dialog.ChangeTransferRuleIdempotent | web/src/components/auto-download-dialog.tsx:456-468 | applying the same change twice equals applying it once |
| Dialog.ChangeQuery | web/src/components/auto-download-dialog.tsx:431-436 | only the keyword changes |
| Dialog.SetDownloadHistory | web/src/components/auto-download-dialog.tsx:524-534 | only the history flag changes |
| Dialog.SetDownloadCommentFiles | web/src/components/auto-download-dialog.tsx:545-555 | only the comment-files flag changes |
| Dialog.ToggleAutoTransfer | web/src/components/auto-download-dialog.tsx:568-585 | on installs the blank group-by-chat, overwrite, no-history transfer rule; off removes it; nothing else changes |
| Dialog.ToggleAutoTransferAndSubmit | web/src/components/auto-download-dialog.tsx:568-585 | a freshly enabled transfer rule blocks submit; disabling transfer never does |
| Dialog.DestinationUnblocksSubmit | web/src/components/auto-download-dialog.tsx:396-468 | entering a valid non-empty destination into a fresh transfer rule unblocks submit |
| Dialog.ToggleAutoDownload | web/src/components/auto-download-dialog.tsx:335-341 | switching auto download on resets the rule to the default; switching it off keeps the rule |
| Dialog.LoadFromChat | web/src/components/auto-download-dialog.tsx:106-116 | the dialog takes the chat's settings, falling back to the default rule for a missing rule and to everything off without auto settings |
| Dialog.DefaultRuleSubmits | web/src/components/auto-download-dialog.tsx:53-58 | the default rule passes the submit guard and has no duplicate types |
| Dialog.PreloadBackfillComplete | web/src/components/auto-download-dialog.tsx:166-166 | on an unsigned 32-bit state, the preload backfill read is `state & (1 << 1) != 0` |
| Dialog.DownloadBackfillComplete | web/src/components/auto-download-dialog.tsx:189-189 | on an unsigned 32-bit state, the download backfill read is `state & (1 << 2) != 0` |

## Left out

- Vert.x plumbing is not modelled. This covers `start`, the two periodic timers, the event-bus consumers, `initAutoDownload` and the futures composition. Each tick or event is a method call here, and the download-time gate of the ticks is the `DownloadTime` function on its own.
- The calls to Telegram and the database are parameters of the model. These are the search, the stored-file lookup, the downloading count, the message fetch, the settings load and the account registry. Starting a download is returned as the list of polled messages.
- `TelegramVerticles.getOrElseThrow` in `download` and in the history scan is assumed to find the account. A missing account throws there and ends the tick.
- AutoDownload.AutoDownloadVerticle.AddHistoryMessage: the 10-second wall-clock timeout is a budget of calls (`fuel`), because there is no clock in the model.
- `LocalTime.now` and `LocalTime.parse` are not modelled. Times of day are integers on one clock, and parsing is assumed to succeed.
- Concurrency is not modelled: `ConcurrentHashMap`, `volatile`, `synchronized` and the asynchronous callbacks run sequentially here.
- `TdApiHelp.filterUniqueMessages`, `getFileUniqueId` and `getSearchMessagesFilter` have no visible bodies. De-duplication is a function parameter, the unique id is a message field, and the filter is the type name in the request.
- `getDownloadEnabledItems`, `isDownloadHistoryEnabled`, `isNotComplete`, `complete` and `HISTORY_DOWNLOAD_STATE` are not in the registry class shown. Completion is returned as a flag, and the enabled items are a parameter.
- Remove listeners are opaque ids. A call is recorded as a `Notification` with the removed list, and nothing the listener does is modelled in the holder. The scheduler's registration in `start` (AutoDownloadVerticle.java:56) is not connected to `OnAutoRecordsUpdate`: its effect is the separate method `OnItemsRemoved`.
- AutoDownload.NextTypeWalksInOrder requires distinct types. With a repeated type, `indexOf` always finds the first copy, so the cursor cycles and the history scan never completes (`NextTypeRepeatsOnDuplicate`). The web dialog never builds such a rule, and nothing in the modelled backend code rejects one. The model keeps the source's behaviour and does not promise completion for it.
- Items are values here. In the source the scheduler updates the cursor of the shared `Item` object that the registry holds. The model returns the updated item instead, so aliasing between the two is not modelled.
- Java's 32- and 64-bit integer widths are not modelled. Ids, cursors and the limit are unbounded integers.
- AutoDownload.IsBlankChar lists the characters that Java's whitespace and space-character tests accept, plus the extra characters the blank test treats as blank, as of one Unicode version. Later Unicode versions may differ.
- AutoDownload.KeepForDownload: the error value for a single unreadable message is not stated. The contract says when the filter fails, and `KeepForDownloadAppend` says that the first failing part decides.
- A failed history search is modelled as stopping that item's scan only (AutoDownload.SearchFailureStops). In the source a failed search future makes `Future.await` throw, and the exception leaves the periodic loop over the enabled items, so the remaining items are not scanned in that tick. The model treats each item's scan on its own and does not capture this.
- A failed downloading-count query is not modelled. In `getSurplusSize`, a failed `countByStatus` future makes `Future.await` throw, which ends the download tick or the scan. The model's `None` count is the null result, which leaves `limit` free slots.
- AutoDownload.Scan: the downloading count and the stored-file lookup are one snapshot (`Services`) for the whole scan. The source counts the downloading files again on every `addHistoryMessage` call and looks up the stored files for each page.
- `saveAutoRecords` is not modelled, and neither are the SQL text in `FileRecord` (`SCHEME`, `MIGRATIONS`, `PARAM_MAPPER`) and the statistics repository.
- Transfer destination layouts and duplicate policies are not modelled. They appear only as legend text, and the model keeps only the policy names.
- No local keyword matcher is modelled: the rule's query is passed to the server-side search.
- The dialog's React state, SWR mutations, popovers, animation and debounce are not modelled, and neither are the rendering-only components.
- The dialog's `autoTransfer` switch state starts off and is not derived from the loaded rule. Only the switch's effect on the rule is modelled.

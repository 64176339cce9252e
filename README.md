# Martus background uploader and HQ retrieval table, in Dafny

This project models two components of the Martus client, rebuilt from what the
suites `TestBackgroundUploader` and `TestRetrieveHQTableModel` assert about them.

**Background upload engine.** A client account keeps sealed bulletins waiting
for upload in its Outbox and drafts in its DraftOutbox. Delivered sealed
bulletins go to Sent. An external driver calls `backgroundUpload` over and over.
Each call is one pass:

- With no server configured, the pass does nothing and returns the null
  result. That result is neither OK nor an error tag.
- Otherwise the pass tries at most the first bulletin of the Outbox, then at
  most the first bulletin of the DraftOutbox.
- On OK, a sealed bulletin moves from the Outbox to the end of Sent, and a
  draft is dropped.
- On any other status, the bulletin stays where it was.
- When logging is on, each delivery appends three lines to the upload log:
  local id, server name and title. A log that was never written does not exist.

The pass is specified as a function on values (`UploadSpec.Pass`). The classes
`BackgroundUploading.App` (folders, log, configuration) and
`BackgroundUploading.BackgroundUploader` update fields in place, and their
methods are proved against that function. The server is a function from a
bulletin to a status. It is passed to each pass, because the test's mock
server answers differently from one call to the next.

**HQ retrieval table.** `Initialize` asks the server for the HQ's field-office
accounts. For each account it reads the manifest of retrievable sealed
bulletins. Each manifest entry has the form `localId=fieldDataPacketLocalId=size`
(module `Manifest`). Each entry that parses, and whose bulletin the HQ's store
does not already hold, becomes one unflagged row. The table has four fixed
columns: flag (Boolean), title (String), author (String) and size (Integer).
Only the flag column is editable. `SetAllFlags` sets every flag.
`UniversalIdList` returns the (author account, local id) of the flagged rows,
in row order.

Decisions where the tests leave the behaviour open:

- A pass moves at most one bulletin per queue. That is up to two per pass.
- The pass result is the status of the last upload attempted. When both queues are empty it is OK.
  So a rejected sealed upload is not reported when the draft tried after it in the same pass is accepted.
- The null result comes only from an account with no server configured. A
  configured server that cannot be reached yields a finished pass whose status
  is `NoResponse`, not the null result.
- A transport failure (`NoResponse`) is treated like a server rejection: the
  bulletin stays queued. It is still a separate status.
- Drafts are logged on delivery like sealed bulletins.
- A manifest entry parses only if it has exactly three `=`-separated fields
  with non-empty identifiers and a size of one or more decimal digits.
  Otherwise it is dropped.
- Title and author are fetched when the table is built, not when first read.
- If a packet cannot be fetched or its signature does not verify, the row
  keeps blank title and author. It is never dropped.

## Model

| member | source | states |
|---|---|---|
| UploadSpec.NoServerChangesNothing | source/org/martus/meta/TestBackgroundUploader.java:108-128 | with no server configured, a pass returns the null result and leaves every folder and the log unchanged |
| UploadSpec.NothingToSend | source/org/martus/meta/TestBackgroundUploader.java:130-140 | with a server and both queues empty, a pass returns OK and changes nothing |
| UploadSpec.SealedDelivered | source/org/martus/meta/TestBackgroundUploader.java:142-160 | an accepted sealed bulletin alone in the Outbox: result OK, Outbox empty, Sent gains exactly that bulletin |
| UploadSpec.AtMostOnePerQueue | source/org/martus/meta/TestBackgroundUploader.java:172-177 | a pass removes at most the first bulletin of the Outbox and at most the first of the DraftOutbox |
| UploadSpec.DraftsLeaveOneAtATime | source/org/martus/meta/TestBackgroundUploader.java:172-177 | over n passes against any servers, at least all but n drafts remain, and what remains is a suffix of the queue |
| UploadSpec.DraftsDrain | source/org/martus/meta/TestBackgroundUploader.java:172-177 | with an empty Outbox and an accepting server, n passes deliver exactly the first n drafts, each pass returns OK, and Outbox and Sent are left alone |
| UploadSpec.DraftAccepted | source/org/martus/meta/TestBackgroundUploader.java:172-177 | in any state with a server, an accepted DraftOutbox head is dropped and the pass returns OK |
| UploadSpec.SealedAccepted | source/org/martus/meta/TestBackgroundUploader.java:151-155 | in any state with a server, an accepted Outbox head leaves the Outbox and is appended to Sent |
| UploadSpec.PassResultIsLastAttempt | source/org/martus/meta/TestBackgroundUploader.java:108-216 | the pass result is the null result without a server, else the draft head's status if there is a draft, else the sealed head's status, else OK |
| UploadSpec.RunConcat | source/org/martus/meta/TestBackgroundUploader.java:172-177 | running passes a then b is running b from where a left off, and the per-pass results are those of a followed by those of b |
| UploadSpec.PassLog | source/org/martus/meta/TestBackgroundUploader.java:227-244 | with logging on, the new log is the old lines then the record of each bulletin delivered in the pass, and it exists iff it existed or got a record; with logging off the log is unchanged |
| UploadSpec.LeavesQueueOnlyOnOk | source/org/martus/meta/TestBackgroundUploader.java:183-213 | a bulletin leaves its queue only if the server answered OK for that bulletin; Sent changes only by gaining the delivered sealed bulletin |
| UploadSpec.SealedFailureChangesNothing | source/org/martus/meta/TestBackgroundUploader.java:183-200 | a rejected sealed upload: the result is the server's status, the bulletin stays (still sealed) in the Outbox, Sent and log unchanged |
| UploadSpec.DraftFailureChangesNothing | source/org/martus/meta/TestBackgroundUploader.java:202-216 | a rejected draft upload: the result is the server's status and the draft stays in the DraftOutbox |
| UploadSpec.FailingServerChangesNothing | source/org/martus/meta/TestBackgroundUploader.java:190-197 | any number of passes against a server that never says OK leave folders and log exactly as they were |
| UploadSpec.PassConservesSealed | source/org/martus/meta/TestBackgroundUploader.java:151-155 | a pass conserves the multiset of Outbox plus Sent: no sealed bulletin lost or duplicated |
| UploadSpec.RunConservesSealed | source/org/martus/meta/TestBackgroundUploader.java:151-155 | the same conservation over any sequence of passes and server answers |
| UploadSpec.PassKeepsValid | source/org/martus/meta/TestBackgroundUploader.java:272-290 | a pass keeps the folder invariant: sealed bulletins in Outbox/Sent, each once; drafts in DraftOutbox, each once; log exists iff it has records, three lines each |
| UploadSpec.RunKeepsValid | source/org/martus/meta/TestBackgroundUploader.java:272-290 | the folder invariant holds after any number of passes |
| UploadSpec.Logged | source/org/martus/meta/TestBackgroundUploader.java:238-244 | logging off leaves the log alone; logging on creates it and appends exactly local id, server name, title after the old lines |
| UploadSpec.NoLogWhenDisabled | source/org/martus/meta/TestBackgroundUploader.java:227-230 | with logging disabled the log is never created or written, whatever is delivered over any number of passes |
| UploadSpec.FirstLogRecord | source/org/martus/meta/TestBackgroundUploader.java:232-244 | a logged sealed delivery into no log creates it, and its three lines are the local id, the server name and the title |
| BackgroundUploading.App.constructor | source/org/martus/meta/TestBackgroundUploader.java:81 | a new account has empty folders, no log, no server and logging off |
| BackgroundUploading.App.SetServerInfo | source/org/martus/meta/TestBackgroundUploader.java:82 | configures the server under the given name |
| BackgroundUploading.App.EnableUploadLogging | source/org/martus/meta/TestBackgroundUploader.java:232 | turns upload logging on |
| BackgroundUploading.App.CreateSealedBulletin | source/org/martus/meta/TestBackgroundUploader.java:272-280 | a new sealed bulletin is appended to the Outbox and the folder invariant still holds |
| BackgroundUploading.App.CreateDraftBulletin | source/org/martus/meta/TestBackgroundUploader.java:282-290 | a new draft is appended to the DraftOutbox and the folder invariant still holds |
| BackgroundUploading.BackgroundUploader.constructor | source/org/martus/meta/TestBackgroundUploader.java:92-93 | an uploader works on the given account |
| BackgroundUploading.BackgroundUploader.UploadBulletin | source/org/martus/meta/TestBackgroundUploader.java:293-303 | returns the server's status for the bulletin and, on OK with logging on, appends its record |
| BackgroundUploading.BackgroundUploader.BackgroundUpload | source/org/martus/meta/TestBackgroundUploader.java:108-216 | the new folders, log and returned result are exactly those of one specified pass; configuration unchanged; folder invariant preserved |
| Manifest.Split | source/org/martus/meta/TestRetrieveHQTableModel.java:222 | an entry splits into at least one field and no field contains the separator |
| Manifest.JoinSplit | source/org/martus/meta/TestRetrieveHQTableModel.java:222 | joining the fields of any string with `=` gives the string back |
| Manifest.SplitJoin | source/org/martus/meta/TestRetrieveHQTableModel.java:222 | splitting `=`-free fields joined with `=` gives the fields back |
| Manifest.ParseSize | source/org/martus/meta/TestRetrieveHQTableModel.java:222 | a size field parses exactly when it is a non-empty run of decimal digits |
| Manifest.SizeRoundTrip | source/org/martus/meta/TestRetrieveHQTableModel.java:222 | the decimal text of any size parses back to that size |
| Manifest.ParseEntry | source/org/martus/meta/TestRetrieveHQTableModel.java:216-229 | an entry parses exactly when it has three fields, non-empty ids and a decimal size; a parsed entry has separator-free, non-empty ids |
| Manifest.EntryRoundTrip | source/org/martus/meta/TestRetrieveHQTableModel.java:222-226 | the text `localId=fdpLocalId=size` written for a well-formed entry parses back to that entry |
| Manifest.FormatEntryFields | source/org/martus/meta/TestRetrieveHQTableModel.java:222-226 | the text written for a well-formed entry splits into its local id, its packet id and its size's decimal text |
| Manifest.ReparseEntry | source/org/martus/meta/TestRetrieveHQTableModel.java:222-226 | an entry that parsed, written back out, parses to the same entry |
| RetrieveHq.ResolveRow | source/org/martus/meta/TestRetrieveHQTableModel.java:240-269 | a listed bulletin's row has its author's account and local id, packet id and size, starts unflagged, and shows the packet's title and author only when the packet was fetched and verifies, blanks otherwise |
| RetrieveHq.CatalogExactly | source/org/martus/meta/TestRetrieveHQTableModel.java:216-238 | a row is in the catalog iff some field office lists an entry that parses to it and the store lacks that bulletin |
| RetrieveHq.CatalogRowsFresh | source/org/martus/meta/TestRetrieveHQTableModel.java:155 | every row of a fresh catalog is unflagged, belongs to a field office, and is not in the HQ's store |
| RetrieveHq.CatalogRowCount | source/org/martus/meta/TestRetrieveHQTableModel.java:123-127 | when every entry is well formed and new, the row count is the number of manifest entries over all field offices |
| RetrieveHq.CatalogWithoutAccounts | source/org/martus/meta/TestBackgroundUploader.java:257-267 | when the server returns no field-office list, or an empty one, the catalog has no rows |
| RetrieveHq.CatalogEmptyWhenAllStored | source/org/martus/meta/TestRetrieveHQTableModel.java:83-89 | when the store holds every listed bulletin, the catalog has no rows |
| RetrieveHq.CatalogIgnoresPackets | source/org/martus/meta/TestRetrieveHQTableModel.java:240-269 | whatever packets the server returns and whether they verify, the catalog lists the same bulletins, sizes and flags in the same order |
| RetrieveHq.ColumnsAgree | source/org/martus/meta/TestRetrieveHQTableModel.java:117-121 | exactly four columns exist (values, classes, label tags), and each cell's value has its column's class: flag Boolean, title and author String, size Integer |
| RetrieveHq.ColumnClassOrder | source/org/martus/meta/TestRetrieveHQTableModel.java:137-143 | the column classes are Boolean, String, String, Integer in that order, and no column exists past the fourth |
| RetrieveHq.ColumnTagOrder | source/org/martus/meta/TestRetrieveHQTableModel.java:109-115 | the columns are labelled by the tags retrieveflag, title, author and BulletinSize in that order, and a column has a label iff it has a class |
| RetrieveHq.EditableIsFlagColumn | source/org/martus/meta/TestRetrieveHQTableModel.java:129-135 | in every row, a cell is editable iff it is in column 0, the Boolean flag column |
| RetrieveHq.WriteOnlyFlag | source/org/martus/meta/TestRetrieveHQTableModel.java:129-161 | only column 0 is editable; a write elsewhere leaves the row unchanged; a flag written to column 0 reads back |
| RetrieveHq.SelectedMembers | source/org/martus/meta/TestRetrieveHQTableModel.java:182-198 | for every id: it is selected iff some flagged row carries it |
| RetrieveHq.SelectedLength | source/org/martus/meta/TestRetrieveHQTableModel.java:182-206 | the selection is no longer than the rows, and exactly as long iff every row is flagged |
| RetrieveHq.SelectedAllFlagged | source/org/martus/meta/TestRetrieveHQTableModel.java:188-191 | with every row flagged the selection is every row's id, in row order |
| RetrieveHq.SelectedNoneFlagged | source/org/martus/meta/TestRetrieveHQTableModel.java:184-186 | with no row flagged the selection is empty |
| RetrieveHq.SelectedConcat | source/org/martus/meta/TestRetrieveHQTableModel.java:200-205 | the selection of two row lists one after the other is the two selections one after the other |
| RetrieveHq.SelectedAround | source/org/martus/meta/TestRetrieveHQTableModel.java:200-205 | the selection is the part before row i, row i's id if flagged, then the part after; unflagging row i drops only its id and keeps the order |
| RetrieveHq.SelectedFromFieldOffices | source/org/martus/meta/TestRetrieveHQTableModel.java:192-194 | however the flags are set, every selected id belongs to a field office and never to the HQ account |
| RetrieveHq.SameUidsWhenFlagsChange | source/org/martus/meta/TestRetrieveHQTableModel.java:196-198 | changing flags keeps every row's id, in order |
| RetrieveHqTable.RetrieveHqTableModel.constructor | source/org/martus/meta/TestRetrieveHQTableModel.java:80 | a new table has no rows |
| RetrieveHqTable.RetrieveHqTableModel.Initialize | source/org/martus/meta/TestRetrieveHQTableModel.java:80-89 | the rows built by the account and manifest loops are exactly the specified catalog |
| RetrieveHqTable.RowCountOfCatalog | source/org/martus/meta/TestRetrieveHQTableModel.java:123-127 | on a table holding the catalog, the row count is the number of manifest entries when all are well formed and new, and 0 when the store holds every listed bulletin |
| RetrieveHqTable.RetrieveHqTableModel.ValueAt | source/org/martus/meta/TestRetrieveHQTableModel.java:145-166 | a cell has a value exactly in the four columns, and of the class declared for its column |
| RetrieveHqTable.RetrieveHqTableModel.SetValueAt | source/org/martus/meta/TestRetrieveHQTableModel.java:155-161 | only the addressed row can change, only by the written cell, and ids are kept |
| RetrieveHqTable.RetrieveHqTableModel.SetAllFlags | source/org/martus/meta/TestRetrieveHQTableModel.java:168-180 | every row's flag becomes the given value and nothing else in any row changes |
| RetrieveHqTable.RetrieveHqTableModel.UniversalIdList | source/org/martus/meta/TestRetrieveHQTableModel.java:182-206 | no more ids than rows, and an id is listed iff a flagged row carries it |

The module `Scenarios` replays the situations the two suites set up, using
only the components' contracts. The upload scenarios drive `App` and
`BackgroundUploader` pass by pass. The HQ scenarios build each table through
`Initialize` from a `Remote` with two field offices that list two bulletins
and one bulletin. They show 3 rows with an empty store and 0 rows once the
store holds all three, then replay the flag and id-list steps on that table.

## Left out

- Signing, encryption and zip packaging of bulletins are not modelled. Neither are the mock security identities or Base64. They are byte plumbing outside the engine.
- Signature verification of a fetched packet is an abstract predicate `Remote.verifies`. Its cryptography is not modelled.
- The network handler, the SSL ping and server configuration files are not modelled. Neither are upload allow-lists or banned clients. The server is an abstract function from a bulletin to a status.
- The field-office list, the manifests and packet fetches are fields of `Remote`. A failed or null reply is `None`.
- Files and `UnicodeReader` are not modelled. The upload log is a sequence of lines plus a flag that says whether the file exists.
- The bulletin store and its persistence are not modelled. The HQ's local store is a set of universal ids.
- Localized column labels are left out. `ColumnTag` gives the field tag whose label heads each column.
- Title and author are resolved eagerly in `Initialize`, not lazily on first read. Caching of resolved values is therefore not modelled.
- The progress meters passed to the uploader and to `initialize` are left out. They only report progress.
- Static shared fixtures, `setUp`/`tearDown` and tracing are test scaffolding and are not modelled.
- Concurrency is not modelled. Callers run one pass or one initialize at a time.
- BackgroundUploading.App.SetServerInfo: keeps only the server name. The server's account id and magic word that `setServerInfo` also takes are not modelled, since the server is an abstract function.
- RetrieveHq.ResolveRow: sizes are unbounded naturals, so a size beyond Java's 32-bit `int` is not modelled.
- BackgroundUploading.BackgroundUploader.UploadBulletin: requires a configured server. The suites call it only on an account with a server; `BackgroundUpload` checks this before calling it.

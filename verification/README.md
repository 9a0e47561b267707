# Qvain dataset service: a verified model

Qvain keeps research datasets in a PostgreSQL table while the remote Metax service keeps the published ones.
Users create, update, publish and delete datasets; a sync job streams a user's Metax records and merges them into the table.
This project models that system and proves what it keeps: over one record, over one batch, over every interleaving of the
stream goroutine with the loop that consumes it, and over every run of requests and batches with any failures.

How it is put together:

* `Json`, `JsonEquality`, `CanonicalJson`: documents as trees whose objects are ordered and may repeat keys. The path library
  takes the first match of a path; the jsonb column and the standard decoder keep the last member of a name. The normalising
  comparison of the update check is modelled down to the printed text, and its meaning is read off the documents.
* `Calendar`, `TimeFilters`, `Sql`, `Filters`, `Queries`: the statistics endpoint, from URL parameters to SQL text with numbered
  placeholders. `Sql` reads such text with a grammar of its own and knows nothing of the compiler.
* `Datasets`, `Records`, `Creation`, `Updates`, `Submissions`: what is read out of documents, the documents and patches the
  service builds, the checks on them, and inputs on which checks and column disagree.
* `Store`, `Handlers`, `Publishing`: the table as a class and the create, update, publish and delete requests as methods on it.
  `Acceptance`, `Publications` and `CreateRuns` say which updates, publications and creations go through and what they leave,
  member by member and column by column.
* `Sync`, `SyncReadings`, `SyncMerge`, `SyncOrder`, `SyncTwice`, `SyncPair`, `SyncWithoutIndex`, `SyncSafety`, `SampleRecords`,
  `Stream`: one sync batch, what it makes of a record, its meaning as a row-by-row merge, other orders of its records, what a
  second batch and a second fetch do, what happens without an index, which rows a sync may touch, and the protocol between the
  two goroutines.
* `Service`, `Safety`, `Protocol`: runs. A request carries everything it meets on its way (clocks, new ids, Metax's answers,
  database faults), so a run is a list of requests and every theorem quantifies over all of them. `Server` ties the methods to
  the runs: after every call the table is that of a sound state whose journal is in order. `FullCycle` is one run, computed.
* `Projects`, `ObjectIds`: the recursive project check of the proxy and the packed 64-bit id generator of the schema.

Methods follow the source's steps and are proved against functions of the old state (`PublishRows`, `Steps`, `UpdatedRow`, ...);
the lemmas then say what those functions do, and the ones about single requests and records do it in the wire's own terms: keys,
statuses and columns are spelt out there, so that they can be held against the source. Metax is an environment: it answers
anything or nothing, and each database statement may fail. What a run does assume is written in `Service.Plausible`: generated
ids are new, and documents that come from Metax carry an identifier that survives storing them.

Things the proofs brought out, which the code does as described here:

* The read-only and the files checks look at the first member of a name in the submitted dataset, while the column keeps the
  last one. With a repeated key an accepted update can change a field that only Metax may set. `Updates.ReadOnlyKeptIff` and
  `Updates.FilesKeptIff` give the exact conditions, `Submissions.ReadOnlyCanChange` and `Submissions.FilesCanChange` an input
  each. The run theorems exempt a field of a row only from the moment such an update has changed that very field
  (`Safety.CarelessChanges`) until a service step writes the row again.
* The same check compares text, and the patch is marshalled in between, which escapes `<`, `>`, `&` and two line separators
  and indents filled containers. A row that holds such a value in a read-only research field takes no update at all
  (`Updates.RespeltIsRefused`, `Submissions.AmpersandLocks`); where the column respells a number, only its spelling is taken
  back (`Acceptance.NumbersAreRespelt`).
* The recorded sync protects only the rows the index lists, which are the user's own Metax rows. A live record that is linked to
  any other row overwrites it whatever its date (`SyncSafety.OverwritesIff` has the exact condition,
  `SampleRecords.ForeignRowIsOverwritten` an input).
* The template of a schema is shared by all creations and remembers optional values, so a creation without a cumulative state
  is judged by an earlier caller's (`Creation.AcceptedIff`, and over whole runs `CreateRuns.CreatedIff` and
  `CreateRuns.OneBadRequestSticks`).
* A closing token that cannot be read does not decide whether the batch commits (`Stream.ClosingTokenUndecided`); a commit is
  possible exactly when the elements decode and no statement failed (`Stream.CommitPossibleIff`). A timed-out batch commits
  nothing and returns no error, so a fetch goes on to its second batch (`Sync.SyncBatch`, `Sync.Fetch`).
* Without a positive count header the index stays empty, and every sync inserts the live unlinked records once more. Such a
  sync can be repeated without effect if and only if its stream holds no such record (`SyncWithoutIndex.RepeatableIff`);
  `SampleRecords.BareMakesRow` is one.
* An update stamps the link of the document with the id of the request body, which is the id of the updated row exactly when body
  and URL agree (`Updates.EditorLinkIff`).
* The dates that read as 0001-01-01T00:00:00 UTC, at each precision the zero time's own date, are taken for unreadable ones
  (`TimeFilters.ZeroDateIsNoDate`; `TimeFilters.ZeroDates` has "0001" and "0001-01-01T00:00:00Z").

## Model

| member | source | states |
|---|---|---|
| Safety.AlwaysSound | pkg/metax/dataset.go:205-303 | in every reachable state, for every Metax row: published rows have an identifier; preservation state, identifier, catalog and next version, and the cumulative state once published, are those of the document a creation, publication or sync last wrote; a row locked for preservation still holds exactly that document; and so, name by name, are its read-only research fields and, when preserved or superseded, its files and directories as JSON values, each unless an update that was ambiguous about that name has changed the row since |
| Safety.RunKeepsSound | internal/psql/dataset.go:338-390 | the same from any sound state on, whatever requests, batches and failures follow |
| Safety.CarelessChanges | pkg/metax/dataset.go:231-300 | the exemption is exact: an update that exempts a field of a row has changed that field |
| Safety.WroteMeans | internal/psql/dataset.go:374-392 | what counts as a service step that writes a row: a creation, a publication that leaves an answer of Metax, a sync that leaves a record of its stream; never an update or a deletion |
| Safety.StatusNeedsService | pkg/metax/dataset.go:218-221 | PAS, version and preservation status of a row, and the document of a locked row, change only at a step that writes the document of that row, whatever other syncs and publications the run holds; in a run without a sync a locked row keeps every column |
| Safety.NeverRepeatsKeys | internal/psql/dataset.go:297-308 | stored Metax documents repeat no key at any depth, and every path has one reading in them: first match and last member agree |
| Service.HistoryIsKept | internal/psql/dataset.go:72-134 | over any run a deleted id never returns, creator, owner, creation time, family and schema of a row never change, and the published flag never falls |
| Protocol.AlwaysInOrder | internal/shared/publish.go:30-152 | in every run a row is marked published only right after Metax accepted it, a version row appears only after its base was marked and the version fetched, a published row is dropped only right after Metax accepted its removal, removals always name an identifier, a Metax row the journal says is published is never POSTed again, and a dropped row is never mentioned again |
| Protocol.NeverPostedAgain | pkg/metax/api.go:559-572 | from any sound state on, a Metax row that is published, by a publication, as a new version or by a sync that imported it, is never POSTed again |
| Protocol.PublishedRowsLeaveProperly | cmd/qvain-backend/dataset_api.go:338-362 | a published row that is gone at the end of a run was either deleted by its owner after Metax deleted the identifier in its document, or removed by a sync through a removed record that resolves to it |
| Publications.StoreGoesToIdentifier | pkg/metax/api.go:554-575 | a row with a stored identifier is PUT to that identifier and one without is POSTed, also after the user property was set on the document |
| Publications.PublishChangesAfterAccept | internal/shared/publish.go:53-120 | if a publication changes the table at all, Metax answered 200 or 201 with an identified document; then the row holds that document, dated by it, and is published, and at most one more row appears: it holds the document fetched under the identifier of the new version, is dated by it or by the clock, and takes creator, owner, family and schema from its base; no other row changes |
| Publications.VersionHasOwnIdentifier | internal/shared/publish.go:90-120 | the version row carries the identifier of the fetched document, not that of its base |
| Publications.PublishWorksIff | internal/shared/publish.go:30-124 | exactly when a publication goes through, and exactly when it adds a row |
| Publications.SentDocument | internal/shared/publish.go:37-49 | the document sent names the user as creator of a draft or modifier of a published row, and is the stored one under every other key |
| Publications.ReportTells | internal/shared/publish.go:25-124 | what each reported outcome says of table and journal: success, and the step at which a run stopped |
| Protocol.SyncAfterPublish | internal/shared/publish.go:84-93 | a sync that delivers the document a publication stored overwrites the row if and only if the document carries no date or the column kept its date as an earlier time, however it rounds; otherwise it only refreshes the row |
| Protocol.RowLeaves | internal/shared/fetch.go:240-257 | the only requests after which a published row is gone, one request at a time |
| Publishing.Publish | internal/shared/publish.go:30-124 | table, journal, reported identifiers and the step that stopped it, for every combination of answers and faults; success exactly when every step worked |
| Publishing.PublishVersion | internal/shared/publish.go:90-120 | a version row is added exactly when the fetch, the new id and the statement worked; it holds the fetched document, is dated by it or by the clock, and copies creator, owner, family and schema of its base |
| Publishing.UnpublishAndDelete | internal/shared/publish.go:128-152 | the row goes exactly when Metax accepted its removal and the statement worked, in that order |
| Publishing.DeleteDataset | cmd/qvain-backend/dataset_api.go:338-362 | drafts are deleted directly, published rows once Metax answered 204; success means that the row was there and is gone, and otherwise nothing changes |
| Handlers.CreateDataset | cmd/qvain-backend/dataset_api.go:203-252 | for a well-formed Metax request a row appears exactly when the template exists, the document built passes the validation, the id is free and the statement works, with every column given; for the other families exactly when a schema is named; the shared template is written even when the creation is then refused |
| CreateRuns.CreatedIff | cmd/qvain-backend/dataset_api.go:203-252 | in every reachable state a well-formed Metax create request gets a row exactly when its schema is one of the two, its dataset sets none of the three read-only fields, the id is free, the statement works, and its own or else the last cumulative state any request gave for the schema is one of a draft |
| CreateRuns.OneBadRequestSticks | pkg/metax/dataset.go:100-104 | after one request with an unacceptable cumulative state, itself refused, no later request for the schema that gives none gets a row, whatever the requests between, until one gives a state again |
| CreateRuns.CreatedDocument | pkg/metax/dataset.go:60-121 | what the created row holds: submitted dataset, link to the row, catalog of the schema, user and organisation of the creator where known |
| Handlers.UpdateDataset | cmd/qvain-backend/dataset_api.go:254-314 | the row of the URL id changes exactly when the load, the validation and the statement all succeed, and no other row ever does; a Metax row whose preservation state is 80 to 99, 101 to 129 or above 130 is refused and the table stays |
| Handlers.LockedNeverAccepted | pkg/metax/dataset.go:218-221 | in these states no request is accepted, whatever it submits |
| Acceptance.AcceptedIff | pkg/metax/dataset.go:205-303 | a patch is accepted exactly when the preservation state is below 80, 100 or 130, the cumulative state is 0 or 1, or 2 once published, and then unchanged, the three read-only fields are repeated as text, and files and directories keep their JSON value where a preservation state, the preservation catalog or a next version fixes them |
| Acceptance.RequestAcceptedIff | cmd/qvain-backend/dataset_api.go:254-314 | the same for an update request: the owner's row, a complete body of the row's schema, and a permitted change |
| Acceptance.UpdatedDocument | internal/psql/dataset.go:297-308 | every path of the document an accepted update leaves: the last reading of the submitted dataset, the link to the id of the body, the submitted cumulative state, and under any other key what was there; all other columns but time and counter stay |
| Acceptance.StateDecides | pkg/metax/dataset.go:218-221 | for a row of which only the preservation state is known, an update is accepted exactly below 80 and at 100 and 130 |
| Acceptance.SampleStates | pkg/metax/dataset_test.go:281-311 | 79, 100 and 130 are accepted, 80, 120 and 140 refused |
| Acceptance.NumbersAreRespelt | pkg/metax/dataset.go:231-240 | a read-only number that the column spells differently: what was stored cannot be sent back, only the column's spelling is accepted |
| Server.DatasetApi.Create | cmd/qvain-backend/dataset_api.go:203-252 | the create handler is one step of a run and leaves a sound state with its journal in order |
| Server.DatasetApi.Update | cmd/qvain-backend/dataset_api.go:254-314 | the same for the update handler, with no assumption at all on what is submitted |
| Server.DatasetApi.Publish | cmd/qvain-backend/dataset_api.go:328-336 | the same for publishing, whatever Metax answers and wherever it stops |
| Server.DatasetApi.Delete | cmd/qvain-backend/dataset_api.go:338-362 | the same for deleting |
| Server.DatasetApi.Sync | internal/shared/fetch.go:137-214 | the same for a sync batch, for every index the listing may give |
| Server.DatasetApi.Fetch | internal/shared/fetch.go:41-67 | the same for fetching one dataset |
| FullCycle.CycleRuns | internal/shared/publish.go:30-152 | one plausible run from the empty table through creation, publication and deletion back to it, with its rows and its journal |
| Updates.ReadOnlyKeptIff | pkg/metax/dataset.go:231-240 | an accepted update keeps a read-only research field if and only if the submitted dataset is unambiguous about it |
| Updates.RespeltIsRefused | pkg/metax/dataset.go:231-240 | a row with a read-only research field that the marshalled patch spells differently refuses every update |
| Updates.FilesKeptIff | pkg/metax/dataset.go:288-300 | on a preserved or superseded row an accepted update keeps files and directories as JSON values if and only if first and last submitted member of that name have one value |
| Submissions.ReadOnlyCanChange | pkg/metax/dataset.go:231-240 | an accepted update with a repeated key after which the stored size is not the one Metax wrote |
| Submissions.FilesCanChange | pkg/metax/dataset.go:288-300 | an accepted update of a preserved row, with files listed twice, after which other files are stored |
| Submissions.SameFirstIsAccepted | pkg/metax/dataset.go:205-303 | a submission whose first members repeat what a row in preservation state below 80, 100 or 130 stores is accepted if and only if the stored read-only fields are spelt alike by database and marshaller, whatever its later members say |
| Submissions.AmpersandLocks | pkg/metax/dataset.go:231-240 | a row whose preferred identifier holds an ampersand takes no update |
| Updates.DistinctIsUnambiguous | pkg/metax/dataset.go:260-264 | a dataset that repeats no key is unambiguous about every field |
| Updates.ServiceFieldsKept | internal/psql/dataset.go:297-308 | no patch, accepted or not, changes a path into preservation state, identifier, catalog or next version |
| Updates.StatusKept | pkg/metax/dataset.go:242-291 | hence identifier, lock, PAS and version status of a row are not up to its user |
| Updates.CumulativeKept | pkg/metax/dataset.go:225-228 | an accepted update leaves the cumulative state of a published row alone |
| Updates.EditorLinkIff | pkg/metax/dataset.go:133-162 | after an update the document's link names the updated row exactly when body id and URL id agree |
| Json.LookupConcat | internal/psql/dataset.go:297-308 | the merge of the patch statement is pointwise on top-level keys: a path sees the last member of the patch where it has the key, the old document elsewhere |
| Json.ConcatArrays | internal/psql/dataset.go:297-308 | a patch that meets an array on either side is appended, item by item |
| Json.LookupJsonb | internal/psql/dataset.go:72-85 | a path into the stored document finds what the last-wins reading of the written one says |
| Json.DecodeJsonb | pkg/metax/dataset.go:260-264 | storing a document does not change its value |
| Json.JsonbHasNoRepeats | pkg/metax/dataset.go:260-264 | a stored document repeats no key at any depth |
| Json.LookupSetMember | internal/shared/publish.go:37-49 | setting one top-level key leaves every path under another key alone |
| Json.ScalarsRead | pkg/metax/dataset.go:218-245 | how null, booleans, numbers and strings read as text and as integers |
| CanonicalJson.CheckEqual | pkg/metax/dataset.go:251-286 | accepts exactly the pairs that are both missing, or both decode to the same JSON value; read off the documents: all numbers in range, scalars of one kind and value, arrays element by element, objects with the same keys whose last members are alike |
| JsonEquality.SameValueIff | pkg/metax/dataset.go:260-284 | comparing decoded values comes to comparing the documents themselves, with the last member of every repeated key |
| CanonicalJson.PrintInjective | pkg/metax/dataset.go:273-284 | the sorted-key printer is injective, for any number printer that tells doubles apart by number tokens |
| CanonicalJson.KeyOrderIgnored | pkg/metax/dataset.go:248-250 | swapping members with different keys does not change the value |
| CanonicalJson.ShadowedMemberIgnored | pkg/metax/dataset.go:260-262 | a member shadowed by a later one of its name does not change the value |
| CanonicalJson.ArrayOrderCounts | pkg/metax/dataset.go:263-284 | arrays are equal exactly when they are equal element by element in place |
| Datasets.ValidateUpdated | pkg/metax/dataset.go:205-303 | no error exactly when every check passes, and a reported error names a check that fails; always an error in preservation state 80 to 99, 101 to 129 or above 130 |
| Datasets.ValidateCreated | pkg/metax/dataset.go:188-202 | no error exactly when the cumulative state is one of a draft and no read-only field is set |
| Datasets.TemplateStore.CreateData | pkg/metax/dataset.go:60-121 | the document built and the state the shared template is left in |
| Datasets.GetModificationDate | pkg/metax/versioning.go:50-64 | the loop computes the latest of date_created, date_modified, date_deprecated and date_removed, the zero time if there is none |
| Datasets.UuidRoundTrip | pkg/metax/dataset.go:397-412 | reading a written id gives the id back |
| Datasets.DashedUuid | pkg/metax/dataset.go:397-412 | so does reading it with the usual dashes |
| Datasets.UuidCaseIgnored | pkg/metax/dataset.go:397-412 | an id reads the same in upper and lower case |
| Records.ConvertsIff | pkg/metax/dataset.go:420-463 | a record of the right types converts exactly when its catalog is one of the three known and its link, if it has one, names an id |
| Records.ConvertedReads | pkg/metax/dataset.go:397-469 | what it becomes, read off its last members: removed exactly if the member is true, linked exactly by a Qvain editor with a record id, its schema by its catalog, its creation date or the clock |
| Creation.TemplateRemembers | pkg/metax/dataset.go:69-105 | after any history of creations the template of a schema holds, field by field, what the last caller that gave the field gave |
| Creation.HistoryMattersIff | pkg/metax/dataset.go:69-121 | a creation gives what it would give on a fresh server exactly when it supplies every optional value some earlier one supplied, or its own embedded text is no JSON |
| Creation.AcceptedIff | pkg/metax/dataset.go:179-202 | after any history a creation is accepted exactly when the last cumulative state given for the schema is one of a draft and the dataset sets no read-only field |
| Creation.OneBadCallSticks | pkg/metax/dataset.go:100-104 | after one unacceptable cumulative state every later creation of the schema that gives none is refused |
| Creation.LinkRoundTrip | pkg/metax/dataset.go:397-463 | a record that carries the link the service wrote resolves to that dataset again |
| Sync.GetSyncInfo | internal/shared/fetch.go:105-135 | the two maps built from some listing of the owner's rows, empty when listing fails |
| Sync.SyncRecord | internal/shared/fetch.go:216-300 | the effect of a record on the batch is the plan decided from record and index alone; a row goes, and a deletion is reported, only for a record whose last `removed` member is true |
| SyncReadings.DenotedPlan | internal/shared/fetch.go:226-299 | a record that stands for a row, by its link or else its indexed identifier: removed if its last `removed` member is true and the row was synced before, skipped if true and not, else overwritten, unless it is dated not after the recorded sync; each exactly then |
| SyncReadings.StrangerPlan | internal/shared/fetch.go:240-279 | any other record becomes a new row with the columns given here, unless it is removed |
| SyncReadings.StatusTells | internal/shared/fetch.go:216-300 | a written record is the document of one row, a deleted one took one row with it, a skipped or failed one leaves every document |
| Sync.MergeRecord | internal/shared/fetch.go:240-299 | delete, create, skip or update, as decided for the resolved row |
| Sync.UpdateExisting | internal/shared/fetch.go:281-299 | an existing row is overwritten unless the record is dated and not newer than the recorded sync |
| Sync.SyncBatch | internal/shared/fetch.go:137-214 | rows and stamp change together, only when the channel was closed and no statement failed, and then all received records are in; an error is returned for a stream error or a failed commit and not for a timeout; each counter is the number of records handled that way, and read = written + deleted + skipped + failed |
| Sync.Fetch | internal/shared/fetch.go:69-103 | a fetch is the batch of current records and then, on the table the first one left and with an index of its own, the batch of removed ones, unless the first returned an error |
| Sync.FetchDataset | internal/shared/fetch.go:41-67 | fetching one dataset is a batch of one record that commits exactly when Metax answered, the record did not fail and the commit worked; the id returned is that of the row the record ended up in |
| Sync.BatchManager.Commit | internal/psql/batch.go:59-73 | rows and stamp commit together or not at all |
| Sync.BatchManager.CreateWithMetadata | internal/psql/batch.go:38-41 | inserts a row synced when the batch was opened, or aborts the transaction |
| SyncMerge.BatchIsMerge | internal/shared/fetch.go:137-300 | when records resolve to distinct rows the loop over the stale index equals a declarative row-by-row merge |
| SyncOrder.OrderDoesNotMatter | internal/shared/fetch.go:170-300 | for two batches over the same records in any two orders, with any clocks and any new ids: every existing row comes out with the same columns and document, but for the sync times; each record makes its row under the id drawn in its own run, alike but for the times; and no other rows appear |
| SyncOrder.PlansAgree | internal/shared/fetch.go:216-300 | one record handled at two times gets one plan, up to the new id and the times of a new row |
| SyncSafety.SyncIsSafe | internal/shared/fetch.go:240-299 | for any stream and any faults: a row goes only through a removed record that resolves to it while it is the user's Metax row with a recorded sync; the document of such a row is overwritten only by a record that names it and is undated or newer than that sync, the document of any other row only by a record linked to it, whatever the dates; origin columns and the published flag of existing rows never change; new rows are the user's, published, and Metax rows |
| SyncSafety.OverwritesIff | internal/shared/fetch.go:282-299 | a live record overwrites the row it names if and only if it is not dated at or before the row's recorded sync or the row is none of the user's Metax rows, and only a linked record can name the latter |
| SyncSafety.WordsMean | pkg/metax/dataset.go:397-463 | the words of the sync theorems (convertible, live, linked, naming a row) told from the members of the record |
| SyncSafety.SafeWithoutIndex | internal/shared/fetch.go:164-168 | without an index no row is removed, and a document is overwritten only by a live record linked to it, whatever the dates |
| SyncSafety.OlderOverwritesForeign | internal/psql/dataset.go:233-245 | for any listing of the user's rows, a live record linked to somebody else's row overwrites it although that row was synced since |
| SampleRecords.ForeignRowIsOverwritten | internal/shared/fetch.go:282-299 | one such record, row and batch |
| SampleRecords.RemovedMemberDecides | pkg/metax/testdata/published.json:134 | the record linked to a synced row: with `removed` true the row is removed, with `removed` false it is refreshed or overwritten by date |
| SyncMerge.BatchIsExplained | internal/psql/dataset.go:220-259 | every difference between the table before and after a batch is the work of a plan of the batch, also with faults and repeated rows |
| SyncMerge.IndexIsFirstMatch | internal/shared/fetch.go:118-132 | the identifier index is a first-match scan of the owner's Metax rows |
| SyncMerge.ContextDescribes | internal/shared/fetch.go:105-135 | whatever the order of the listing, the maps hold exactly the owner's Metax rows with their sync times, and exactly their non-empty identifiers |
| SyncTwice.SyncIsIdempotent | internal/shared/fetch.go:216-300 | if identifiers are distinct and stay so when stored, records resolve to distinct rows and clocks are not behind, a second sync of the same records changes no row's existence, origin, published flag or document, whatever its own clocks, new ids and faults |
| SyncPair.FetchIsIdempotent | internal/shared/fetch.go:69-103 | fetching the same current and removed records again changes no row's existence, origin, published flag or document, if the batches of the first fetch were orderly and no removed record names the row of an unlinked current one (or of a linked one stamped with the zero time) |
| SyncTwice.UniquenessKept | internal/shared/fetch.go:226-280 | a batch of unlinked records with distinct identifiers keeps identifiers unique among the owner's Metax rows; that they resolve to distinct rows is proved |
| SyncWithoutIndex.NoIndexDuplicates | internal/shared/fetch.go:164-280 | without an index a whole batch adds exactly one row for every live unlinked record, under the id drawn for it, removes none, and leaves in every other row the last record linked to it |
| SyncWithoutIndex.RepeatableIff | internal/shared/fetch.go:164-280 | a second such sync adds as many rows again; the rows, and rows and documents together, stay the same if and only if the stream holds no live unlinked record |
| SampleRecords.BareMakesRow | internal/shared/fetch.go:226-280 | a record that only names its catalog is a live unlinked one |
| Stream.RunsKeepInv | pkg/metax/api.go:439-489 | the invariant of channel, error slot, batch and counters in every interleaving |
| Stream.HandledInOrder | internal/shared/fetch.go:170-213 | in every interleaving the handled records are an in-order prefix of the decoded ones, each handled once; table and stamp change only on a commit, after the channel was closed and every element was decoded and handled; each counter is the number of handled records with that outcome, so read = written + deleted + skipped + failed |
| Stream.FinishedIsBatch | internal/shared/fetch.go:170-213 | however the two sides interleave, a finished run leaves the table, stamps, counters and error of the sequential batch over the records it handled |
| Stream.EndingsHaveCauses | internal/shared/fetch.go:170-213 | a stream error is reported only if the body is faulty, a timeout only if the deadline passed, a failed commit only after the channel was closed and a statement or the commit failed |
| Stream.ErrorSendNeverBlocks | pkg/metax/api.go:440-486 | at most one error is ever sent, so no send on the one-slot channel blocks |
| Stream.RunsAreBounded | pkg/metax/api.go:461-479 | every interleaving has at most 4n + 8 steps for n elements |
| Stream.NeverStuck | internal/shared/fetch.go:170-202 | until both sides have ended, some step other than the deadline is enabled |
| Stream.EndsWithBothGone | pkg/metax/api.go:474-479 | every interleaving continues to one where loop and goroutine have both returned |
| Stream.CommitPossibleIff | internal/shared/fetch.go:203-205 | some interleaving commits if and only if the stream opens as an array, every element decodes and no statement failed |
| Stream.ClosingTokenUndecided | pkg/metax/api.go:482-486 | with an unreadable closing token both a commit and an error are reachable |
| Store.Database.Create | internal/psql/dataset.go:72-86 | a draft with the column defaults, or no change |
| Store.Database.SmartUpdateWithOwner | internal/psql/dataset.go:338-370 | the owner's row is patched or replaced according to its family, or nothing changes |
| Store.Database.StorePublished | internal/psql/dataset.go:374-392 | the row holds the new document and is published; no other row changes |
| Store.Database.StoreNewVersion | internal/psql/dataset.go:113-134 | a published row with the document and date handed in that copies creator, owner, family and schema of its base |
| Store.Database.Delete | internal/psql/dataset.go:525-549 | exactly the owner's row goes, or nothing changes |
| Store.Database.GetWithOwner | internal/psql/dataset.go:478-491 | the row, exactly when it exists and the owner matches |
| Store.Database.GetAllForUid | internal/psql/dataset.go:552-589 | all rows of an owner, each once, in no particular order |
| Filters.Where | internal/psql/filters.go:150-163 | for every filter the text with its arguments is accepted and selects exactly the rows that match the filter |
| Filters.CompiledFilterMeans | internal/psql/filters.go:150-234 | the same for the specification: the text as the SQL reader takes it, column, operator and operand, equals the conjunction of the filter's conditions |
| Filters.ReadCompiled | internal/psql/filters.go:179-211 | the SQL reader takes a compiled condition for its column, its operator and its constant or whole placeholder number, so `$1` is never taken for `$10` |
| Filters.TextHasNoUserInput | internal/psql/filters.go:176-211 | filters that differ only in user-supplied values compile to the same text |
| Filters.WhereBuilder.MaybeAddTimeFilter | internal/psql/filters.go:214-234 | the conditions and arguments added for each comparison |
| Filters.WhereBuilder.MaybeAddString | internal/psql/filters.go:206-210 | the placeholder of the added argument stands where the template had its mark |
| Calendar.Partition | internal/psql/filters.go:80-111 | the range of a truncated date is the disjoint union of the ranges one unit below, years of months down to minutes of seconds, leap years included |
| Calendar.SecondWithin | internal/psql/filters.go:67-78 | every instant of a range lies in one second of it, whose truncation is the range's own date |
| Calendar.CivilTime | internal/psql/filters.go:67-78 | at every offset every instant lies in exactly one civil second |
| Calendar.CoversIsTruncation | internal/psql/filters.go:67-78 | an instant is in the range of a date exactly when its civil time truncates to the date |
| Calendar.StartsAtZero | internal/psql/filters.go:51-54 | the dates that start at the zero time, for every offset of less than a month: the stamp of the zero time, cut to the precision |
| TimeFilters.ParseRendered | internal/psql/filters.go:80-111 | a date written with any documented precision and zone is read back as the range it stands for, with the comparison of its suffix |
| TimeFilters.SpaceReadsAsPlus | internal/psql/filters.go:76-78 | a space in place of the plus of an offset reads the same |
| TimeFilters.DocumentDate | pkg/metax/versioning.go:50-64 | a document date in any zone, with up to nine digits of a fraction, is read as its instant to the nanosecond |
| TimeFilters.ComparisonsOnCivilTime | internal/psql/filters.go:214-234 | for every instant exactly one of lt, eq and gt holds, le is the complement of gt and ge of lt, and eq means that its civil time, which exists and is unique, truncates to the date |
| TimeFilters.SuffixesMean | internal/psql/filters.go:56-78 | for every documented date and on the clock of its zone: no suffix and `_eq` ask for the range of the date, `_lt` for what comes before it, `_gt` for what comes after, `_le` and `_ge` for the complements |
| TimeFilters.ZeroDateIsNoDate | internal/psql/filters.go:51-54 | a documented date is taken for an unreadable one exactly when it is the date of the zero time at its own precision, shifted by its offset |
| TimeFilters.ZeroDates | internal/psql/filters.go:80-111 | "0001" on a server in UTC and "0001-01-01T00:00:00Z" anywhere are such dates |
| Queries.GetDatasetFilter | cmd/qvain-backend/stats_api.go:60-73 | nothing is reported exactly when every parameter is known, single-valued and acceptable; then filter and SQL ask of every row exactly what the query says, whatever the map iteration orders |
| Queries.QueryParser.TimeFilters | cmd/qvain-backend/api_helpers.go:301-317 | filters and errors of the suffixes in the order they are visited |
| Queries.QueryParser.Validate | cmd/qvain-backend/api_helpers.go:353-362 | reports unknown and repeated parameters |
| Queries.FilterAsks | cmd/qvain-backend/stats_api.go:60-73 | the filter of an acceptable query matches a row exactly when the query asks for it, for every order of the suffixes |
| Queries.ParametersAsk | cmd/qvain-backend/stats_api.go:60-73 | what each parameter of the endpoint asks of a row, name by name |
| Queries.AcceptableIff | cmd/qvain-backend/api_helpers.go:261-362 | the queries the endpoint takes: known names, one value each, flags empty or true, readable dates, a known grouping |
| Projects.CheckProjectIdentifier | cmd/qvain-backend/api_proxy.go:85-97 | true exactly when, at every depth, each string entry named project_identifier names one of the user's projects |
| Projects.CheckProjectIdentifierMap | cmd/qvain-backend/api_proxy.go:47-65 | the same level by level, for any iteration order of the map |
| Projects.CheckProjectIdentifierArray | cmd/qvain-backend/api_proxy.go:68-82 | the same for arrays |
| Projects.CleanIffOnlyProjects | cmd/qvain-backend/api_proxy.go:47-97 | the level-by-level recursion agrees with the statement about all paths, both ways |
| Projects.HasProject | pkg/models/user.go:37-44 | membership in the list of projects |
| Projects.AddProperty | cmd/qvain-backend/api_proxy.go:101-137 | sets the entry of the root object, or of every object of a root array |
| Projects.EditAt | cmd/qvain-backend/api_proxy.go:115-126 | the edited entries hold the value with nothing below, and every scalar elsewhere is as before |
| Projects.EditStaysClean | cmd/qvain-backend/api_proxy.go:115-126 | setting another property adds no project to a body |
| ObjectIds.Generator.NextObjectId | schema/schema.sql:25-39 | shifts and ors give 41 bits of elapsed time, 13 of shard and 10 of sequence, without overlap; for the first 2^40 milliseconds since the epoch the id is their plain sum |
| ObjectIds.RunOfIds | schema/schema.sql:25-39 | with a clock that does not go back, ids grow from one millisecond to the next and two ids collide exactly when drawn in one millisecond a multiple of 1024 calls apart |
| ObjectIds.IdsAreDistinct | schema/schema.sql:25-39 | up to 1024 calls in every millisecond give distinct ids |
| ObjectIds.EqualIff | schema/schema.sql:34-38 | two ids are equal exactly when elapsed times agree mod 2^41 and sequence numbers mod 1024, for any clock |
| ObjectIds.NonNegativeIff | schema/schema.sql:37 | an id is non-negative exactly when bit 40 of the elapsed time is clear, and always fits a bigint |
| ObjectIds.PartsReadBack | schema/schema.sql:36-38 | the three parts are read back from the bits |

## Left out

- Sync.SyncBatch: a request that fails before its stream starts is not modelled; it changes nothing. The clock readings, new ids and statement faults of each record come with the record.
- Datasets.ValidateUpdated: the text comparison of read-only fields covers number spellings, the characters marshalling rewrites and indented containers; a client that writes an escape where none is needed is not modelled, and the code refuses it.
- Json.LookupConcat: the key order of a jsonb column is not modelled; stored members keep the order of the written document. The `||` of a scalar with anything but an array counts as a statement error.
- Datasets.GetModificationDate: fractions of a second with more than nine digits count as unreadable.
- Store.Database.StorePublished: the rounding of a timestamp column to microseconds is not modelled; `Protocol.SyncAfterPublish` holds for any rounding.
- TimeFilters.ParseRendered: zones are fixed offsets, also for the local time zone; daylight saving is left out because days are a fixed 24 hours there.
- ObjectIds.Generator.NextObjectId: bigint overflow errors at the ends of the clock and of the sequence are not modelled.
- CanonicalJson.CheckEqual: decoding of numbers is one abstract function to doubles, and the printer of doubles is any injective one; invalid UTF-8 is left out.
- Publishing.Publish: a body of Metax that is not JSON although its content type says so is not modelled; setting a property on a document whose root is not an object counts as an error.
- Service.HistoryIsKept: requests and batches run one at a time, although the validation and the statement of an update are two transactions; concurrent requests on one row are left out.
- Handlers.UpdateDataset: a missing dataset is an outcome of its own, because the handler dereferences it and panics.
- A record without a catalog identifier makes the conversion dereference nil; it is a precondition of the record type (`Sync.Record`).
- Case-insensitive matching of struct keys and the merging of repeated nested objects in typed decoding: repeated keys resolve to the last one.
- Parsing JSON text, HTTP, headers other than the count, timers, logging and response writing: they would only add plumbing.
- Sessions, cookies, login, access granters and the object and identity tables.
- Changing the cumulative state and refreshing directory contents: they compose steps that are modelled.
- Group-by paths and the counting queries of the statistics endpoint.
- Completeness of sync across batches: a stamp is taken at commit time and failed records are stamped over, so the code does not promise it.
- The wrap-around of the 32-bit `seq` column, which counts changes in the model without bound.

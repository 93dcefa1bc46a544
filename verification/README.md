# A verified model of a Sync 1.5 storage server

This project models go-syncstorage, a server for the Mozilla Sync 1.5 storage API, and
proves what its clients rely on: unique stamps, exact incremental sync, conditional
writes, batch uploads, pooled handlers, a cache and a replay guard. `dafny verify
dfyconfig.toml` checks everything.

How the files fit together:

- **Prelude, Decimal, Timestamps**: sequences, decimal text, and the stamp codec with its
  two roundings to a binary double (round to nearest, section 4.3.1 of IEEE 754-2008).
- **Tables, Sql, Query, Database**: one user's four tables. `Tables.Apply` says what each
  operation does; class `Database.DB` does it step by step, building its statements
  through the abstract SQL of `Sql`; `Query` has filters, paging and expiry.
- **Json, Records, BatchLines**: records as JSON lines, and back.
- **Requests, UserHandler**: what each request does, as a plan of table operations and a
  response, and the handler class that does it under the write delay.
- **Runs, Sync, Visibility, BatchProtocol, BatchLimits, CommitTotals, Usage**: runs of
  requests, purges, stops and reopenings of one user's server with a clock that never
  goes back, and what holds in all of them.
- **Reads, Conditions, Deletes, InfoReports, Lifetimes, PostReports, BatchLife, Refusals**:
  what clients see, stated on the server's answers and on the tables before and after:
  the rows and pages of a GET, conditional requests, deletes, info/collections, every
  field and expiry from the JSON to the row, the report of a POST, the life of a batch,
  and which requests are refused.
- **Pools, HandlerPools, LruTrace, PoolSteps**: the handler pool one call at a time, as a
  class, as an LRU cache, and under any interleaving of threads at lock granularity.
- **InfoCache, NonceFilter**: the info/collections cache over all users, and the two
  Bloom filters that take turns.

Where the code does something a reader might not expect, the model follows the code:

- Stamps between January 2038 and September 2039 with a certain residue lose their last
  millisecond when a client sends them back (`Timestamps.EchoWindows`,
  `Timestamps.LostMillisecond`). From November 2004 until then, and afterwards until past
  MaxTimestamp, none does. A client that saw one is refused although nothing changed, and
  fetches the records of that stamp again (`Sync.LostStampRefused`,
  `Sync.LostStampRepeats`); no write is ever missed (`Sync.ConditionalPostSafe`).
- A commit posts only the records before the first whose line does not fit the scanner
  (`BatchLines.ColumnRoundTrip`, `BatchProtocol.BatchRefinesPost`), and still reports the
  others as stored (`BatchLimits.LongRecordLost`).
- A whole-collection delete resets the collection's stamp, so a conditional POST after it
  goes through whatever was written before (`Sync.DeleteHidesWrites`,
  `Visibility.HiddenWrite`). Deleting everything moves no stamp at all
  (`Sync.DeleteAllUnnoticed`).
- The first POST to a collection is judged by the stamp its own request has just given
  that collection, so on an X-If-Unmodified-Since it is refused whatever the client saw
  (`Conditions.FirstPostRefused`). A refused PUT or POST leaves the collection behind
  (`Refusals.PutAnswers`, `Refusals.PostAnswers`).
- A PUT with X-If-Modified-Since of a record that is not there is answered with 304
  (`Conditions.PutIfModified`), and a DELETE of a record in a collection that is not there
  with 406 (`Deletes.DeleteMissing`).
- A TTL whose expiry passes 64 bits wraps into the past: the PUT is answered with 200 and
  the record is never returned (`Lifetimes.LongLifeLost`).
- MaxTotalBytes bounds each payload and not their sum, although the error message speaks
  of the batch size (`CommitTotals.CommittedTotalExact`, `BatchLimits.TotalNotBounded`).
- A write without a TTL to an expired record that has not been purged stays invisible
  (`Visibility.PutVisibleExactly`, `Visibility.AcceptedAndInvisible`). At the purging tick itself a single-record read
  can tell a purge (`Query.PurgeVisibleAtItsTick`). Following pages with limit 0 never
  advances (`Query.PagesFullAndDistinct`).
- The cache alters a header that is not 13 bytes long, as for a storage never written,
  and decides differently for stamps that lose a millisecond (`InfoCache.HitExact`).
- Overlapping calls for one user, or overlapping cleanings, can leave a user with two open
  handlers (`PoolSteps.SameUserRace`, `PoolSteps.CleanerRace`). When neither kind overlaps
  it cannot happen (`PoolSteps.OneOpenWhenOrderly`). The two guards that are missing, one
  after relocking and one before clearing an entry, are exactly what it takes to keep
  every open handler in the pool (`PoolSteps.OpenOwnedExact`).

Assumptions a reader should know: the clock does not go back and sleeps are no shorter
than asked; a transaction is one step; a new handler opens a database only after the old
one stopped; requests of one user do not overlap inside the cache, and nonce checks do
not overlap. Clock readings, file system answers and hash functions are parameters.

## Model

| member | source | states |
|---|---|---|
| `Sync.IncrementalSyncExact` | web/syncUserHandler.go:556-636 | in every run, for every stamp the client saw, an unlimited GET with newer= that stamp returns, each once, exactly the live records inserted or given a payload or sort index since; for a stamp that is read back a millisecond short, also those of that very stamp |
| `Sync.NewerIsWritten` | syncstorage/db.go:1095-1134 | in every run, the records stamped after what a client saw are exactly those whose content was written since |
| `Sync.ConditionalPostExact` | web/sentNotModified.go:56-81 | a POST conditional on any stamp the server had given out by the client's read is refused with 412 exactly if the last thing to move the collection's stamp since was a write, or nothing moved it and it was newer than what is read back; otherwise it does what it would do without the condition |
| `Sync.ConditionalPostSafe` | web/syncUserHandler.go:672-679 | for every such stamp: if the POST is not refused and the collection was not deleted whole, no put, post, commit or delete by id hit the collection since the client's read |
| `Sync.StampsAreSeen` | syncstorage/db.go:800-824 | the storage stamp and every collection's stamp of a reachable state are stamps these theorems cover |
| `Sync.DeleteHidesWrites` | syncstorage/db.go:367-395 | after a whole-collection delete a conditional POST goes through, whatever was written before it |
| `Sync.DeleteAllUnnoticed` | syncstorage/db.go:399-411 | deleting everything changes neither info/collections nor any conditional decision, though all records are gone |
| `Sync.LostStampRefused` | web/sentNotModified.go:56-81 | a client that saw 2147483648140 is refused although nothing happened since |
| `Sync.LostStampRepeats` | web/syncUserHandler.go:556-636 | and its GET for newer records returns those of that very stamp again |
| `Sync.NoWriteWasMissed` | syncstorage/db.go:800-824 | operations whose last mark on a collection is no write, with no whole delete, hold no write of it at all |
| `Sync.StampAfter` | syncstorage/db.go:800-824 | a collection's stamp after any operations, by the last one that moved it: unchanged, newer than before, or reset to 0 |
| `Runs.StampsIncrease` | web/syncUserHandler.go:264-290 | any two requests of a run, also across a stop and a reopening, stamp with strictly increasing multiples of 10 |
| `Runs.DelayExceedsLimit` | web/syncUserHandler.go:268-290 | a write goes on no earlier than 11 ms after the end of the last one, or 10 ms after its arrival when there was none, which puts all its stamps at least 10 ms after every stamp in the store |
| `Runs.StepKeeps` | web/syncUserHandler.go:255-294 | each request, purge, stop or reopening keeps the invariant, and its stamps are newer than all before it |
| `Runs.RunKeeps` | web/syncUserHandler.go:255-294 | the same for every run |
| `Runs.ReachableInv` | syncstorage/db.go:367-411 | from a new database, in every run: each record has its collection, its true size, and a stamp no later than its collection's and the storage's |
| `Runs.PlanChain` | web/syncUserHandler.go:318-337 | every request's operations, automatic creation of the collection included, carry stamps in order and refer to existing collections |
| `Tables.ApplyKeeps` | syncstorage/db.go:812-892 | each table operation stamped no earlier than the store keeps the invariant, across put, post, the three deletes, purge and the batch operations |
| `Tables.PutRowsOk` | syncstorage/db.go:543-574 | after a POST every record of the table still has its true size and a stamp within its collection's and the storage's |
| `Reads.GetReturns` | web/syncUserHandler.go:531-636 | the rows of a GET with good parameters are exactly the records of the collection with an asked id, a stamp strictly after newer and before older as read from their texts, and an expiry ahead, field by field, each once, no two with one id, in the order asked for, under the collection's stamp |
| `Reads.PageIs` | syncstorage/db.go:960-1015 | with a limit and an offset a GET returns exactly that part of the rows it returns without them, and a next offset exactly if there are more |
| `Reads.PagesAreAll` | web/syncUserHandler.go:620-650 | for every store, filter, order and limit from 1 on, sending the GET again from each next offset ends, and the pages concatenate to the rows without a limit; from offset k to the rows from k on |
| `Reads.GetRefused` | web/syncUserHandler.go:482-562 | a GET is refused with 400 exactly for more than 100 ids, a bad id, a bound that is no number, a negative newer, limit or offset; of a missing collection it is empty with 200 |
| `Reads.GetOneReturns` | web/syncUserHandler.go:1051-1094 | a GET of one record shows it, field by field, up to and including the tick it expires; otherwise it is a 404, or a 500 for an invalid name after a valid id |
| `Reads.ArrangementExists` | syncstorage/db.go:951-958 | for every finite set of rows there is an order as the database may use it, so no theorem about arranged rows is empty |
| `Conditions.ConditionalPut` | web/syncUserHandler.go:1126-1136 | a PUT with X-If-Unmodified-Since is a 412 with the record's stamp, changing nothing, exactly if the record is there unexpired with a stamp after what is read back; otherwise answer and tables are those without the condition |
| `Conditions.PutIfModified` | web/sentNotModified.go:23-51 | with X-If-Modified-Since it is a 304 exactly if that stamp, or 0 without an unexpired record, is not after what is read back |
| `Conditions.ConditionalPutSafe` | web/syncUserHandler.go:1126-1136 | in every run: if such a PUT is not refused and the record is there unexpired, no operation since the client's read deleted it or gave it content |
| `Conditions.UnchangedSince` | syncstorage/db.go:1095-1134 | in every run a record without a stamp after one given out before the run was neither deleted nor given content in it, and has the content it had |
| `Conditions.ConditionalDelete` | web/syncUserHandler.go:1176-1221 | the same for X-If-Unmodified-Since on a DELETE of a record that can be read |
| `Conditions.DeleteIfModified` | web/syncUserHandler.go:1176-1221 | and for X-If-Modified-Since |
| `Conditions.ConditionalDeleteSafe` | web/syncUserHandler.go:1176-1221 | in every run: if such a DELETE is not refused and the record can be read, nothing deleted it or gave it content since the client's read |
| `Conditions.ConditionalGetOne` | web/syncUserHandler.go:1051-1094 | a GET of one record under either condition is a 304 or 412 with its stamp, or what it is without the condition |
| `Conditions.CollectionConditions` | web/sentNotModified.go:23-81 | after every run a GET, POST or DELETE of a collection under either condition is a 412 or 304 with the collection's stamp, changing nothing, by the last operation since the client's read that moved that stamp, and otherwise what it is without the condition |
| `Conditions.FirstPostRefused` | web/syncUserHandler.go:662-679 | a POST with X-If-Unmodified-Since to a collection that is not there is a 412 with the stamp its own request gave the new collection, for every stamp a client can have seen |
| `Conditions.InfoConditions` | web/syncUserHandler.go:372-407 | info/collections under either condition is judged by the storage stamp |
| `Conditions.BadConditionsRefused` | web/sentNotModified.go:23-81 | two conditions at once, or one that is not a number from 0 on, are a 400 from every request that judges one, changing no record and no stamp |
| `Deletes.DeleteOne` | web/syncUserHandler.go:1176-1221 | a DELETE of a readable record leaves the records without exactly that one, every other equal, its collection and the storage stamped with what is answered, all else as it was |
| `Deletes.DeleteMissing` | web/syncUserHandler.go:1176-1221 | a DELETE of a record that cannot be read changes nothing; it is a 406 exactly if id and name are valid and the collection is not there, and otherwise a 404, also for an invalid name |
| `Deletes.DeletedIsGone` | web/syncUserHandler.go:1176-1221 | after it, and any run that does not write the record again, no GET returns it |
| `Deletes.DeleteNamed` | web/syncUserHandler.go:1003-1050 | a DELETE of named records leaves the records without exactly those of the collection, with the same stamps |
| `Deletes.DeleteWhole` | web/syncUserHandler.go:1003-1050 | a DELETE of a collection removes exactly its records, resets its stamp and stamps the storage |
| `Deletes.DeleteRefused` | web/syncUserHandler.go:1003-1050 | a DELETE of a collection is a 500 for an invalid name, a 404 for a missing one, a 400 for too many ids, then changing nothing, and a 200 otherwise |
| `Deletes.DeleteAllRecords` | web/syncUserHandler.go:1223-1233 | deleting everything removes every record and nothing else |
| `InfoReports.InfoAnswers` | syncstorage/db.go:421-443 | a name is in the answer exactly if its row in Collections has a stamp other than 0, and with that stamp, under the storage stamp |
| `InfoReports.InfoAfterRun` | web/syncUserHandler.go:372-407 | after every run a collection, also one made in it, is reported with the stamp of the last put, post, commit or delete by id, its creation, or what it had before; and not at all after a whole delete with nothing since |
| `InfoReports.InfoByLastMark` | web/syncUserHandler.go:372-407 | told by the last mark on a collection: the same report as before, one newer than every stamp before the run, or none |
| `InfoReports.InfoHeaderAfterRun` | web/syncUserHandler.go:372-407 | after every run the header is the stamp of the last put, post, commit or delete, or what it was |
| `InfoReports.InfoTextReads` | web/syncUserHandler.go:372-407 | the text of a report reads back as exactly its names and the texts of their stamps, in whatever order it is written |
| `Lifetimes.PutStoresContent` | web/syncUserHandler.go:1138-1174 | after a PUT answered with 200 the row has the payload and sort index of the JSON, null counting as empty and 0, or else what it had or the defaults; its stamp moves unless only a TTL is given; no other record changes |
| `Lifetimes.PutStoresTTL` | web/syncUserHandler.go:1157-1162 | its row expires 1000 times the JSON's ttl after the stamp that is answered; for null, or for a new record without one, after a hundred years; for an old one without, when it did before |
| `Lifetimes.BodyStores` | web/syncUserHandler_misc.go:61-68 | every valid value of a body has its row after the whole body, with expiry stamp + 1000 ttl, payload and sort index, unless a later value of that id gives that field again |
| `Lifetimes.PostStores` | web/syncUserHandler.go:694-726 | the same of a POST, from the stamp that is answered |
| `Lifetimes.CommitStores` | web/syncUserHandler.go:909-981 | the same of create, any steps, commit, from the stamp of the commit |
| `Lifetimes.ReturnedUntil` | syncstorage/db.go:912-958 | in every run that leaves a record alone, purges included, a GET returns it exactly while its expiry is ahead |
| `Lifetimes.PutLives` | web/syncUserHandler.go:1157-1162 | a record put with a ttl of n is returned by a GET at tick q exactly if q < stamp + 1000 n |
| `Lifetimes.PostLives` | web/syncUserHandler_misc.go:61-68 | the same for a record of a POST |
| `Lifetimes.CommitLives` | web/syncUserHandler.go:909-981 | and for one of a committed batch |
| `Lifetimes.LongLifeLost` | syncstorage/db.go:1042-1077 | a PUT with a ttl whose expiry passes 64 bits is a 200, and after every run that leaves the record alone no GET returns it |
| `PostReports.PostAccounts` | web/syncUserHandler.go:694-726 | a POST answered with 200 reports the ids it stored in order and all others as failed; each success is in the tables and no record changes that is not one |
| `PostReports.PostRefused` | web/syncUserHandler.go:694-726 | a plain POST is a 400 or 413, changing no record and no stamp, exactly if its body does not decode or leaves too many records |
| `BatchLife.TidyExact` | web/syncUserHandler.go:160-178 | tidying takes exactly the expired records and the batches at least MaxBatchTTL old, and changes nothing else |
| `BatchLife.BatchSurvives` | syncstorage/db_batch.go:136-148 | in every run whose tidyings come within MaxBatchTTL of a stamp the batch is no older than, a batch no request commits is still there |
| `BatchLife.LivesSinceUpload` | syncstorage/db_batch.go:51-80 | in every run, until MaxBatchTTL after the last request that made it or uploaded a record to it, a batch that is not committed is there |
| `BatchLife.UploadRefreshes` | syncstorage/db_batch.go:51-80 | an upload that keeps a record gives the batch the request's stamp, and any other leaves it |
| `BatchLife.UploadAnswered` | web/syncUserHandler.go:982-999 | an upload without commit is a 202 with the batch's id, the collection's own stamp, the ids of the values with a valid id and numbers in range, in order, and the ids of the others, or na for an invalid id |
| `BatchLife.CreateAnswered` | web/syncUserHandler.go:875-883 | so is the request that makes a batch, with the id of the new batch |
| `BatchLife.CommitBeyondLimits` | web/syncUserHandler.go:909-981 | a commit is a 200 exactly if what it would post is within the limits; otherwise a 400, after which just the batch is gone |
| `Refusals.ReadableParses` | web/misc.go:153-224 | a value parses exactly if it is an object with only the five members, each of its kind, numbers within 64 bits; null counts for payload, ttl and sortindex |
| `Refusals.BodyDecodes` | web/syncUserHandler_misc.go:19-71 | a body decodes exactly if every value is an object without a member called -; exactly the unreadable and too large ones are refused, by their id if it can be told |
| `Refusals.PutAnswers` | web/syncUserHandler.go:1096-1174 | the status of every PUT without conditions, told from its id, its collection's name and its JSON; a refusal makes the collection at most |
| `Refusals.PostAnswers` | web/syncUserHandler.go:654-820 | the same for every POST that does not commit a batch which is there |
| `Refusals.RunReadback` | syncstorage/db_batch.go:21-80 | in every run the column of every batch holds encoded records and nothing else |
| `Refusals.InternalErrorExactly` | web/syncUserHandler.go:909-981 | after every run from a new database a request is a 500 exactly if the name of its collection is invalid and looked at; reading a stored batch never fails |
| `Refusals.UnreadableBatchKept` | web/syncUserHandler.go:927-937 | were a batch unreadable all the same, its commit would be a 500 that changes no record and no stamp and keeps every batch, this one with what was appended |
| `BatchProtocol.BatchRefinesPost` | web/syncUserHandler.go:822-973 | create, in a collection that exists or that the request makes, any steps, commit: records, collections and stamps are what one plain POST of the concatenated uploads leaves at commit time, if every line fits; in general what its fitting prefix leaves |
| `BatchProtocol.BatchCollects` | syncstorage/db_batch.go:51-80 | whatever else runs, a batch that survives holds exactly the records uploaded to it, in order |
| `BatchProtocol.AppendAndCommit` | web/syncUserHandler.go:909-981 | appending the last records and committing posts everything kept, removes the batch, changes nothing else and answers 200 with the ids of that request |
| `BatchProtocol.CreateAndCommit` | web/syncUserHandler.go:875-981 | the same for a batch created and committed in one request, also when the request makes its collection |
| `BatchProtocol.CommitIsPlainPost` | web/syncUserHandler.go:694-726 | a commit whose lines all fit leaves the tables as a plain POST of the same body does; the rows themselves, TTLs included, are those of Lifetimes.CommitStores |
| `BatchProtocol.CreateHolds` | web/syncUserHandler.go:875-882 | a created batch holds the posted records, also when the request makes its collection, and the response names its id |
| `BatchProtocol.CreateAndAppendInvisible` | web/syncUserHandler.go:869-899 | a batch POST without commit changes no record and no stamp of an existing collection |
| `BatchProtocol.MissingBatchChangesNothing` | web/syncUserHandler.go:805-820 | a request naming no batch of its collection changes no record, stamp or batch, although handling carries on after the 400 |
| `BatchProtocol.BatchIdsNotReused` | syncstorage/schemas.go:50-55 | in every run the id of a batch that is gone is never given out again |
| `BatchLimits.WithinTotalPasses` | web/syncUserHandler.go:940-955 | a batch within MaxTotalBytes passes the size check |
| `CommitTotals.CommittedTotalExact` | web/syncUserHandler.go:909-981 | every commit of n records stays within MaxTotalBytes exactly if n is more than MaxTotalRecords or n times the longest payload that fits every limit is within it |
| `CommitTotals.LineLonger` | web/syncUserHandler.go:857-867 | the line of any record with a payload is at least 22 bytes longer than its id and payload together |
| `CommitTotals.CommitAtMost` | web/syncUserHandler.go:909-981 | no commit stores more than its number of records times that payload |
| `CommitTotals.CommitReaches` | web/syncUserHandler.go:909-981 | and for every number of records some commit stores exactly that |
| `BatchLimits.SizeCheckExact` | web/syncUserHandler.go:940-955 | the check by itself keeps every list of n records within the limit exactly if n is at most one or the limit is zero |
| `BatchLimits.TotalNotBounded` | web/syncUserHandler.go:909-981 | from any running server any number of records with distinct ids, each within every limit, can be uploaded one by one and committed with 200, all stored, whatever their total |
| `BatchLimits.DefaultTotalExceeded` | web/syncUserHandler.go:34-48 | with the default limits one batch stores more than twenty times MaxTotalBytes |
| `BatchLimits.FitsExactly` | web/syncUserHandler_misc.go:73-78 | a plain record fits the scanner exactly if its id and payload leave 23 bytes of the buffer |
| `BatchLimits.LongRecordLost` | web/syncUserHandler.go:916-973 | a record whose line does not fit, created and committed, is answered with 200 and its id among the successes while no record changes; a plain POST stores it |
| `BatchLimits.LongRecordExample` | web/syncUserHandler.go:916-973 | a payload of 257 KB is such a record |
| `Usage.UsageInEveryRun` | web/syncUserHandler.go:342-370 | in every run from a new database the sum of the per-collection report, the quota figure and the total of stored payload lengths are equal |
| `Usage.UsageConserved` | syncstorage/db.go:445-497 | the same for every consistent store |
| `Usage.UsageOfEach` | syncstorage/db.go:471-497 | a collection is in the report exactly if it has a record, with the length of its payloads |
| `Usage.QuotaUsed` | web/syncUserHandler.go:359-362 | the summing loop gives the total of the report, in whatever order the map is walked |
| `UserHandler.SyncUserHandler.ServeHTTP` | web/syncUserHandler.go:255-294 | a write first sleeps until its stamp will be new; a request runs exactly its planned operations and response, or nothing but an immediate 503 once stopped; only writes move lastChange |
| `UserHandler.SyncUserHandler.TidyUp` | web/syncUserHandler.go:160-178 | runs the two purges, records first; what they take is in BatchLife.TidyExact |
| `UserHandler.SyncUserHandler.GetCid` | web/syncUserHandler.go:318-337 | finds the collection's id, making the collection first when asked and needed; a bad name and a missing collection are told apart |
| `UserHandler.SyncUserHandler.CollectionPOST` | web/syncUserHandler.go:654-690 | makes the collection before any check, then the condition, then batch or plain POST |
| `UserHandler.SyncUserHandler.PostClassic` | web/syncUserHandler.go:694-726 | does what the plan of a plain POST says: rows and report are those of Lifetimes.PostStores and PostReports.PostAccounts |
| `UserHandler.SyncUserHandler.PostBatch` | web/syncUserHandler.go:730-800 | a body that does not decode, is too long or has failures starts no batch |
| `UserHandler.SyncUserHandler.StoreBatch` | web/syncUserHandler.go:801-899 | an unreadable batch id is refused; a missing batch falls through to the later steps |
| `UserHandler.SyncUserHandler.CreateBatch` | web/syncUserHandler.go:876-883 | stores the filtered records as a new batch, then commits or acknowledges |
| `UserHandler.SyncUserHandler.AppendBatch` | web/syncUserHandler.go:884-899 | appends only when there is something to append, and fails without change when the batch is missing |
| `UserHandler.SyncUserHandler.FinishBatch` | web/syncUserHandler.go:909-999 | commits, or acknowledges with the collection's own stamp unless a 400 has already been sent |
| `UserHandler.SyncUserHandler.CommitBatch` | web/syncUserHandler.go:909-981 | loads, re-parses, checks and posts the batch and removes it; a batch over a limit is removed unposted, as BatchLife.CommitBeyondLimits says of the tables |
| `UserHandler.SyncUserHandler.ParseBatch` | web/syncUserHandler.go:927-937 | all lines parsed in order, or none if one does not parse |
| `UserHandler.SyncUserHandler.CheckSizes` | web/syncUserHandler.go:940-955 | true exactly if each payload by itself is within MaxTotalBytes |
| `UserHandler.SyncUserHandler.BsoPUT` | web/syncUserHandler.go:1096-1174 | does what the plan of a PUT says, step by step: the tables it leaves and its answers are those of Lifetimes.PutStoresContent, Lifetimes.PutStoresTTL, Conditions.ConditionalPut and Refusals.PutAnswers |
| `UserHandler.SyncUserHandler.CollectionDELETE` | web/syncUserHandler.go:1003-1050 | does what the plan of a DELETE says: the tables it leaves and its answers are those of Deletes.DeleteNamed, Deletes.DeleteWhole, Deletes.DeleteRefused and Conditions.CollectionConditions |
| `UserHandler.SyncUserHandler.BsoDELETE` | web/syncUserHandler.go:1176-1221 | does what the plan of a DELETE of a record says: the tables it leaves and its answers are those of Deletes.DeleteOne, Deletes.DeleteMissing and Conditions.ConditionalDelete |
| `UserHandler.SyncUserHandler.CollectionGET` | web/syncUserHandler.go:482-652 | answers as the plan of a GET says, changing nothing: rows, order, pages and refusals are those of Reads.GetReturns, Reads.PageIs, Reads.PagesAreAll and Reads.GetRefused |
| `Requests.BatchIdRoundTrip` | web/syncUserHandler_misc.go:131-142 | a batch id given to a client reads back as itself and is never the word true |
| `Requests.AnyPrefixReads` | web/syncUserHandler_misc.go:131-142 | the character before the number is not looked at: any one-byte character names the same batch |
| `Records.RequestToPostBSOInput` | web/syncUserHandler_misc.go:19-71 | the two loops decode a body in place as the recursive decoding does, which Refusals.BodyDecodes and Lifetimes.BodyStores tell from the JSON: what is refused and under which id, and what each row gets, TTLs times a thousand |
| `Records.DecodeConcat` | web/syncUserHandler_misc.go:39-68 | decoding a concatenation is concatenating the decodings |
| `Records.RecordRoundTrip` | web/misc.go:154-224 | a record encoded as a line parses back to itself |
| `BatchLines.ColumnRoundTrip` | web/syncUserHandler.go:857-867 | the stored lines give back the records up to the first that does not fit, so all of them exactly if every line fits the 257 KB scanner |
| `BatchLines.SplitAppended` | web/syncUserHandler_misc.go:88-112 | when every line fits, splitting distributes over whatever is appended |
| `BatchLines.SplitJoined` | web/syncUserHandler_misc.go:88-112 | splitting joined lines gives them back up to the first that does not fit |
| `BatchLines.ReadNewlineJSON` | web/syncUserHandler_misc.go:88-112 | the scanning loop yields the lines and stops silently at one that does not fit |
| `BatchLines.FilterBatch` | web/syncUserHandler.go:822-854 | the loop keeps the valid records in order and groups the failures by id, the TTL naming the reason when both numbers are bad |
| `BatchLines.FailureReasons` | web/syncUserHandler.go:822-854 | a record with a bad id is kept out and reported as na, one with two bad numbers for its TTL |
| `BatchLines.EncodeBatch` | web/syncUserHandler.go:857-867 | the loop writes one line per record, in order |
| `BatchLines.FilterIsHarmless` | syncstorage/db.go:827-860 | posting the filtered records leaves the same table as posting all of them |
| `Json.ReadPrintedMembers` | web/syncUserHandler.go:857-867 | an object printed with these members reads back as these members |
| `Json.ReadQuoted` | web/misc.go:186-194 | a printed string reads back as itself, whatever it escapes |
| `Json.PrintedOneLine` | web/syncUserHandler.go:861-866 | a printed object contains no newline |
| `Timestamps.RoundTrip` | web/misc.go:340-350 | every stamp, printed through a double and parsed back through one, is itself when its stated residue allows and exactly one millisecond less otherwise |
| `Timestamps.EchoWindows` | syncstorage/utils.go:45-49 | all stamps from 2^40 ms to 2^31 s come back exactly, and all from 2^41 ms past MaxTimestamp; in between, exactly those without the stated residue |
| `Timestamps.LostMillisecond` | web/misc.go:340-350 | the others come back one millisecond short |
| `Timestamps.LostExample` | web/misc.go:340-350 | 2147483648140 is one of them |
| `Timestamps.MinusReads` | web/misc.go:340-350 | a number with a minus sign reads as its negation |
| `Timestamps.TextLength` | syncstorage/utils.go:45-49 | the text has 13 bytes exactly for stamps of 13 digits |
| `Timestamps.PrintsHundredths` | syncstorage/utils.go:45-49 | a multiple of 10 prints as its exact hundredths in spite of the double in between |
| `Timestamps.RoundDivIsNearest` | syncstorage/utils.go:45-49 | no integer is nearer to a quotient than the rounded one, and of two equally near it is the even one |
| `Timestamps.Now` | syncstorage/utils.go:22-43 | a multiple of 10 strictly after the instant and at most 10 ms after it |
| `Timestamps.NowSeparates` | syncstorage/utils.go:22-43 | instants 10 ms apart get stamps at least 10 apart |
| `Database.DB.UpdateBSO` | syncstorage/db.go:1081-1178 | for every choice of fields the built UPDATE, run with its bound values from the 7-slot array, is the pure record update |
| `Database.DB.BuildUpdate` | syncstorage/db.go:1095-1160 | placeholders and values match one to one, at most five, in every combination of fields |
| `Database.UpdateMeans` | syncstorage/db.go:1162-1171 | running a SET list that means a row on a key replaces exactly that row |
| `Database.DB.PutOne` | syncstorage/db.go:827-892 | the checked insert or update of one record, refused ones leaving the table alone |
| `Database.DB.PostBSOs` | syncstorage/db.go:543-574 | all records in order with one stamp, each success and failure reported, both stamps touched |
| `Database.DB.PutBSO` | syncstorage/db.go:577-603 | one record; on an error nothing at all changes |
| `Database.DB.TouchCollectionAndStorage` | syncstorage/db.go:800-824 | sets both stamps and nothing else |
| `Database.DB.DeleteBSOs` | syncstorage/db.go:658-701 | removes exactly the named records and touches both stamps |
| `Database.DeleteMeans` | syncstorage/db.go:674-684 | the built DELETE with its bound values removes exactly the records of the collection with a named id |
| `Database.DB.DeleteCollection` | syncstorage/db.go:367-395 | removes the collection's records and resets its stamp to 0, storage stamped |
| `Database.DB.PurgeExpired` | syncstorage/db.go:704-717 | removes exactly the expired records and counts them |
| `Database.DB.GetBSOs` | syncstorage/db.go:912-1017 | the page computed by fetching one row too many is the page of the filtered, arranged table, with its errors |
| `Database.DB.BuildSelect` | syncstorage/db.go:934-973 | the conditions and values built for a search |
| `Database.SearchMatches` | syncstorage/db.go:934-958 | the built conditions select a record exactly if the search is for it, one placeholder per value, for every id list |
| `Database.SelectMeans` | syncstorage/db.go:934-973 | the built SELECT is the window of the filtered, arranged table |
| `Database.DB.CreateCollection` | syncstorage/db.go:334-365 | a new name gets a new id and a stamp; the storage stamp stays; a bad or taken name changes nothing |
| `Database.DB.BatchCreate` | syncstorage/db_batch.go:21-48 | stores the data under an id never used before |
| `Database.DB.BatchAppend` | syncstorage/db_batch.go:51-80 | appends to the batch if it is the collection's, else changes nothing |
| `Database.DB.BatchPurge` | syncstorage/db_batch.go:136-148 | removes exactly the batches at least the given age and counts them |
| `Query.PagesComplete` | syncstorage/db.go:960-1015 | following the returned offset terminates and the pages concatenate to the unlimited result |
| `Query.PagesFullAndDistinct` | syncstorage/db.go:960-1015 | every page but the last is full and no row repeats; with limit 0 the offset never moves |
| `Query.OneRowMore` | syncstorage/db.go:1000-1007 | fetching one row too many decides whether there is more and gives the page |
| `Query.PurgeInvisible` | syncstorage/db.go:704-717 | after any number of purges up to now, every page, every stamp read and every later single read is the same |
| `Query.PurgeVisibleAtItsTick` | syncstorage/db.go:1020-1040 | at the purging tick itself a single read differs exactly if the record expires then |
| `Visibility.PutVisibleExactly` | web/syncUserHandler.go:1096-1174 | a record put with 200 is returned by a GET of its collection, after any run that leaves it alone, purges included, exactly if it has not expired, and as that PUT left it; without a TTL it expires when it did before, even in the past |
| `Visibility.AcceptedAndInvisible` | syncstorage/db.go:895-910 | on any running server a PUT without TTL to an expired record is answered with 200 and no GET returns the record |
| `Visibility.StaysThrough` | syncstorage/db.go:704-717 | through any operations that leave a record alone it stays as it was, or has expired and been purged |
| `Visibility.RunPurges` | web/syncUserHandler.go:160-178 | no purge of a run is later than its end, and requests never purge |
| `Visibility.HiddenWrite` | syncstorage/db.go:367-395 | on any running server a PUT and a whole-collection delete after which a client's condition no longer notices the PUT |
| `Query.WriteVisible` | syncstorage/db.go:827-892 | an accepted write can be read back at a tick exactly if it has not expired by then, one tick longer for a single read |
| `Query.ExpiredRecordSwallowsWrite` | syncstorage/db.go:895-910 | a write without TTL to an expired, unpurged record stays invisible, while after a purge it makes a live record |
| `PoolSteps.MapsAgreeAlways` | web/syncPoolHandler_elements.go:116-178 | in every interleaving the two maps have the same users, each map entry is a node of the list holding that user's element, no missing node is moved and no caller gets another user's element |
| `PoolSteps.HandedOutIsOpen` | web/syncPoolHandler_elements.go:116-178 | whichever step hands out an element, found or made, before or after relocking, it is open then and at the front of the list |
| `PoolSteps.OneOpenWhenOrderly` | web/syncPoolHandler_elements.go:145-168 | if calls for one user do not overlap and cleanings do not overlap, no interleaving gives a user two open handlers |
| `PoolSteps.SameUserRace` | web/syncPoolHandler_elements.go:145-168 | two overlapping calls for one user can open two handlers, since the user is not looked up again after the lock was released |
| `PoolSteps.CleanerRace` | web/syncPoolHandler_elements.go:89-107 | two overlapping cleanings can too, since the maps are cleared by user |
| `PoolSteps.OpenOwnedExact` | web/syncPoolHandler_elements.go:89-178 | all along an interleaving every open handler is the pool's entry for its user exactly if no relocked call finds an open entry of its user and no cleaning clears an open entry; then no user ever has two open handlers |
| `PoolSteps.StepOwned` | web/syncPoolHandler_elements.go:98-168 | the same for each step, told from the maps under the lock |
| `PoolSteps.StrandedMakesTwo` | web/syncPoolHandler_elements.go:158-168 | a handler left open outside the pool makes two as soon as its user is opened again |
| `PoolSteps.AloneIsGet` | web/syncPoolHandler_elements.go:116-178 | a thread by itself does, step by step, what the call without overlap does |
| `LruTrace.PoolRefinesLru` | web/syncPoolHandler_elements.go:116-178 | in every run of calls that do not overlap the list is the users in use by last use without repeats, whoever is evicted was used longest ago, maps agree, all are open, one handler each, at most maxPoolSize + 1 long |
| `LruTrace.NewUserInRun` | web/syncPoolHandler_elements.go:145-178 | after every run of calls that do not overlap a new user goes to the front, and of a pool over its size exactly the oldest tenth of that size and one more leave |
| `Pools.GetKeeps` | web/syncPoolHandler_elements.go:116-178 | a call without overlap keeps all that, and gives the caller its own open element at the front |
| `Pools.EvictKeepsFewer` | web/syncPoolHandler_elements.go:92-106 | a round of cleaning removes exactly the oldest element and stops its handler |
| `Pools.TightMeansOne` | web/syncPoolHandler_elements.go:35-52 | a pool whose open handlers are all in its map never has two for one user |
| `HandlerPools.HandlerPool.CleanupHandlers` | web/syncPoolHandler_elements.go:89-107 | the loop evicts exactly the min(n, len) oldest elements, stopping just their handlers |
| `HandlerPools.HandlerPool.StopHandlers` | web/syncPoolHandler_elements.go:109-112 | evicts and stops everything |
| `HandlerPools.HandlerPool.GetElement` | web/syncPoolHandler_elements.go:114-178 | finds or opens a user's element, making room first, with every failure |
| `InfoCache.HitsFromNewWorld` | web/cacheHandler.go:64-146 | from new databases and an empty cache, in every run of any number of users, a hit with a cacheable stamp is, header, body and 304 or 412 decision, the answer of that user's own open handler at that moment |
| `InfoCache.HitsAreCurrent` | web/cacheHandler.go:64-146 | the same from any coherent state |
| `InfoCache.CoherentAlways` | web/cacheHandler.go:74-90 | in every run each entry is what that user's handler would answer now, whatever is dropped, written or purged |
| `InfoCache.HitExact` | web/cacheHandler.go:93-125 | an entry answers every conditional request as the handler does exactly if its stamp has 13 bytes and reads back exactly |
| `InfoCache.NeverWrittenHit` | web/cacheHandler.go:93-125 | a hit on a storage never written sends another header than the handler |
| `InfoCache.LostStampHit` | web/cacheHandler.go:115-118 | at 2147483648140 a client that sends the stamp back gets a 304 from a hit and a 200 from the handler |
| `InfoCache.CacheableWindow` | web/cacheHandler.go:93-97 | all stamps from 2^40 ms to 2^31 s are such |
| `InfoCache.Unpacks` | web/cacheHandler.go:101-138 | the body always unpacks, the header exactly if it has 13 bytes |
| `InfoCache.PackEntry` | web/cacheHandler.go:133-136 | the two overlapping copies give the header cut or padded to 13 bytes, then the body |
| `InfoCache.CacheHandler.InfoCollection` | web/cacheHandler.go:101-146 | a non-empty entry answers; otherwise the handler does, and only a 200 is kept |
| `InfoCache.OnlyWritesStamp` | web/syncUserHandler.go:372-407 | no read, purge, stop or reopening changes what info/collections reports; what it reports is InfoReports.InfoAnswers and InfoReports.InfoAfterRun |
| `NonceFilter.ReplaysRefused` | web/hawkHandler.go:198-225 | in every history a key accepted at t is refused until one tick past t plus the half-life, whatever comes in between |
| `NonceFilter.ForgottenAfterTwoRotations` | web/hawkHandler.go:209-217 | one tick later it can be accepted again |
| `NonceFilter.RetainedIsRefused` | web/hawkHandler.go:209-224 | a key in the current filter, or in the previous one since after t, is refused and stays so across a rotation |
| `NonceFilter.HawkHandler.NonceNotFound` | web/hawkHandler.go:198-225 | rotates when due, refuses a key either filter has, otherwise records it in the current one |
| `NonceFilter.HawkHandler.Rotate` | web/hawkHandler.go:209-217 | swaps the two filters and clears the one that becomes current |
| `NonceFilter.BloomFilter.Add` | vendor/github.com/willf/bloom/bloom.go:130-137 | sets the key's bits and no others |
| `NonceFilter.BloomFilter.Test` | vendor/github.com/willf/bloom/bloom.go:167-178 | true exactly if all the key's bits are set |
| `NonceFilter.BloomFilter.ClearAll` | vendor/github.com/willf/bloom/bloom.go:208-212 | no bit is left set |
| `NonceFilter.AddedHas` | vendor/github.com/willf/bloom/bloom.go:130-137 | an added key is found, and none is lost by adding another |

## Left out

- SQLite itself: tables are maps, statements are token lists with a small interpreter, and the order of rows that tie is any fixed arrangement of the selected rows. Files, pragmas, vacuum and page statistics are not modelled.
- KeyValues holds only the storage stamp here; the scheduling key that spaces purges is not modelled, so a purge may happen between any two steps.
- UserHandler.SyncUserHandler.TidyUp: does not model the random schedule that skips most calls, nor a purge during a request or against a handler being stopped; it says what a purge that runs does, and runs may purge between any two steps.
- UserHandler.SyncUserHandler.PostBatch: does not model the X-Weave and Content-Length refusals before the body is read, which look only at header text.
- UserHandler.SyncUserHandler.CollectionPOST: does not model the refusals of a Content-Type, or of a known-bad crypto body before the collection is made, which look at header and body text.
- UserHandler.SyncUserHandler.BsoPUT: does not model the same refusals, nor that of an Accept header.
- UserHandler.SyncUserHandler.CollectionGET: takes the ids as already trimmed, and gives whole records where the reply without `full` lists only their ids.
- Records.RequestToPostBSOInput: takes the values of the body as already split; a newline-separated body passes the same scanner first, so a plain POST of that type also loses what follows a line that does not fit.
- HTTP plumbing: routing, media types, Accept headers, the X-Weave size headers and Content-Length checks, error texts, unparsable numbers in query parameters, logging and configuration.
- General JSON: the model prints and reads the records the server itself writes, without white space, nesting or surrogate pairs. A client's record arrives as an abstract value that is an object with some members, or is not.
- General floating point text: stamps are parsed as plain decimals with at most a minus sign and no exponent, and texts whose product leaves the 64-bit range are not modelled.
- The names and ids the schema inserts: a new database has any collections, never written, and no records.
- Info handlers other than info/collections and the quota figure, such as the collection counts: they would add only simple queries.
- bigcache eviction: the cache is a map that may drop any entry at any time. Overlapping requests of one user in the cache are not modelled.
- Tokens, Hawk headers and their cryptography: only the nonce filter and its rotation. The four base hashes are a parameter, and false positives are allowed for and not estimated.
- Retries of the pool's caller, and data races on the list inside one step: unlocked reads are single steps.
- User paths on disk.
- PoolSteps.OneOpenWhenOrderly: one direction only, since disorderly interleavings may also end well; PoolSteps.SameUserRace and PoolSteps.CleanerRace show that neither condition can be dropped, and PoolSteps.OpenOwnedExact has guards that are both necessary and sufficient for keeping every open handler in the pool.
- BatchLimits.WithinTotalPasses: one direction, since the converse is what the check fails to do; BatchLimits.SizeCheckExact and CommitTotals.CommittedTotalExact say exactly when it holds.
- Closing the database file when a handler stops: a stopped handler serves nothing, and that is all the model says of it.

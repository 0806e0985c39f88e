# The replication protocol of tap-mysql, proved

tap-mysql copies MySQL tables into a Singer target. It reads rows by SELECT, or from the binlog, keeps
bookmarks in a mutable `state`, and writes RECORD, BATCH, SCHEMA, ACTIVATE_VERSION and STATE messages in
order. A connection may drop at any fetch, and the process may die after any message and be started again
from a STATE it wrote. This project models that behaviour and proves what it promises over whole runs:
what is lost, what is repeated, and when the target equals the source.

## How the parts fit

- `Singer`, `Writers`, `FileNames`: bookmarks and messages, the two BATCH writers as classes, and the order
  of binlog file names and coordinates.
- `QuerySpec`, `SyncQuery`, `ArrowQuery`: the fetch loops of `sync_query` and `_sync_query_arrow` as methods
  on a tap process, each proved to write exactly the messages of a specification, and what that
  specification promises.
- `FullTableSpec`, `FullTable`, `CrashSafety`: the five-attempt scan of `full_table.sync_table` and any
  number of process deaths.
- `Historical`: the LOG_BASED snapshot and its anchor. `Incremental`, `IncrementalTarget`: the `>=` query, its
  restarts, and what they leave in the target.
- `StartPosition`, `Drift`, `BinlogSpec`, `BinlogLoop`: where a binlog run starts, schema drift, and the
  event loop as a class with the source's fields. `BinlogSpec.LoopRun` is the loop's specification, step by
  step; the theorems about runs are about it. `Deletions` and `GtidMode` say what its SCHEMA messages and
  its STATE messages are worth.
- `Scheduling`: which streams go where, and in what order.
- `Tables`, `Replication`: the source as a log of row changes, the target as a keyed table with versions and
  tombstones, and the whole protocol as a state machine in which the source commits at any time. The
  invariant says that each key shows a value that the source held at some time since the bookmark, or is as
  the last fresh snapshot found it. The main theorem,
  `Replication.SnapshotPlusLogConvergesExactlyWhenHarmless`, holds for every interleaving and every start.
- `Refinement`, `LogRefinement`, `EndToEnd`: the messages of the scan and of the binlog loop are paths of that
  machine, so the machine's theorems are theorems about them.
- `FreshStarts`, `Leftovers`: what a fresh snapshot does with what an earlier run left behind. `Hex`: binary
  columns on the two paths.

## Assumptions

- One key column of integers. Updates keep their key; `Tables.ReplayTracksExactlyWhenKeysStay` says what
  happens otherwise.
- The reader reports where an event starts, positions never go back, and a row event has its position to
  itself (stated by the code at tap_mysql/sync_strategies/binlog.py:939-943).
- The target applies messages in order; ACTIVATE_VERSION drops the rows of other versions; a record with
  the deletion time is a tombstone; a clock reading is not a version the target already holds.
- A message counts as written once the target has it. A restart uses a STATE written since the last start,
  or the one that start used, and does not take a stream out of the binlog run.
- `FullTable`, `Incremental` and `CrashSafety` speak of a table that does not change; `Replication` and the
  modules after it let it change at any time.
- In GTID mode a server sends the transactions that the position does not include, in the order of its log. A
  MariaDB position speaks of one domain up to a number, a MySQL one of one server's number or interval
  (`GtidMode.Includes`). Every event of the log belongs to a transaction, whose GTID includes itself and no
  transaction logged later (`GtidMode.Orderly`); that numbers rise along the log is asked by
  `GtidMode.LeastGtidIsInTime` alone.
- A target reads a row out of some of its columns (`LogRefinement.ReadsOnly`), whatever it makes of them.

## Where the code keeps less than it promises

Each of these has its exact condition proved, and a lemma at an input where it fails.

- A LOG_BASED snapshot that starts from a bookmark of another replication method does not forget what it finds
  there. A version is used again, so that rows deleted before the snapshot stay
  (`FreshStarts.RowUnderTheOldVersionStays`); a maximum and a last key bound the query, so that the rows up to
  that key are lost (`FreshStarts.RowsUpToTheLastKeyAreLost`).
  `Replication.SnapshotPlusLogConvergesExactlyWhenHarmless` says exactly when it converges all the same.
- BATCH mode loses the rows of the open file when an attempt fails (`FullTable.SyncTable`,
  `FullTable.OpenFileIsLost`); an INCREMENTAL one loses those of them below its last key
  (`Incremental.SyncTable`, `Incremental.OpenFileIsGone`). The comment at
  tap_mysql/sync_strategies/common.py:455-456 is about the record, not about the file it waits in.
- An unkeyed LOG_BASED snapshot that starts over keeps its version and so keeps rows deleted in between
  (`Leftovers.FullScanConvergesExactlyWhenLeftoversAreHarmless`, `Leftovers.DeletedRowStays`).
- A FULL_TABLE scan that is resumed gets a new version, whose announcement drops the rows it does not read
  again (`Leftovers.ResumedFullTableIsCompleteExactlyWhenNothingWasRead`, `Leftovers.RowBelowTheLastKeyIsLost`).
- A stream named as under way that has no bookmark is left out of the run
  (`Scheduling.ReorderingDropsOnlyANewStream`, `Scheduling.NewStreamUnderWayIsLeftOut`).
- A STATE in GTID mode can point past rows of its own transaction
  (`GtidMode.GtidStateIsSafeExactlyWhenNextOpensTransaction`, `GtidMode.MidTransactionStateSkipsARow`); on MySQL a
  restart from it reads again all transactions but that one (`GtidMode.MySqlRestartReadsAgainAllOtherTransactions`).
- The start of a GTID run compares numbers without their domain and passes over streams without a GTID
  (`GtidMode.StreamsAreCoveredExactlyWhenInTime`, `GtidMode.LeastNumberOfAnotherDomainLosesAnEvent`,
  `GtidMode.StreamWithoutGtidLosesAnEvent`).
- The set of ignored columns is shared by all streams, so that a column stays out; and discovery does not ask
  whether a column was deselected, so that it comes back (`Drift.IgnoredColumnStaysOut`,
  `Drift.ColumnOfAnotherStreamStaysOut`, `Drift.DeselectedColumnComesBack`).
- The first SCHEMA of a binlog run lacks the deletion time
  (`Deletions.DeletionFitsExactlyWhenTheEntryWasReplaced`, `Deletions.FirstDeletionDoesNotFit`).
- A record carries the columns of the table as it is discovered, not of the table as it was when its row
  changed (`LogRefinement.RecordReadsLikeItsRowExactlyWhenColumnsArrive`, `LogRefinement.DroppedColumnIsLost`).
- Binlog STATE messages can skip a multiple of 1000
  (`BinlogSpec.MultipleIsCheckpointedExactlyWhenNoEventStepsOver`, `BinlogSpec.BigEventIsNotCheckpointed`).
- An update that takes a row to another key leaves the old row in the target
  (`Tables.ReplayTracksExactlyWhenKeysStay`, `Tables.MovedRowStays`).
- File names stop sorting by age after number 999999 (`FileNames.WiderNameOrder`,
  `FileNames.RolloverBreaksTheOrder`).
- VARBINARY values come out of the binlog padded (`Hex.VarbinaryPathsAgreeExactlyWhenFull`,
  `Hex.ShortValueIsPadded`), and values of a column without a declared length stripped
  (`Hex.UnpaddedPathsAgreeExactlyWhenNothingIsStripped`, `Hex.NullByteIsLost`). The comment at
  tap_mysql/sync_strategies/common.py:98-99 says that the SELECT path strips null bytes; the query does not,
  and the model follows the query.

The example state in tap-mysql's own README.md:474-478 writes a GTID as 0:364864374:599. The code splits
a MariaDB GTID at hyphens (tap_mysql/sync_strategies/binlog.py:384) and refuses such a text; the model follows the
code (`StartPosition.SeqNoOf`).

Besides, `initial_binlog_complete` is written and at once dropped by the whitelist of the scan
(tap_mysql/__init__.py:248-251 and tap_mysql/sync_strategies/full_table.py:120); nothing depends on it.

## Model

| member | source | states |
|---|---|---|
| `FileNames.NameOrderIsAgeOrder` | tap_mysql/sync_strategies/binlog.py:753 | file names with one prefix and numbers of equal width compare as strings exactly as their numbers do, which the end test and `sorted` rely on |
| `FileNames.WiderNameOrder` | tap_mysql/sync_strategies/binlog.py:511 | once the number outgrows its width, an older name sorts first if and only if its number is at most the newer number without its extra digits |
| `FileNames.RolloverBreaksTheOrder` | tap_mysql/sync_strategies/binlog.py:753 | the file after number 999999 sorts before it: past that point string order is not age order |
| `Writers.BatchWriter.Write` | tap_mysql/sync_strategies/common.py:263-278 | a row joins the open file; the file goes out as one BATCH message, whole and in order, exactly when it holds `batch_size` rows |
| `Writers.BatchWriter.Flush` | tap_mysql/sync_strategies/common.py:280-303 | what is in the open file goes out as one BATCH message, and nothing does when there is none |
| `Writers.ArrowBatchWriter.Write` | tap_mysql/sync_strategies/common.py:323-335 | a record batch joins the open file whole, an empty one is passed over; the file goes out exactly when it holds `batch_size` rows or more |
| `Writers.ArrowBatchWriter.Flush` | tap_mysql/sync_strategies/common.py:337-363 | what waits goes out as one BATCH message, rows in order, and nothing does when nothing waits |
| `QuerySpec.ProgressDelivers` | tap_mysql/sync_strategies/common.py:441-490 | after any number of rows, what was sent out is the rows read short of those in the open file: none lost, repeated or moved |
| `QuerySpec.ProgressCheckpoints` | tap_mysql/sync_strategies/common.py:455-490 | every STATE carries the bookmark of exactly the rows delivered before it, so it is written only when no row is held back |
| `QuerySpec.QueryDeliversAll` | tap_mysql/sync_strategies/common.py:441-496 | a query that comes to its end delivers every row once, in order, and each STATE covers just the rows before it |
| `QuerySpec.QueryEndsWithState` | tap_mysql/sync_strategies/common.py:492-496 | the last message of a finished query is a STATE with the final state |
| `QuerySpec.QueryCountsItsStates` | tap_mysql/sync_strategies/common.py:431-496 | n rows give max(1, n divided by the period rounded up) STATE messages; a boundary on the last row adds no second one |
| `QuerySpec.RecordsAndStates` | tap_mysql/sync_strategies/common.py:455-496 | in RECORD mode n rows give n records and a STATE for each thousand begun |
| `QuerySpec.WithoutItsFieldTheBookmarkStays` | tap_mysql/sync_strategies/common.py:463-487 | an INCREMENTAL bookmark without a replication key, or any other without a maximum, does not move |
| `QuerySpec.OneFieldMoves` | tap_mysql/sync_strategies/common.py:463-487 | a row moves one field of one bookmark: the replication key value, or the last key |
| `QuerySpec.ProgressRepeats` | tap_mysql/sync_strategies/common.py:460-490 | cut at any message of a RECORD mode query, at most one period of rows follows the last STATE |
| `QuerySpec.QueryIsOfVersion` | tap_mysql/sync_strategies/common.py:449-460 | every record of a query is of its stream and carries its version; nothing else but STATE and BATCH messages goes out, each in its mode |
| `QuerySpec.FilesAreFullButTheLast` | tap_mysql/sync_strategies/common.py:263-303 | every BATCH message of a JSONL query holds exactly `batch_size` rows, but for a shorter one, never empty, that a finished query may end with |
| `SyncQuery.Cursor.FetchMany` | tap_mysql/sync_strategies/common.py:442 | the rows come in order, none twice, until they are used up; then the query is over or the connection drops |
| `SyncQuery.Tap.AdvanceBookmark` | tap_mysql/sync_strategies/common.py:463-487 | the bookmark after one row, for each replication method |
| `SyncQuery.Tap.SaveRow` | tap_mysql/sync_strategies/common.py:447-490 | a row is written, then the bookmark moves past it, then a STATE follows if the row completed a period or a file |
| `SyncQuery.Tap.FinishQuery` | tap_mysql/sync_strategies/common.py:492-496 | after the last row the open file goes out, then a STATE unless the last row just had one |
| `SyncQuery.Tap.SyncQuery` | tap_mysql/sync_strategies/common.py:403-496 | the fetch loop writes exactly the messages of its specification and leaves the bookmark after the last row read, whether it ends or loses the connection |
| `ArrowQuery.SaveBatch` | tap_mysql/sync_strategies/common.py:527-567 | one record batch: written whole, then the bookmark moves to its last row, then a STATE if the file went out |
| `ArrowQuery.SyncQueryArrow` | tap_mysql/sync_strategies/common.py:499-572 | the Arrow loop writes exactly the messages of its specification and leaves the bookmark after the last row read |
| `ArrowQuery.ArrowDelivers` | tap_mysql/sync_strategies/common.py:526-567 | the files hold the record batches read, in order, but for those that wait |
| `ArrowQuery.ArrowCheckpoints` | tap_mysql/sync_strategies/common.py:536-567 | every STATE of the Arrow loop carries the bookmark of the last row of the last file, with nothing waiting |
| `ArrowQuery.ArrowDeliversAll` | tap_mysql/sync_strategies/common.py:526-572 | a finished Arrow query delivers every row once, in order, and each STATE covers just the rows before it |
| `ArrowQuery.FileCrossesAtItsLastBatch` | tap_mysql/sync_strategies/common.py:331-334 | each file that fills up first crosses `batch_size` at its final record batch |
| `ArrowQuery.QueriesAgreeOnSingles` | tap_mysql/sync_strategies/common.py:306-313 | on record batches of one row the Arrow loop and the JSONL loop write the same messages, STATE messages included |
| `FullTableSpec.SelectedAreRows` | tap_mysql/sync_strategies/full_table.py:107-112 | the key range picks exactly the rows of the table above the last key and up to the maximum |
| `FullTableSpec.SelectResumes` | tap_mysql/sync_strategies/full_table.py:107-114 | moving the lower bound to any row of an answer leaves exactly the rows after it |
| `FullTableSpec.AnswerResumes` | tap_mysql/sync_strategies/full_table.py:165-182 | after any prefix of an answer, the next attempt pins the same maximum and asks for exactly the rest |
| `FullTableSpec.PinKeepsFields` | tap_mysql/sync_strategies/full_table.py:168-178 | pinning keeps every other field, pins once, and leaves a maximum whenever the table has a row |
| `FullTableSpec.QueryDelivers` | tap_mysql/sync_strategies/common.py:441-496 | a query that may lose its connection delivers all it read but the rows of the open file, and its STATE messages stay exact |
| `FullTableSpec.RecordsLoseNothing` | tap_mysql/sync_strategies/common.py:459-461 | in RECORD mode no attempt leaves rows behind |
| `FullTableSpec.AccountQuery` | tap_mysql/sync_strategies/common.py:429 | an attempt that fails in BATCH mode loses exactly the rows of its open file, because the bookmark has moved past them and the writer is made anew |
| `FullTableSpec.AttemptResumes` | tap_mysql/sync_strategies/full_table.py:150-197 | an attempt goes on exactly where the ones before it stopped, with the one pinned maximum |
| `FullTableSpec.AttemptKeepsAnchor` | tap_mysql/sync_strategies/full_table.py:165-195 | every STATE of every attempt keeps the fields the scan began with and the pinned maximum |
| `FullTableSpec.RepeatsOfQuery` | tap_mysql/sync_strategies/common.py:460-490 | within one query at most 1000 rows follow a STATE wherever it is cut, and at most 999 follow the last one when the connection is lost |
| `FullTable.Attempt` | tap_mysql/sync_strategies/full_table.py:160-196 | one attempt: pin the maximum or keep it, select from the bookmark on, and run the query to its end or its failure |
| `FullTable.RunAttempts` | tap_mysql/sync_strategies/full_table.py:150-200 | up to five attempts, each from the state the one before it left; what they deliver and lose adds up as the specification says, whatever the placement of the failures |
| `FullTable.SyncTable` | tap_mysql/sync_strategies/full_table.py:119-206 | its messages are those of its attempts between its announcements, and with an unchanging table whose ordered key is in order, success delivers the range up to the pinned maximum once and in order if and only if no failed attempt lost an open file, which RECORD mode never does; five failures leave a prefix; without the ordered key, in whatever order the rows come, the last attempt delivers the whole table; it succeeds if and only if one of five attempts does; on success the two scan fields are cleared and all others kept |
| `FullTable.FinishedScanLeaves` | tap_mysql/sync_strategies/full_table.py:19-31 | a finished scan leaves the version and the completion flag, for a LOG_BASED stream also the coordinates and the GTID, and no other field |
| `FullTable.ScanLeavesOthersAlone` | tap_mysql/sync_strategies/full_table.py:120 | it touches no bookmark of another stream |
| `FullTable.WhatIsAnnouncedFirst` | tap_mysql/sync_strategies/full_table.py:122-141 | a scan announces its version first unless the stream was completed before or its version was set to null |
| `FullTable.OpenFileIsLost` | tap_mysql/sync_strategies/common.py:429 | two rows in files of two and a connection lost after the first: the scan succeeds without that row |
| `CrashSafety.SyncTableIsARun` | tap_mysql/sync_strategies/full_table.py:150-206 | what `SyncTable` promises of its messages is what the crash proofs ask of a run |
| `CrashSafety.StateStandsAfter` | tap_mysql/sync_strategies/common.py:489-490 | each STATE of a run stands after a prefix of the range, with that prefix delivered before it |
| `CrashSafety.RestartResumes` | tap_mysql/sync_strategies/full_table.py:103-114 | a restart from any STATE asks for exactly the rows that the dead run had not delivered before it |
| `CrashSafety.CrashesLoseNothing` | tap_mysql/sync_strategies/full_table.py:95-206 | over any number of process deaths, what the runs delivered up to their STATE messages and what the last one delivers is the whole range, once and in key order |
| `CrashSafety.CrashRepeatsLittle` | tap_mysql/sync_strategies/common.py:460-490 | resumed from its last STATE, a dead run has at most 999 rows repeated for each attempt that had failed since that STATE, and 1000 for the one it died in |
| `CrashSafety.CrashAfterStateRepeatsOnePeriod` | tap_mysql/sync_strategies/common.py:460-490 | killed while no attempt has failed since its last STATE it has at most 1000 rows repeated, however many failed before that |
| `CrashSafety.RepeatsReachTheBound` | tap_mysql/sync_strategies/common.py:461 | the bound of 1000 is met: killed between the thousandth record and its STATE |
| `Historical.DoSyncHistorical` | tap_mysql/__init__.py:207-303 | a resumed snapshot keeps coordinates, version and maximum in every STATE; a fresh one stores the coordinates before the first row when the key is ordered and after the last one otherwise; a finished one is ready for the binlog, delivered its rows, and announced the stored version; either way the messages are those of a scan from just that state; a view is refused |
| `Historical.FreshScan` | tap_mysql/__init__.py:245-303 | the branch for a snapshot that starts anew |
| `Historical.RunScan` | tap_mysql/__init__.py:241-244 | a scan leaves the anchor alone in every STATE and in the end |
| `Historical.CarriedStatesResume` | tap_mysql/__init__.py:89-92 | a STATE with a pinned maximum is never ready, and with coordinates it can be resumed |
| `Historical.UnanchoredStatesAreNotReady` | tap_mysql/__init__.py:286-303 | a STATE without coordinates is never ready: so reads each STATE of an unkeyed first snapshot |
| `Historical.ResumedIsReady` | tap_mysql/__init__.py:68-92 | a resumable snapshot lacks only the end of its scan to be ready |
| `Historical.WhatIsReady` | tap_mysql/__init__.py:68-92 | coordinates or a GTID make a stream ready; a zero position, an empty name, or a field of the scan, even with the key 0, does not |
| `Historical.WhatCanResume` | tap_mysql/__init__.py:219-244 | a snapshot goes on from a maximum with coordinates, and with a GTID alone in GTID mode only |
| `Historical.AnchorSurvivesCrashes` | tap_mysql/__init__.py:241-284 | over any sequence of crashes and resumptions the coordinates, the version and the maximum stay the same, no STATE in between counts as ready, and the end is ready with those coordinates |
| `Incremental.BeginSync` | tap_mysql/sync_strategies/incremental.py:29-56 | a changed replication key forgets its value, an unchanged one goes on from it; the bookmark gets the version of the run, which is the stored one if there is one, and keeps no other field |
| `Incremental.Attempt` | tap_mysql/sync_strategies/incremental.py:83-114 | one attempt goes on with the sweep from the bookmark in memory; if it fails in BATCH mode, the rows of its open file that lie below its last key and have not gone out before are gone |
| `Incremental.SweepResumes` | tap_mysql/sync_strategies/incremental.py:89-99 | querying again from the last key, ties included, skips no row |
| `Incremental.SyncTable` | tap_mysql/sync_strategies/incremental.py:28-114 | success delivers every row from the first bookmark on, ties included, but for exactly those that are gone; each STATE, and the state in the end, carries the replication key and the version under which the rows go out, does not go back, and the rows before it account for its bookmark; in RECORD mode nothing is gone, the rows come in key order and each STATE is the bookmark of the row before it; it goes through if and only if one of five attempts does |
| `Incremental.OpenFileIsGone` | tap_mysql/sync_strategies/common.py:429 | two rows in files of three and a connection lost after both: the next query starts at the second, and the first is not delivered |
| `Incremental.SyncTableIsARun` | tap_mysql/sync_strategies/incremental.py:28-114 | what `SyncTable` promises of its messages is what the restart proofs ask of a run that dies anywhere; in RECORD mode nothing is gone |
| `Incremental.CrashCovers` | tap_mysql/sync_strategies/incremental.py:41-56 | what a dead run delivered before the STATE it is resumed from accounts for everything below the new bookmark, which is not lower than the old; the STATE holds the version of the run |
| `Incremental.RestartsKeepTheVersion` | tap_mysql/sync_strategies/common.py:49-55 | from a state that has a version, all runs have that one, however often they die and whatever the clock says |
| `Incremental.CrashesLoseNothing` | tap_mysql/sync_strategies/incremental.py:71-114 | over any failures and restarts every row with a key at or above the first bookmark is delivered at least once, or was gone in one of the runs |
| `IncrementalTarget.RowsStay` | tap_mysql/sync_strategies/incremental.py:52-56 | a row that the target has under the stored version stays there through all later runs |
| `IncrementalTarget.RestartsAddUp` | tap_mysql/sync_strategies/incremental.py:28-114 | fed with the messages of any number of dead runs and of the last one, the target has every row from the first bookmark on, but for those that were gone, and in RECORD mode all of them |
| `StartPosition.GetMinLogPosPerLogFile` | tap_mysql/sync_strategies/binlog.py:465-490 | each file of the bookmarked streams maps to the least position in it, which some stream has, and to the streams in it |
| `StartPosition.First` | tap_mysql/sync_strategies/binlog.py:511 | the first of the sorted names is below no other |
| `StartPosition.CalculateBookmark` | tap_mysql/sync_strategies/binlog.py:493-515 | the start is the lexicographic minimum over the streams and is the bookmark of one of them; it is refused exactly when the file of some stream is no longer on the server, or no stream has a bookmark |
| `StartPosition.FindGtid` | tap_mysql/sync_strategies/binlog.py:446-460 | of the GTIDs that a server writes in a list, the last one whose second part is the id of the server, or none if there is no such GTID |
| `StartPosition.OfServerReads` | tap_mysql/sync_strategies/binlog.py:452-458 | a GTID counts as one of the server if and only if the server is the second of its three parts |
| `StartPosition.EachServerHasItsOwn` | tap_mysql/sync_strategies/binlog.py:446-460 | of "0-1-5,1-2-9" server 1 takes the first, server 2 the second, and any other is refused |
| `StartPosition.CalculateGtidBookmark` | tap_mysql/sync_strategies/binlog.py:356-425 | the GTID with the least number among the streams that have one, refused exactly when the number of one of them cannot be read; without any, a MariaDB run starts from the last GTID of its server among those at the earliest coordinates of the streams, and is refused exactly when there is none, when their file is gone, or on MySQL |
| `StartPosition.NothingIsInferredFromNoCoordinates` | tap_mysql/sync_strategies/binlog.py:409-413 | from coordinates without a file or at position 0 no GTID is inferred |
| `StartPosition.SeqNoReads` | tap_mysql/sync_strategies/binlog.py:383-391 | the number of a GTID is read back out of it: out of a MariaDB one, and out of a MySQL one with a single number or with an interval |
| `StartPosition.NumberOfDigits` | tap_mysql/sync_strategies/binlog.py:383-391 | the number is read in the decimal system: written out in digits, any number is read back |
| `StartPosition.WhatIsRead` | tap_mysql/sync_strategies/binlog.py:383-391 | 42 is read out of 0-1-42, uuid:42 and uuid:1-42; texts without that part, or of the other server, are refused |
| `GtidMode.MariaDbIncludes` | tap_mysql/sync_strategies/binlog.py:1004-1013 | a MariaDB position includes a transaction if and only if it is of the same domain and its number is not greater |
| `GtidMode.MySqlIncludes` | tap_mysql/sync_strategies/binlog.py:1004-1013 | a MySQL position of one number includes that transaction alone, one of an interval those of the server with a number in it |
| `GtidMode.StreamsAreCoveredExactlyWhenInTime` | tap_mysql/sync_strategies/binlog.py:356-396 | a run from any GTID is sent all that each of its streams still needs if and only if it begins in time for each: the last logged transaction that it includes is logged no later than the last one that the stream's GTID includes, or for a stream without a GTID ends before its coordinates |
| `GtidMode.LeastGtidIsInTime` | tap_mysql/sync_strategies/binlog.py:381-396 | in a log whose numbers rise, as those of one server or one domain do, the GTID with the least number is in time for every stream that has one, single or interval |
| `GtidMode.LeastNumberOfAnotherDomainLosesAnEvent` | tap_mysql/sync_strategies/binlog.py:381-396 | with GTIDs of two domains the least number can be the later transaction: a stream at "0-1-5" beside one at "1-1-3" loses its event |
| `GtidMode.StreamWithoutGtidLosesAnEvent` | tap_mysql/sync_strategies/binlog.py:381-396 | a stream at its coordinates beside one at the later "0-1-2" loses its event |
| `GtidMode.StateCarriesGtid` | tap_mysql/sync_strategies/binlog.py:736-797 | every STATE of a run in GTID mode carries the GTID of the transaction under way, and before the first one the GTID that the run started from, for every stream |
| `GtidMode.RestartIsAtTransactionEnd` | tap_mysql/sync_strategies/binlog.py:779-797 | of the items after such a STATE, a reader started from it is sent exactly those from the end of the transaction under way on |
| `GtidMode.GtidStateIsSafeExactlyWhenNextOpensTransaction` | tap_mysql/sync_strategies/binlog.py:779-935 | a restart from a STATE covers every row not yet written if and only if the next item that opens a transaction or has rows of the run opens a transaction |
| `GtidMode.MidTransactionStateSkipsARow` | tap_mysql/sync_strategies/binlog.py:927-935 | the transaction "0-1-2" with two events, of 1000 rows and of one: the STATE after the first skips the row of the second |
| `GtidMode.MySqlRestartReadsAgainAllOtherTransactions` | tap_mysql/sync_strategies/binlog.py:779-797 | on MySQL a STATE names one transaction: of the items before it, a restart is sent again exactly those of all other transactions |
| `Drift.ShouldRunDiscovery` | tap_mysql/discover_utils.py:117-151 | true exactly when some column is unknown or is selected by default and supported |
| `Drift.DesiredColumns` | tap_mysql/discover_utils.py:407-449 | the selected available columns and all automatic ones, and no others |
| `Drift.DiffSettles` | tap_mysql/sync_strategies/binlog.py:829-896 | every column of a difference ends in the schema or among the ignored ones; nothing else is ignored, nor anything the schema now has |
| `Drift.SchemaIsSentExactlyWhenTheTableDiffers` | tap_mysql/sync_strategies/binlog.py:840-865 | a discovery sends a SCHEMA first if and only if some supported column of the table is new, gone or changed, or the schema has no deletion time; it has the supported columns and the deletion time |
| `Drift.KnownTableIsNotDiscoveredAgain` | tap_mysql/discover_utils.py:117-151 | once a discovery has replaced the entry of a stream, no event with columns of that table leads to another, supported or not |
| `Drift.EventIsRefusedExactlyWhen` | tap_mysql/sync_strategies/binlog.py:678-718 | an event of the run raises if and only if a column of it has no name or the name UNKNOWN_COL with a number, or its table is to be discovered and is not there |
| `Drift.UnknownColumnsAre` | tap_mysql/sync_strategies/binlog.py:45 | the names refused are exactly UNKNOWN_COL followed by digits |
| `Drift.DroppedColumnsAre` | tap_mysql/sync_strategies/binlog.py:667-673 | the names passed over are exactly those that begin with __dropped_col_, digits and two underscores |
| `Drift.NamesOfColumns` | tap_mysql/sync_strategies/binlog.py:667-707 | names of either kind, and names that are of neither |
| `Drift.DroppedColumnsAreNoDifference` | tap_mysql/sync_strategies/binlog.py:667-673 | a column that was dropped since is no difference |
| `Drift.NewColumnArrives` | tap_mysql/sync_strategies/binlog.py:829-896 | a new column _note is discovered and reaches its record |
| `Drift.DeletionHasItsTime` | tap_mysql/sync_strategies/binlog.py:608-624 | a deletion of one row: its record is the row with the time of the event in _sdc_deleted_at |
| `Drift.ChangesFit` | tap_mysql/sync_strategies/binlog.py:566-630 | the records of an event have only columns that the last SCHEMA of their stream has, but for the deletion time |
| `Drift.EventKeepsSchemas` | tap_mysql/sync_strategies/binlog.py:815-920 | whatever event arrives, each stream's desired columns stay equal to its schema's columns and every record written fits the last SCHEMA sent |
| `Drift.ConversionFindsItsColumns` | tap_mysql/sync_strategies/binlog.py:570-578 | converting a row looks up only columns the schema has |
| `Drift.DeletionTimeIsAnnounced` | tap_mysql/sync_strategies/binlog.py:608-624 | a deletion fits the last SCHEMA if and only if that SCHEMA has the deletion time |
| `Drift.IgnoredColumnStaysOut` | tap_mysql/sync_strategies/binlog.py:738-740 | a column that the table supports, selected or not, reaches its record if and only if the schema has it or the event calls for discovery; for one that calls for discovery that is certain unless some stream has its name ignored: the set is shared |
| `Drift.ColumnOfAnotherStreamStaysOut` | tap_mysql/sync_strategies/binlog.py:891-896 | a column whose type is not supported in one table is ignored, and a supported one of that name in another table stays out |
| `Drift.DeselectedColumnComesBack` | tap_mysql/discover_utils.py:117-151 | a supported column that was deselected is not in the schema; its first event leads to a discovery, and its record has the column |
| `Drift.DiffsNeverRepeat` | tap_mysql/sync_strategies/binlog.py:891-896 | while no table changes, a column enters the differences of a stream at most once |
| `Drift.DiscoveriesAreBounded` | tap_mysql/sync_strategies/binlog.py:831-896 | over a run of any length a stream meets differences, and so is discovered, at most once for each column name in its events |
| `Deletions.SchemaOverRun` | tap_mysql/sync_strategies/binlog.py:865-889 | over a run the last SCHEMA of a stream is its first one until its entry is replaced, and has the deletion time from then on |
| `Deletions.DeletionFitsExactlyWhenTheEntryWasReplaced` | tap_mysql/__init__.py:370-376 | a deletion fits the last SCHEMA sent before it if and only if its own event or an earlier one led to a discovery that replaced the stream's entry |
| `Deletions.FirstDeletionDoesNotFit` | tap_mysql/__init__.py:370-376 | a run whose first event is a deletion without a new column: its record does not fit the SCHEMA that the run began with |
| `BinlogSpec.DataKeepsSchemas` | tap_mysql/sync_strategies/binlog.py:744-920 | the schema invariant over a whole run, from any start that has it |
| `BinlogSpec.RunIsWritten` | tap_mysql/sync_strategies/binlog.py:744-935 | beside its STATE messages a run writes the data of its items alone, in order; each STATE stands where the last item handled starts, with all data up to there before it |
| `BinlogSpec.RunCarriesEachRow` | tap_mysql/sync_strategies/binlog.py:566-630 | over a run, each row of each event of its streams is a record among the messages, in order, under the version of the stream, with the values of the row in the columns of the stream by then; a deletion has the time of its event, and no other record has one of its own |
| `BinlogSpec.RowsAreTheRecords` | tap_mysql/sync_strategies/binlog.py:566-630 | the row count that the checkpoints go by is the number of records among the messages |
| `BinlogSpec.MultipleIsCheckpointedExactlyWhenNoEventStepsOver` | tap_mysql/sync_strategies/binlog.py:926-935 | in any run there is a STATE at a multiple of 1000 rows if and only if no event leads from fewer rows past it |
| `BinlogSpec.BigEventIsNotCheckpointed` | tap_mysql/sync_strategies/binlog.py:927-928 | a single event of 1001 rows gets no STATE |
| `BinlogSpec.SingleRowEventsMeetEveryPeriod` | tap_mysql/sync_strategies/binlog.py:927-935 | with at most one row an event there is a STATE after every thousandth row |
| `BinlogSpec.EveryThousandthSkipIsCheckpointed` | tap_mysql/sync_strategies/binlog.py:926-935 | in any run there is a STATE at every thousandth event of other streams |
| `BinlogSpec.SkippedEventsAreCheckpointed` | tap_mysql/sync_strategies/binlog.py:926-935 | a run over n events of other streams says nothing but n / 1000 STATE messages |
| `BinlogSpec.OtherItemsAreNotCounted` | tap_mysql/sync_strategies/binlog.py:767-800 | rotations and GTID events count neither as rows nor as skipped: a run over nothing else says nothing |
| `BinlogSpec.SingleRowsAreCheckpointed` | tap_mysql/sync_strategies/binlog.py:926-935 | a run over n events of one row each has n / 1000 STATE messages |
| `BinlogSpec.BookmarksMove` | tap_mysql/sync_strategies/binlog.py:767-797 | a rotation moves the bookmarks to the file that begins, a GTID event to itself and its GTID; row events move none, and streams outside the run never move |
| `BinlogSpec.OtherFieldsStay` | tap_mysql/sync_strategies/binlog.py:541-557 | a run leaves alone all fields but coordinates and GTID, and all other streams |
| `BinlogSpec.FinalPosIsNotPastTheEnd` | tap_mysql/sync_strategies/binlog.py:758-765 | the bookmark a run leaves is not past its end |
| `BinlogSpec.RunCoversTheLog` | tap_mysql/sync_strategies/binlog.py:744-765 | a run handles exactly the events of the log between its start and its end |
| `BinlogSpec.RunsChain` | tap_mysql/sync_strategies/binlog.py:939-953 | the next run starts no later than the first event not handled; it repeats at most the events at the last one's position, one row event at most, and nothing if and only if the run met its end or read its last event in the end file |
| `BinlogSpec.ChainCoversTheLog` | tap_mysql/sync_strategies/binlog.py:939-953 | any number of runs, each from the bookmark that the one before it left, between them handle every event of the log from the first start to the last end |
| `BinlogSpec.RestartLosesNothing` | tap_mysql/sync_strategies/binlog.py:926-935 | by file and position a restart from any STATE among the messages of a run reads again every event whose data did not precede it |
| `BinlogLoop.GenerateStreamsMap` | tap_mysql/sync_strategies/binlog.py:633-645 | the map has every catalog entry with the deletion time added, under the version of its bookmark; the SCHEMA sent for it has the columns of the catalog, without the deletion time |
| `BinlogLoop.UpdateEach` | tap_mysql/sync_strategies/binlog.py:541-557 | every stream of the run gets the same coordinates, and the GTID if there is one |
| `BinlogLoop.MovedKeepsVersions` | tap_mysql/sync_strategies/binlog.py:541-557 | moving the bookmarks leaves every version alone |
| `BinlogLoop.BinlogSync.Rediscover` | tap_mysql/sync_strategies/binlog.py:840-865 | discovery keeps exactly the supported columns and adds the deletion time |
| `BinlogLoop.BinlogSync.SettleDiff` | tap_mysql/sync_strategies/binlog.py:825-896 | a difference leads to discovery, with a SCHEMA if the schema changed, or to ignoring; it raises exactly when discovery finds no table |
| `BinlogLoop.BinlogSync.HandleRows` | tap_mysql/sync_strategies/binlog.py:566-630 | one record for each row, filtered to the desired columns, with the version of the bookmark, or the time of the event if it has none, and the deletion time on deletions |
| `BinlogLoop.BinlogSync.HandleRowsEvent` | tap_mysql/sync_strategies/binlog.py:799-924 | a row event of a selected stream is verified, reconciled with the schema and written; any other is counted as skipped |
| `BinlogLoop.BinlogSync.Handle` | tap_mysql/sync_strategies/binlog.py:767-924 | rotate and GTID events move the bookmarks, row events do not |
| `BinlogLoop.BinlogSync.Checkpoint` | tap_mysql/sync_strategies/binlog.py:926-935 | the bookmarks move to the start of the event and a STATE goes out exactly when the row count or the skip count is a positive multiple of 1000 |
| `BinlogLoop.BinlogSync.Run` | tap_mysql/sync_strategies/binlog.py:722-953 | the loop handles exactly the items before the end, in order, unless one raises; its messages and every bookmark are those of the run's specification; a completed run ends at the final position |
| `BinlogLoop.EndTest` | tap_mysql/sync_strategies/binlog.py:753 | the end test is the order of coordinates |
| `BinlogLoop.LastPos` | tap_mysql/sync_strategies/binlog.py:944-945 | the lines after the loop compute the final position |
| `Scheduling.GetNonBinlogStreams` | tap_mysql/__init__.py:95-167 | the streams by SELECT: the interrupted one at the front, then those without state, then those with state, each kind in the order of the catalog, and no other or lost one but a new stream named as under way; refused exactly when a view is to resume a snapshot |
| `Scheduling.NewStreamGoesFirst` | tap_mysql/__init__.py:146-165 | a known stream and then a new one in the catalog: the new one is synced first |
| `Scheduling.EmptyEntryIsNew` | tap_mysql/__init__.py:122-128 | an entry in the state that holds nothing counts as none |
| `Scheduling.GetBinlogStreams` | tap_mysql/__init__.py:170-184 | the LOG_BASED streams that are ready, in catalog order |
| `Scheduling.ListsPartition` | tap_mysql/__init__.py:124-145 | every selected stream is in exactly one of the two lists |
| `Scheduling.KnownStreamsAreValid` | tap_mysql/__init__.py:55-65 | the validity test never removes a stream that has state |
| `Scheduling.ReorderingDropsOnlyANewStream` | tap_mysql/__init__.py:155-162 | the reordering is a permutation if and only if the stream named as under way has state; otherwise just that stream is left out of the run |
| `Scheduling.NewStreamUnderWayIsLeftOut` | tap_mysql/__init__.py:155-162 | a single new stream that is named as under way: nothing is synced |
| `Scheduling.KnownStreamComesFirst` | tap_mysql/__init__.py:155-162 | a stream with state that was under way comes first and the others keep their order |
| `Tables.ReplayTracksExactlyWhenKeysStay` | tap_mysql/sync_strategies/binlog.py:586-604 | handling a change keeps the target equal to the source if and only if the change is not an update that takes an existing row to another key: then the old row stays |
| `Tables.ReplayAdvances` | tap_mysql/sync_strategies/binlog.py:744-924 | one change replayed moves every key's lower bound past it |
| `Tables.ReplayAllView` | tap_mysql/sync_strategies/binlog.py:744-924 | after a replay every key that was touched is up to date and every other one is as it was |
| `Leftovers.ScanShows` | tap_mysql/sync_strategies/full_table.py:138-206 | after a finished scan the target shows the rows that its last attempt delivered, beside them those of the earlier attempts, and beside these what it held under the same version |
| `Leftovers.FullScanConvergesExactlyWhenLeftoversAreHarmless` | tap_mysql/__init__.py:286-303 | a snapshot that reads the whole table anew, followed by the log, converges if and only if every row the target held under its version is still in the table at the last attempt or is touched by the log, whatever the attempts before it read of the table as it was by then |
| `Leftovers.AttemptReadsWhatWasThere` | tap_mysql/sync_strategies/full_table.py:150-196 | what an attempt delivers, failed or not, was in the table as it read it |
| `Leftovers.NewVersionHasNoLeftovers` | tap_mysql/sync_strategies/common.py:52-53 | under a version the target does not know there are no such rows |
| `Leftovers.RestartKeepsTheVersion` | tap_mysql/sync_strategies/common.py:49-55 | the STATE messages of a dead unkeyed snapshot hand its version on, so its rows stay |
| `Leftovers.DeletedRowStays` | tap_mysql/__init__.py:259-303 | a table with one row, a snapshot that dies after its last STATE, the row's deletion, and a run that starts over from that STATE: the row stays in the target |
| `Leftovers.ResumedFullTableIsCompleteExactlyWhenNothingWasRead` | tap_mysql/__init__.py:311-317 | a FULL_TABLE scan resumed under a new version leaves the target complete up to the maximum if and only if no row of the table is at or below the last key: the announcement drops those rows |
| `Leftovers.RowBelowTheLastKeyIsLost` | tap_mysql/__init__.py:311-317 | rows 3 and 7 and a scan that died at key 5: row 3 is gone in the end |
| `Replication.FreshStateIsBegun` | tap_mysql/__init__.py:248-275 | a fresh snapshot has version and coordinates in its state before it reads a row, and still has the maximum and the last key that were there |
| `Replication.BegunKinds` | tap_mysql/__init__.py:68-92 | from then on the stream can be resumed while a maximum is pinned; without one it is ready, or starts over if it still has a last key |
| `Replication.CommitKeepsInv` | tap_mysql/sync_strategies/binlog.py:758-763 | whatever the source commits meanwhile, every STATE goes on accounting for every key |
| `Replication.RestartKeepsInv` | tap_mysql/__init__.py:68-92 | a process may die at any time and the next may start from any STATE since the last start, or from that one's own |
| `Replication.BeginFreshKeepsInv` | tap_mysql/__init__.py:245-284 | a fresh snapshot, from any state that needs one, takes its coordinates before it pins or reads anything |
| `Replication.BeginResumedKeepsInv` | tap_mysql/__init__.py:241-244 | a resumed one goes on with its coordinates, its version and its maximum |
| `Replication.PinMaxKeepsInv` | tap_mysql/sync_strategies/full_table.py:165-178 | a row above the pinned maximum, or any row of a table that was empty, is left to the log |
| `Replication.ReadRowKeepsInv` | tap_mysql/sync_strategies/common.py:446-475 | a row read at any time since its query began is covered by the log from the coordinates on, and so is a key the query passed over |
| `Replication.FinishSnapshotKeepsInv` | tap_mysql/sync_strategies/full_table.py:202-206 | clearing the two fields when the range is read, and announcing the version, leave a STATE to read the log from |
| `Replication.BeginReplayKeepsInv` | tap_mysql/sync_strategies/binlog.py:1049-1058 | a binlog run may start at or before the bookmark, as it does when another stream is behind |
| `Replication.ReplayOneKeepsInv` | tap_mysql/sync_strategies/binlog.py:799-924 | each change replayed keeps every STATE accounting for every key although the values may go back for a while |
| `Replication.MoveKeepsInv` | tap_mysql/sync_strategies/binlog.py:926-935 | bookmarks that do not pass the rows written are safe |
| `Replication.SyncOthersKeepsInv` | tap_mysql/__init__.py:327-365 | the syncs of other streams in between do no harm |
| `Replication.HistoriesKeepInv` | tap_mysql/__init__.py:207-303 | the invariant over any interleaving of source changes, snapshots, retries, deaths, restarts and binlog runs |
| `Replication.CheckpointsAccountForEveryKey` | tap_mysql/__init__.py:241-284 | at any moment and for any STATE that is gone on from: the target shows for each key a value the source held since its coordinates, or has the key as the last fresh snapshot found it, and the snapshot is still to read it, never asks for it, or found no row |
| `Replication.SnapshotPlusLogConvergesExactlyWhenHarmless` | tap_mysql/__init__.py:241-303 | in any history from any state that needs a fresh snapshot, when a binlog run completes the target shows exactly the source table as it was at the run's end if and only if at each key what the last fresh snapshot found is harmless: the log touches the key; or the snapshot asks for it, and nothing was left or there is a row; or it does not, and what was left is what the table has |
| `Replication.OutsetIsOfTheLastFreshStart` | tap_mysql/__init__.py:245-275 | what the last fresh snapshot found is read off the state and the target as it begins; afterwards the target only drops cells of other versions, and the log is read from no later change |
| `Replication.SnapshotPlusLogConverges` | tap_mysql/__init__.py:245-303 | for a stream that begins without a bookmark the target always shows exactly the source table as it was at the run's end |
| `FreshStarts.QuietRun` | tap_mysql/__init__.py:245-303 | a history for every start: a fresh snapshot that finds nothing to read and a binlog run that finds nothing new leave the target as it was but for other versions |
| `FreshStarts.RowUnderTheOldVersionStays` | tap_mysql/sync_strategies/common.py:49-55 | a bookmark {version 1, replication key} as INCREMENTAL leaves it: a row deleted since stays in the target |
| `FreshStarts.RowsUpToTheLastKeyAreLost` | tap_mysql/__init__.py:248-275 | a bookmark {maximum 10, last key 5} as an interrupted FULL_TABLE scan leaves it: row 3 of the table is lost |
| `Refinement.QueryIsAPath` | tap_mysql/sync_strategies/common.py:403-496 | connecting, pinning and running a query, message by message, is a path of the protocol, while the source commits between the two queries and between any two rows |
| `Refinement.AttemptIsAPath` | tap_mysql/sync_strategies/full_table.py:150-206 | every attempt of the scan, failed or successful, is a path of the protocol on which the target hears exactly its messages and the process ends with exactly its state, whatever the source commits meanwhile |
| `LogRefinement.RecordReadsLikeItsRowExactlyWhenColumnsArrive` | tap_mysql/sync_strategies/binlog.py:570-578 | a record reads like the row of its event, for every way to read those columns, if and only if the columns that the row has are desired |
| `LogRefinement.ColumnsArriveExactlyWhenAnnounced` | tap_mysql/sync_strategies/binlog.py:847-875 | a column arrives if and only if the last SCHEMA sent has it |
| `LogRefinement.DesiredAfterAnEvent` | tap_mysql/sync_strategies/binlog.py:829-896 | the columns desired after an event are those from before, or if its entry was replaced those that the discovered table supports |
| `LogRefinement.DroppedColumnIsLost` | tap_mysql/sync_strategies/binlog.py:831-875 | a column dropped before its rows are read is lost: the rows have it, and the table discovered for another new column has not |
| `LogRefinement.ItemFeeds` | tap_mysql/sync_strategies/binlog.py:566-630 | where the columns arrive, the messages of an event make of the target what the changes in its rows make of it |
| `LogRefinement.StreamKeeps` | tap_mysql/sync_strategies/binlog.py:847-875 | through all drift a stream keeps its version and the column for the deletion time |
| `LogRefinement.PlaceIsNotAhead` | tap_mysql/sync_strategies/binlog.py:926-935 | no STATE of the loop stands past the changes already written |
| `LogRefinement.BinlogRunIsAPath` | tap_mysql/sync_strategies/binlog.py:722-953 | however far a run of the loop gets, its messages and STATE messages are a path of the protocol |
| `LogRefinement.CompletedRunIsAPath` | tap_mysql/sync_strategies/binlog.py:722-953 | so is a completed run with its final bookmarks and its last STATE |
| `LogRefinement.LastStateIsGood` | tap_mysql/sync_strategies/binlog.py:939-953 | after the last STATE the stream is ready, and that STATE accounts for every key |
| `LogRefinement.BinlogRunConverges` | tap_mysql/sync_strategies/binlog.py:722-953 | where the columns arrive, fed with the messages of a complete run the target shows exactly the source table as it was at the run's end, if and only if what the last fresh snapshot found is harmless |
| `EndToEnd.AttemptsArePath` | tap_mysql/sync_strategies/full_table.py:150-206 | any number of attempts, each on the table as it is by then, up to the one that succeeds |
| `EndToEnd.SnapshotIsAPath` | tap_mysql/__init__.py:241-284 | a whole snapshot, fresh or resumed, is a path of the protocol on which the target hears exactly its messages |
| `EndToEnd.SnapshotAndLogConverge` | tap_mysql/__init__.py:241-303 | a fresh snapshot and the binlog run after it, message by message while the source commits throughout: fed with all their messages the target shows exactly the table at the run's end if and only if what the snapshot found is harmless, and always for a stream without a bookmark |
| `EndToEnd.HistoricalSyncIsASnapshot` | tap_mysql/__init__.py:245-284 | what the historical sync writes when it goes through with an ordered key are the messages of such a snapshot |
| `Hex.PaddingRestores` | tap_mysql/sync_strategies/binlog.py:322-326 | padding puts back exactly the digits of the null bytes the reader strips |
| `Hex.BinaryPathsAgree` | tap_mysql/sync_strategies/binlog.py:315-326 | for a BINARY(n) column the binlog and SELECT paths agree on every value up to letter case |
| `Hex.BinaryValuesReadBack` | tap_mysql/sync_strategies/binlog.py:315-326 | read two digits at a time by their places in 0123456789abcdef, the text of a BINARY(n) value is its bytes, on the binlog path in lower case and on the other in upper case |
| `Hex.BinlogValueReadsBack` | tap_mysql/sync_strategies/binlog.py:315-326 | any shorter value reads as its bytes and null bytes up to the declared length, or without one as the bytes that the reader has |
| `Hex.TenIsALetter` | tap_mysql/sync_strategies/binlog.py:322-326 | the byte 10 is 0a from the binlog and 0A from the query |
| `Hex.VarbinaryPathsAgreeExactlyWhenFull` | tap_mysql/sync_strategies/binlog.py:322-326 | for a VARBINARY(n) column they agree if and only if the value has full length |
| `Hex.ShortValueIsPadded` | tap_mysql/sync_strategies/binlog.py:322-326 | one byte in a VARBINARY(2) column has four digits on the binlog path and two on the other |
| `Hex.UnpaddedPathsAgreeExactlyWhenNothingIsStripped` | tap_mysql/sync_strategies/binlog.py:323-324 | without a declared length they agree if and only if the value does not end in a null byte |
| `Hex.NullByteIsLost` | tap_mysql/sync_strategies/binlog.py:323-324 | one null byte in such a column is empty on the binlog path and two zeros on the other |

## Left out

- SyncQuery.Tap.SyncQuery: metrics, time stamps and row conversion; a row goes out as it was read.
- FullTable.SyncTable: Arrow retries and the wait between attempts; the Arrow loop is proved for one query.
- Incremental.SyncTable: Arrow files, and the wait between attempts.
- IncrementalTarget.RestartsAddUp: BATCH files, which carry no version in the message, and a table that changes meanwhile.
- Replication.SnapshotPlusLogConvergesExactlyWhenHarmless: RECORD mode by file and position; BATCH and GTID mode do not keep the invariant, as stated above.
- Replication.SnapshotPlusLogConverges: the same, and a stream that needs a fresh snapshot; a history that starts with a ready stream goes on from one that ended so.
- LogRefinement.BinlogRunConverges: how a row is read is the parameter `decode`; a run by GTID, and one that fails at an event.
- EndToEnd.SnapshotAndLogConverge: the unkeyed snapshot, which `Leftovers` treats, and deaths in between, which `Replication` treats.
- StartPosition.CalculateGtidBookmark: the answers of the server to its queries are parameters; a number with a sign, blanks or underscores, which no server writes, does not count as one.
- Drift.DesiredColumns: the error on an unknown inclusion, which the model's type rules out.
- Leftovers.ScanShows: BATCH files, which carry no version in the message.
- Composite keys: the range joins the columns with AND, which is not the order of tuples.
- `do_sync`, `sync_non_binlog_streams` and `resolve_catalog`: dispatch and matching with the tables that exist; the STATE messages in between are steps of `Replication`.
- The checks of the server's binlog and GTID settings, and the mapping of column types.
- Database drivers, connections, SQL text, the file system, logging and the command line.
- Time zones, spatial and JSON values, and the type mapping of rows.

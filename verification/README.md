# Verified model of DiskSage's evidence core

DiskSage moves, inventories and removes files on cloud-synchronised disks, and does so only on
evidence. This project models the parts of `src-tauri/src` on which that evidence rests, in Dafny
4.11, and proves for all inputs, all runs and all reachable states what those parts are meant to
keep. `dafny verify dfyconfig.toml` checks the whole project.

| file | models |
|---|---|
| `QuickXor.dfy`, `QuickXorCells.dfy`, `ContentDigest.dfy` | the one-line specification of QuickXorHash, why three cells meet it, and the hasher that works in place |
| `Calendar.dfy`, `Timestamp.dfy` | civil dates from day numbers and back; the RFC 3339 section 5.6 printer, the hand-written reader, date tokens in file names |
| `Eviction.dfy`, `EvictionSafety.dfy` | the crash-resumable eviction of one source: calls, failures, crashes between any two changes, outside writers |
| `GitTree.dfy`, `GitObjects.dfy`, `Archive.dfy`, `ArchiveComparison.dfy` | Git trees from unordered ZIP entries: insertion, name order, object ids, the entry loop; the comparison of two archives |
| `Projections.dfy`, `ProjectionRuns.dfy`, `ProjectionHistories.dfy` | the two projection files of a receipt under interleaved writers that may die: what every step keeps, and what a run leaves, told from its events |
| `Inventory.dfy` | the bounded breadth-first inventory, its checkpoints and its recovery after a hard timeout |
| `BatchPlan.dfy`, `BatchResults.dfy`, `BatchSession.dfy`, `BatchRun.dfy` | planning, validating, approving and running an eviction batch |
| `Dupes.dfy` | the three-stage search for duplicate files |
| `Canonical.dfy` | the seven-stage choice among exact duplicates |
| `SignatureScan.dfy` | the chunked scan for end-of-central-directory signatures |
| `ColumnKinds.dfy`, `DatasetProfile.dfy`, `JsonLines.dfy` | column kinds, and the profiles of delimited and JSON-lines data |
| `Lists.dfy`, `Sorting.dfy`, `Optional.dfy`, `Saturation.dfy`, `Text.dfy` | what several of these share |

Where the source changes state step by step (hashers, builders, scans, accumulators, the disk, the
projection files, the record directory) the model is a class or a loop with invariants, proved
against a function or a predicate; what that function means is proved beside it as lemmas.

## How to read it

- Hash functions are parameters. Where a result needs different hashes for different things, it says
  so of the payloads at hand (`CollisionFree`), never of all payloads. Ids and fingerprints that only
  bind the fields of a record are modelled as those fields.
- What the outside does is an argument of each call: which operation fails (`World`), what a planner
  or an executor answers by call number (`Session`), what a clock shows, which snapshots a watcher
  refuses, how reading cuts a file into pieces. Theorems hold for all of them.
- A crash is modelled by the disks a call passes through: any of them may be what is left, and the
  record being written may be left half written.

## What the proofs found

The model follows the code. Where a property one might expect of it does not hold, an input that
shows it and the exact condition are proved.

- **JSON-lines profiles.** "Observed plus missing is at least the sampled rows" fails for a key whose
  bounded name is not its own bounded name, such as a byte-order mark followed by a space
  (`JsonLines.MarkedKeyLosesARow`). The exact account is `JsonLines.ColumnAccount`, the condition
  `JsonLines.AccountsForRows`; names that bounding leaves alone are safe (`JsonLines.OwnNameAccounts`),
  and for any other there is an input of two lines that fails (`JsonLines.NamesMustBeTheirOwn`).
- **Projections after a death.** A process that dies between the two renames can leave files with
  equal rank and time but different provider states (`ProjectionHistories.DeathLeavesTwoSyncs`). A reader
  is refused exactly if the last write the first file took was cut short so and said something the
  second file did not (`ProjectionHistories.RefusedExactly`); without deaths both files hold one
  request's write (`ProjectionHistories.OneWriteInBothFiles`).
- **Blockers after a death.** "A blocker write that takes effect removes the leave to proceed" holds when
  nobody dies (`ProjectionHistories.BlockerTakesEffect`) and fails after a permit that died halfway
  (`ProjectionHistories.BlockerMissesAdr`): the leave survives exactly if the source is evicted or the
  first file is ahead of what the second and the blocker say (`ProjectionHistories.LeaveSurvivesExactly`).
  If the second file took the blocker, no reader is told such a leave
  (`ProjectionHistories.SurvivingLeaveIsRefused`).
- **Blocked decisions.** A provider blocker alone leaves the decision text "permit issued" on the
  state that issued it, although the gate is closed (`ProjectionRuns.BlockedDecisionNamesPermit`).
- **Eviction.** A crash inside a record write leaves a record that no later call gets past
  (`EvictionSafety.CrashInRecordWrite`, `EvictionSafety.StuckForever`), so a rerun completes exactly when
  no such record is there (`EvictionSafety.Resumes`).
- **Batches.** Running a batch does not ask again whether its plan is eligible: a plan without items is
  never eligible and is run to a verified end (`BatchRun.RunBatchOfNothing`), and where fingerprints bind
  what makes an item safe only such a plan is (`BatchRun.IneligibleGoesThrough`). The check for a gap in
  the positions can never fail (`BatchPlan.ValidateBatchPlan`), nor can the second duplicate check of
  the archive loop (`Archive.AgreesAfterInsert`).

## Model

| member | source | states |
|---|---|---|
| QuickXorCells.FedIsCircular | src-tauri/src/content_digest.rs:23-50 | after any bytes, the three cells stand for the XOR of every byte rotated left by 11 times its index modulo 160; what has run into the upper half of the third cell plays no part |
| QuickXorCells.SlotIsRotation | src-tauri/src/content_digest.rs:36-43 | a byte shifted into one cell, or split over two, is that byte rotated left on the circle, at all 160 positions |
| QuickXorCells.SlotLinear | src-tauri/src/content_digest.rs:31-43 | placing the XOR of two bytes is placing both, junk above the third cell's bit 32 included |
| QuickXorCells.FedAppend | src-tauri/src/content_digest.rs:23-55 | feeding a concatenation is feeding its parts, the second from the position the first ends at |
| QuickXorCells.ColumnsAreFed | src-tauri/src/content_digest.rs:26-50 | folding the bytes that are 160 apart and placing each fold once is placing every byte in turn, for any length |
| QuickXorCells.FeedMore | src-tauri/src/content_digest.rs:23-55 | one call from the carried shift continues the bytes fed before it as if there had been one call |
| QuickXorCells.NextShift | src-tauri/src/content_digest.rs:52-53 | the shift carried to the next call is 11 times the number of bytes fed so far, modulo 160 |
| QuickXorCells.NextLength | src-tauri/src/content_digest.rs:54 | the wrapping length is the number of bytes fed, modulo 2^64 |
| ContentDigest.Advance | src-tauri/src/content_digest.rs:45-49 | stepping cell and offset moves 11 bits on round the circle, across the 32-bit last cell |
| ContentDigest.FoldStride | src-tauri/src/content_digest.rs:31-34 | the fold is the XOR of the bytes at an index and every 160 after it |
| ContentDigest.QuickXorHasher.PlaceByte | src-tauri/src/content_digest.rs:36-43 | in place, the cells change by exactly the placed byte, spill into the next cell included |
| ContentDigest.QuickXorHasher.PlaceStrides | src-tauri/src/content_digest.rs:24-50 | in place, the loop over at most 160 columns adds every column once |
| ContentDigest.QuickXorHasher.Update | src-tauri/src/content_digest.rs:23-55 | keeps cells, shift and length those of all bytes fed so far, the new ones after the old ones |
| ContentDigest.QuickXorHasher.Finalize | src-tauri/src/content_digest.rs:57-66 | the output is the circle of all bytes fed, and its last eight bytes, XORed with the circle's and read little-endian, are the number of bytes fed modulo 2^64 |
| QuickXorCells.DigestBits | src-tauri/src/content_digest.rs:57-66 | the little-endian copies and the length XOR touch only the 160 bits of the circle |
| QuickXorCells.CircularBit | src-tauri/src/content_digest.rs:23-50 | bit k of the circle is set exactly if an odd number of set bits is put there, bit j of byte i going to bit 11 i + j modulo 160 |
| QuickXorCells.WordIsNumber | src-tauri/src/content_digest.rs:62-64 | the 64 bits of the length, least significant first, are those of the number |
| QuickXorCells.DigestHoldsLength | src-tauri/src/content_digest.rs:62-65 | the first 96 bits of the digest are the circle's, and the last 64 differ from it by the number of bytes fed, modulo 2^64 |
| ContentDigest.DigestChunks | src-tauri/src/content_digest.rs:22-66 | however a file is cut into chunks, the digest is that of the whole file in one piece |
| Calendar.CorrectedIsFloor | src-tauri/src/cloud.rs:1282 | the correction before a truncating division gives the floor, negative numbers included |
| Calendar.YearFromParts | src-tauri/src/cloud.rs:1284-1285 | the three corrections of the year formula cancel the leap days of century, cycle and year |
| Calendar.YearOfEraBrackets | src-tauri/src/cloud.rs:1284-1287 | the year of the era found for a day of the era is the one whose days include it |
| Calendar.YearOfEraInverse | src-tauri/src/cloud.rs:1284-1315 | a year of the era and a day in it give a day of the era from which that year is found again |
| Calendar.MonthPrimeBrackets | src-tauri/src/cloud.rs:1288-1289 | the month found for a day of the year is the one whose days include it |
| Calendar.MonthPrimeInverse | src-tauri/src/cloud.rs:1313-1314 | a month and a day in it give a day of the year from which that month is found again |
| Calendar.DaysRoundTrip | src-tauri/src/cloud.rs:1280-1317 | every integer, negative ones too, names a real calendar date that names the integer back |
| Calendar.DateRoundTrip | src-tauri/src/cloud.rs:1280-1332 | every date of the proleptic Gregorian calendar is the date of its own day number |
| Calendar.NextDay | src-tauri/src/cloud.rs:1280-1332 | the date of the next integer is the calendar's next day, over month, year and leap day |
| Calendar.EpochDay | src-tauri/src/cloud.rs:1280-1293 | day zero is 1 January 1970 |
| Calendar.YearWindow | src-tauri/src/cloud.rs:1323-1332 | day numbers from zero to the end of 2100 are those whose years the application accepts |
| Calendar.YearFitsIn32Bits | src-tauri/src/cloud.rs:1292-1297 | no day of any unsigned 64-bit millisecond has a year the 32-bit result would cut |
| Timestamp.Digits | src-tauri/src/cloud.rs:1341-1348 | reads a number exactly where that many digits stand within the text |
| Timestamp.ReadHead | src-tauri/src/cloud.rs:1578-1597 | finds a date and time exactly when a legal one is written in the first nineteen characters |
| Timestamp.ReadFraction | src-tauri/src/cloud.rs:1599-1621 | reads the longest fraction, refuses a point without digits, and keeps whole milliseconds |
| Timestamp.ReadZone | src-tauri/src/cloud.rs:1623-1641 | finds a zone exactly when the rest of the text is a legal one |
| Timestamp.FractionUnique | src-tauri/src/cloud.rs:1599-1641 | what the reader took for the fraction is the fraction of any timestamp the text can be |
| Timestamp.TimestampFromText | src-tauri/src/cloud.rs:1577-1651 | there is a result only if the trimmed text is a timestamp of the grammar, and it is that timestamp's instant |
| Timestamp.ZonedInstant | src-tauri/src/cloud.rs:1599-1646 | a local date and time at so many hours and minutes east of Greenwich is that much earlier in UTC, west that much later, and nothing if that is before 1970 |
| Timestamp.TimestampValue | src-tauri/src/cloud.rs:1495-1503 | what is printed for an instant before 2101 is the one timestamp of the grammar with that local date and time in UTC |
| Timestamp.TrimmedTimestamp | src-tauri/src/cloud.rs:1578 | white space around a timestamp is taken away, and nothing of the timestamp |
| Timestamp.PrintThenRead | src-tauri/src/cloud.rs:1495-1651 | for every millisecond before 2101 reading what was printed gives the millisecond back |
| Timestamp.PrintZonedThenRead | src-tauri/src/cloud.rs:1556-1646 | for every place up to 14 hours east or west, reading the local time written with that offset gives the instant back, white space around it or not |
| Timestamp.StandingDateIsToken | src-tauri/src/cloud.rs:1334-1402 | a date written in one of the five shapes with no digit touching it is a token, and says its midnight in UTC |
| Timestamp.TokenIsStandingDate | src-tauri/src/cloud.rs:1334-1402 | and every token is such a date |
| Timestamp.FilenameDateMs | src-tauri/src/cloud.rs:1362-1407 | returns the midnight of the first date that stands in the name, and nothing exactly if none does |
| Timestamp.DateTokenOfValue | src-tauri/src/cloud.rs:1362-1406 | a printed date with no digit before it and none right after it is a token of that date |
| Timestamp.NoTokenWithoutDigit | src-tauri/src/cloud.rs:1366-1402 | no date token starts at a character that is no digit |
| Timestamp.NameThenRead | src-tauri/src/cloud.rs:1362-1493 | the date of an instant put into a file name is found again as the instant rounded down to its day |
| EvictionSafety.NeverLost | src-tauri/src/cloud_eviction.rs:646-778 | with no outside writer, after any sequence of calls, failures and crashes the file is in exactly one of source, staging and trash, and staging exists only with an intent |
| EvictionSafety.CallKeepsConsistent | src-tauri/src/cloud_eviction.rs:603-778 | every disk that one call leaves behind, at whichever step it is cut, keeps that invariant |
| EvictionSafety.MissingMeansTrashed | src-tauri/src/cloud_eviction.rs:705-757 | an intent with neither source nor staged file means that the file is in the trash, which makes reconciling sound |
| EvictionSafety.FaultFreeCall | src-tauri/src/cloud_eviction.rs:646-778 | one call in which nothing fails completes from any such disk exactly when no record is half written |
| EvictionSafety.Resumes | src-tauri/src/cloud_eviction.rs:646-778 | after any crashed calls with the same arguments one fault-free call completes, exactly unless a crash cut a record write short |
| EvictionSafety.WholeWritesLeaveNoPartialRecord | src-tauri/src/cloud_eviction.rs:424-458 | half-written records come only from writes that were cut short |
| EvictionSafety.StuckForever | src-tauri/src/cloud_eviction.rs:424-499 | after a record was left half written, no calls whatever change anything or complete |
| EvictionSafety.CrashInRecordWrite | src-tauri/src/cloud_eviction.rs:424-458 | every call that would complete on an untouched disk can be cut short so that no later call completes |
| EvictionSafety.ResumedStaysCompleted | src-tauri/src/cloud_eviction.rs:646-700 | once a call has completed after any crashes, then after any further calls and with any new file at the source, the same call at any time changes nothing and answers already completed |
| EvictionSafety.CompletedForever | src-tauri/src/cloud_eviction.rs:689-700 | once the completion is on disk no call with any arguments changes anything, even with a new file at the source |
| EvictionSafety.CompletedCallChangesNothing | src-tauri/src/cloud_eviction.rs:689-700 | a call that finds the completion performs no change, and a matching one reports the source as already completed |
| EvictionSafety.CallKeepsIntent | src-tauri/src/cloud_eviction.rs:646-687 | the intent a call leaves behind is one that the same call accepts again |
| EvictionSafety.ReplayKeepsIntent | src-tauri/src/cloud_eviction.rs:460-499 | so the intent stays acceptable over any number of crashed repetitions |
| EvictionSafety.OnlyVerifiedTrashed | src-tauri/src/cloud_eviction.rs:711-757 | whatever an outside writer does at the source path, everything in the trash is a regular file with the intent's identity and the receipt's size, time and digests |
| EvictionSafety.DifferingSourceStops | src-tauri/src/cloud_eviction.rs:269-291 | a call that finds anything else at the source path stops and changes nothing |
| EvictionSafety.ActsOnlyOnPermit | src-tauri/src/cloud_eviction.rs:590-612 | a call that changes anything, or says that all is done, has a permit for this very receipt, no older than the copy and with evidence, and a human approval only if it saw the file unused in between |
| EvictionSafety.SwapIsUndone | src-tauri/src/cloud_eviction.rs:727-740 | a file swapped in between verification and rename is caught and put back, and nothing is trashed |
| Eviction.ValidatePermit | src-tauri/src/cloud_eviction.rs:293-314 | refuses exactly blocked receipts, permits for another receipt, and permits that are too old or without evidence, each with its own error |
| Eviction.ValidateApproval | src-tauri/src/cloud_eviction.rs:152-172 | refuses exactly approvals of another receipt or evidence, out of order in time, of a file in use, or changed afterwards |
| Eviction.ValidateIntent | src-tauri/src/cloud_eviction.rs:460-499 | refuses exactly intents that were changed or differ from receipt, permit or approval, in this order |
| Eviction.ValidateCompletion | src-tauri/src/cloud_eviction.rs:501-517 | refuses exactly completions that were changed or belong to another intent |
| Eviction.VerifySource | src-tauri/src/cloud_eviction.rs:269-291 | passes exactly a regular file with the receipt's size, time and digests and the expected identity, and names the first that differs |
| Eviction.Volume.Evict | src-tauri/src/cloud_eviction.rs:603-700 | one change of the disk at a time, the call passes through exactly the disks of its specification and returns its result |
| Eviction.Volume.AfterIntent | src-tauri/src/cloud_eviction.rs:689-778 | the same for everything after the intent: completion check, reconciling, staging, trash |
| Eviction.Volume.MoveToStaging | src-tauri/src/cloud_eviction.rs:711-741 | the same for verifying the source and making the staging directory |
| Eviction.Volume.RenameToStaging | src-tauri/src/cloud_eviction.rs:727-743 | the same for the rename and the second verification |
| Eviction.Volume.Restore | src-tauri/src/cloud_eviction.rs:728-740 | the same for putting back a file that failed the second verification |
| Eviction.Volume.TrashStaging | src-tauri/src/cloud_eviction.rs:742-757 | the same for the last verification, the use check and the trash move |
| Eviction.Volume.PutBackInUse | src-tauri/src/cloud_eviction.rs:744-752 | the same for giving back a file found in use |
| Eviction.Volume.WriteCompletion | src-tauri/src/cloud_eviction.rs:759-777 | the same for the completion record |
| GitTree.InsertResolve | src-tauri/src/archive_git_tree.rs:124-145 | a successful insertion adds one file, the directories above it, and changes no other path |
| GitTree.InsertSucceeds | src-tauri/src/archive_git_tree.rs:124-145 | insertion succeeds exactly when no file stands at the path, above it or below it |
| GitTree.InsertErrors | src-tauri/src/archive_git_tree.rs:124-145 | an insertion fails for an empty path, for a file above the path, or for anything at the path, each with its own error |
| GitTree.InsertKeepsNoEmptyDirectory | src-tauri/src/archive_git_tree.rs:137-143 | no insertion leaves an empty directory |
| GitTree.BuildIsExact | src-tauri/src/archive_git_tree.rs:124-145 | a list of paths can be inserted exactly if they are distinct, non-empty and none is a proper prefix of another; the tree then holds exactly those files |
| GitTree.FilesDetermineTree | src-tauri/src/archive_git_tree.rs:119-145 | two trees without empty directories that hold the same files are the same tree |
| GitTree.OrderIrrelevant | src-tauri/src/archive_git_tree.rs:124-145 | neither success nor the resulting tree depends on the order of the entries |
| GitObjects.GitNameCompareIsKeyOrder | src-tauri/src/archive_git_tree.rs:233-250 | on names without slash and NUL the comparison is lexicographic order with a slash appended to directories |
| GitObjects.GitOrderIsTotal | src-tauri/src/archive_git_tree.rs:233-250 | on valid names it is a strict total order |
| GitObjects.OrderedUnique | src-tauri/src/archive_git_tree.rs:253-256 | a set of entries has one sorted listing, whatever order they are collected in |
| GitObjects.InsertName | src-tauri/src/archive_git_tree.rs:254-256 | inserting a name in its place keeps the listing sorted and adds nothing else |
| GitObjects.SortEntries | src-tauri/src/archive_git_tree.rs:253-256 | the listing has every entry once, in Git's order |
| GitObjects.RowsDecodable | src-tauri/src/archive_git_tree.rs:259-273 | the payload of a tree can be cut into rows in one way only |
| GitObjects.DecimalWrites | src-tauri/src/archive_git_tree.rs:275 | the length in the header is written in decimal digits without leading zeros |
| GitObjects.TreeOfOneFile | src-tauri/src/archive_git_tree.rs:256-276 | the object of a tree of one file, byte by byte |
| GitObjects.TreeOfOneTree | src-tauri/src/archive_git_tree.rs:256-276 | the object of a tree of one subtree, byte by byte |
| GitObjects.TreeObjectInjective | src-tauri/src/archive_git_tree.rs:274-276 | the header keeps different payloads apart |
| GitObjects.OidDeterminesTree | src-tauri/src/archive_git_tree.rs:252-278 | unless the hash collides on what is hashed for the two, trees with one object id are equal |
| GitObjects.DirectoriesArePrefixes | src-tauri/src/archive_git_tree.rs:252-278 | the directories of a tree are the non-empty proper prefixes of its files' paths |
| GitObjects.NextDirectories | src-tauri/src/archive_git_tree.rs:261-265 | each subtree adds its own directories and itself to the count |
| GitObjects.EntryRow | src-tauri/src/archive_git_tree.rs:260-266 | the row and the directory count of one entry, subtree hashed recursively |
| GitObjects.GitTreeOid | src-tauri/src/archive_git_tree.rs:252-278 | the object id is the hash of the sorted rows, and the count is the number of directories |
| Archive.SplitInverse | src-tauri/src/archive_git_tree.rs:167-170 | splitting a name at slashes loses nothing |
| Archive.ComponentsExact | src-tauri/src/archive_git_tree.rs:160-185 | a name is accepted exactly if it is safe components joined by slashes, and those are the components |
| Archive.AcceptableAppend | src-tauri/src/archive_git_tree.rs:381-453 | one more entry is acceptable exactly if it is so itself, shares the root, fits the size limit and can be inserted |
| Archive.AgreesAfterInsert | src-tauri/src/archive_git_tree.rs:441-454 | once the tree takes a path the manifest cannot have it yet, so the second duplicate check never fires |
| Archive.TreeIsValid | src-tauri/src/archive_git_tree.rs:406-456 | trees built by the loop hold only valid names, modes and object ids |
| Archive.BuiltWithFile | src-tauri/src/archive_git_tree.rs:441-456 | a file adds its own path with its mode, length and hash to the manifest, where nothing was, and changes no other entry |
| Archive.ManifestBuilder.AddEntry | src-tauri/src/archive_git_tree.rs:377-456 | an entry is refused exactly when it and those before it are not acceptable together, and for the first thing wrong with it; tree, manifest with the mode, length and hash of every file, sums and counts follow |
| Archive.ManifestBuilder.AddFile | src-tauri/src/archive_git_tree.rs:406-456 | the same for a file whose name and root have been checked |
| Archive.InspectZipManifest | src-tauri/src/archive_git_tree.rs:357-501 | inspection succeeds exactly on acceptable archives with files, and the manifest holds the path, mode, length and hash of every file entry and nothing else |
| Archive.ManifestModes | src-tauri/src/archive_git_tree.rs:187-201 | every file of an inspected archive is listed as 120000 exactly if it is a link, otherwise as 100755 exactly if one of the three execute bits is set, and else as 100644, as without a mode |
| Archive.ModesAreKnown | src-tauri/src/archive_git_tree.rs:187-201 | an archive with a file of any other type is refused |
| ArchiveComparison.PushBounded | src-tauri/src/archive_git_tree.rs:322-326 | the sample is the first thousand paths |
| ArchiveComparison.ClassCounts | src-tauri/src/archive_git_tree.rs:522-554 | the three classes of either side add up to its number of files, and inclusion and identity are read off the zero counts |
| ArchiveComparison.CompareContentInclusion | src-tauri/src/archive_git_tree.rs:522-563 | inclusion and identity are decided exactly, all four counts are those of their classes, and samples are the first of their kind |
| ArchiveComparison.InclusionIsOfFiles | src-tauri/src/archive_git_tree.rs:522-556 | one manifest is included in another exactly if every file of the one archive is in the other, at its path and with its mode, length and hash |
| ArchiveComparison.CompareZipContentInclusion | src-tauri/src/archive_git_tree.rs:509-590 | two archives compare exactly if both can be inspected; content is included exactly if every file entry of the first has its equal in the second, and identical exactly if that holds both ways |
| ProjectionRuns.ProgressOrder | src-tauri/src/cloud_adr.rs:259-267 | the five goal states in the order of their progress |
| ProjectionRuns.DecisionTellsState | src-tauri/src/cloud_adr.rs:89-101 | the decision text tells the goal state, and for one that waits for the provider its provider state |
| ProjectionRuns.RegressesIsEarlier | src-tauri/src/cloud_adr.rs:390-394 | the acceptance test refuses exactly what is lexicographically earlier in rank and time |
| ProjectionRuns.StepsKeepInv | src-tauri/src/cloud_adr.rs:457-505 | over every interleaving of writers, with deaths, the files' invariant holds; without deaths the pair agrees whenever the lock is free |
| ProjectionRuns.StepIsMonotone | src-tauri/src/cloud_adr.rs:365-415 | no step of any process takes either file back |
| ProjectionRuns.FilesAreMonotone | src-tauri/src/cloud_adr.rs:365-415 | in no run does either file go back in rank and time |
| ProjectionRuns.BothAcceptOrBothRefuse | src-tauri/src/cloud_adr.rs:481-505 | when nobody dies the files take a write together or refuse it together |
| ProjectionRuns.ReadAlwaysAvailable | src-tauri/src/cloud_adr.rs:856-886 | when nobody dies a reader that gets the lock finds both files in agreement, or neither |
| ProjectionHistories.LastTakeIsLast | src-tauri/src/cloud_adr.rs:390-415 | the write found is the last that the first file took in the run |
| ProjectionHistories.StepsKeepOffers | src-tauri/src/cloud_adr.rs:609-696 | what a process replaces the files by is what its request came to on the files it found when it got the lock |
| ProjectionHistories.FilesHoldTheLastWrite | src-tauri/src/cloud_adr.rs:457-505 | after any run the first file holds the last write it took, and the second the other half of that write exactly as far as its process got |
| ProjectionHistories.OneWriteInBothFiles | src-tauri/src/cloud_adr.rs:457-505 | when nobody dies and the lock is free, the files are the two halves of one request's write, or neither is there |
| ProjectionHistories.RefusedExactly | src-tauri/src/cloud_adr.rs:856-886 | a reader that gets the lock is refused exactly if the last write the first file took was cut short by a death between the two renames and said something the second file did not |
| ProjectionHistories.WhatIsRead | src-tauri/src/cloud_adr.rs:856-886 | a reader that gets the lock is told nothing exactly if no write was taken, and a state exactly if both files name that state, provider state and time |
| ProjectionHistories.ReadTellsTheLastWrite | src-tauri/src/cloud_adr.rs:856-886 | when nobody dies that is what the last write taken came to |
| ProjectionHistories.DeathLeavesTwoSyncs | src-tauri/src/cloud_adr.rs:481-505 | a run that ends with equal rank and time, but different provider states, in the two files |
| ProjectionRuns.EvictedIsAbsorbing | src-tauri/src/cloud_adr.rs:383-395 | an evicted source stays evicted in both files in every continuation |
| ProjectionRuns.CompletedWriteHeals | src-tauri/src/cloud_adr.rs:481-505 | after any deaths a completed write that the first file takes puts the pair back in agreement |
| ProjectionRuns.BlockerLeavesEvicted | src-tauri/src/cloud_adr.rs:623-630 | a blocker writes nothing exactly when both files are there and the source is evicted |
| ProjectionHistories.WrittenFiles | src-tauri/src/cloud_adr.rs:594-701 | one whole write of a process that gets the lock leaves the files as the writer in place does |
| ProjectionHistories.GoalTakesBlocker | src-tauri/src/cloud_adr.rs:609-645 | in every run a blocker write gets into the second file exactly if the source is not evicted there and the blocker is no older or further; the file is then at the higher rank, blocked, with its gates closed and the others kept |
| ProjectionHistories.BlockerTakesEffect | src-tauri/src/cloud_adr.rs:609-696 | when nobody dies it takes effect in both files, which agree and give no leave to proceed, or changes neither, and the recorded second file tells which |
| ProjectionHistories.LeaveSurvivesExactly | src-tauri/src/cloud_adr.rs:390-394 | with deaths the first file still gives leave to proceed after a blocker write exactly if it did before and is ahead of what the second file and the blocker say, or as far and newer, or the source is evicted |
| ProjectionHistories.SurvivingLeaveIsRefused | src-tauri/src/cloud_adr.rs:856-886 | leave that survives a blocker the second file took is never told a reader: the pair was refused before and is refused after |
| ProjectionHistories.BlockerMissesAdr | src-tauri/src/cloud_adr.rs:618-696 | a run in which the second file takes a source blocker and the first keeps the issued permit and the leave to proceed |
| ProjectionRuns.BlockedDecisionNamesPermit | src-tauri/src/cloud_adr.rs:646-661 | the decision text of a blocked record still names the issued permit exactly for a provider blocker on the state that issued it |
| ProjectionRuns.BlockedConsequencesForbid | src-tauri/src/cloud_adr.rs:662-691 | no blocker text brings the leave to proceed back |
| ProjectionRuns.EffectiveAgrees | src-tauri/src/cloud_adr.rs:609-635 | blocker edits keep the two snapshots in agreement |
| Projections.ProjectionFiles.WriteLatestSnapshot | src-tauri/src/cloud_adr.rs:365-430 | replaces the record exactly if it is accepted |
| Projections.ProjectionFiles.WriteLatestGoalSnapshot | src-tauri/src/cloud_adr.rs:365-445 | replaces the goal exactly if it is accepted |
| Projections.ProjectionFiles.WriteProjectionPair | src-tauri/src/cloud_adr.rs:457-505 | offers both files their snapshot, one after the other |
| Projections.ProjectionFiles.WriteWithBlockers | src-tauri/src/cloud_adr.rs:570-701 | offers the files exactly the edited pair, or leaves an evicted source alone |
| Projections.ProjectionFiles.ReadProjectionState | src-tauri/src/cloud_adr.rs:856-886 | tells the state both files agree on, or that they are incomplete or divergent, or that there are none |
| Projections.BlockGoal | src-tauri/src/cloud_adr.rs:636-645 | the goal edited in place is the blocked goal of the specification |
| Projections.BlockDecision | src-tauri/src/cloud_adr.rs:646-660 | the decision text pushed together is that of the specification |
| Projections.BlockConsequences | src-tauri/src/cloud_adr.rs:662-691 | the consequences edited in place are those of the specification |
| Inventory.PositionsAreUnique | src-tauri/src/cloud_local_inventory.rs:476-621 | no entry below a directory is counted twice by what completeness is measured against |
| Inventory.CandidateOrder | src-tauri/src/cloud_local_inventory.rs:212-217 | larger first and then by path is a total preorder |
| Inventory.PrefixKeepsLargest | src-tauri/src/cloud_local_inventory.rs:212-219 | what truncation drops ranks after everything it keeps |
| Inventory.Largest | src-tauri/src/cloud_local_inventory.rs:211-219 | the candidates shown are the largest, at most the limit |
| Inventory.QueueAppend | src-tauri/src/cloud_local_inventory.rs:573-577 | a directory pushed on the queue adds what is below it to what is waiting |
| Inventory.Scan.RecordIssue | src-tauri/src/cloud_local_inventory.rs:181-198 | the issue is the next of all issues met; their number is the skipped entries, and those listed are the first of them up to the limit |
| Inventory.Scan.VisitOther | src-tauri/src/cloud_local_inventory.rs:526-572 | what can not be read, looked at or followed is an issue of its own kind at its place, and ends the hope of completeness |
| Inventory.Scan.AddCandidate | src-tauri/src/cloud_local_inventory.rs:612-619 | the saturating total stays the saturated sum of all candidates found |
| Inventory.Scan.VisitFile | src-tauri/src/cloud_local_inventory.rs:595-619 | a file adds itself to the candidates exactly if it reaches the threshold, and unknown allocation ends completeness |
| Inventory.Scan.VisitDirectory | src-tauri/src/cloud_local_inventory.rs:573-581 | a directory within the depth limit is queued, a deeper one is given up and ends completeness |
| Inventory.Scan.VisitEntry | src-tauri/src/cloud_local_inventory.rs:526-620 | one more entry is counted as what it is, everything below it is either waiting or given up, and the issue and the reason noted are those the entry has |
| Inventory.Scan.Next | src-tauri/src/cloud_local_inventory.rs:476 | taking a directory off the queue moves its contents from waiting to in hand |
| Inventory.Scan.InventoryReport | src-tauri/src/cloud_local_inventory.rs:206-258 | what a report says follows the state, and it is complete exactly if final, with nothing skipped and no reason to stop |
| Inventory.CheckpointCadence.MaybeEmit | src-tauri/src/cloud_local_inventory.rs:260-283 | a snapshot is handed out exactly if forced or due, and afterwards the last one is up to date |
| Inventory.VisitNext | src-tauri/src/cloud_local_inventory.rs:526-620 | visiting one entry keeps the balance of visited, given up, waiting and unread |
| Inventory.CheckLimits | src-tauri/src/cloud_local_inventory.rs:518-525 | reading goes on exactly below both limits, and otherwise stops for the right one |
| Inventory.ScanDirectory | src-tauri/src/cloud_local_inventory.rs:509-620 | a directory is read to its end, or the reason it was not is one of time, entries or a refused snapshot |
| Inventory.HeadInLevels | src-tauri/src/cloud_local_inventory.rs:476 | the next directory taken is on the level being read, or, after all of those, on the next |
| Inventory.EntryInLevels | src-tauri/src/cloud_local_inventory.rs:526-581 | an entry and what it puts on the queue keep both in order of their levels |
| Inventory.EntryPlaced | src-tauri/src/cloud_local_inventory.rs:526-620 | visiting an entry counts it as what the tree holds at its position |
| Inventory.NextDirectory | src-tauri/src/cloud_local_inventory.rs:476-508 | taking, timing, announcing and reading one directory keeps the balance |
| Inventory.FullyRead | src-tauri/src/cloud_local_inventory.rs:476-623 | when the queue runs empty the scan is clean exactly if the tree is sound and fits the limits, and then everything was visited |
| Inventory.PartlyRead | src-tauri/src/cloud_local_inventory.rs:518-525 | a scan cut short is not clean, and one cut for its entries faced more entries than the limit |
| Inventory.Walk | src-tauri/src/cloud_local_inventory.rs:476-621 | the walk ends, visits no entry after a deeper one, and ends clean only with everything visited |
| Inventory.Inventory | src-tauri/src/cloud_local_inventory.rs:449-624 | a complete report visited every entry below the root exactly once and totals exactly the candidates; unless the clock runs out it is complete exactly if the tree is sound and fits; the files and directories counted are those among the positions visited; no report exceeds its limits; snapshots are never complete and lag by at most 256 entries |
| Inventory.HardTimeoutFromCheckpoint | src-tauri/src/cloud_local_inventory.rs:399-431 | only a matching, unfinished snapshot is recovered, and what is recovered is never complete and no snapshot any more |
| Inventory.RecoverAnySnapshot | src-tauri/src/cloud_local_inventory.rs:399-431 | every snapshot of a run is recovered as an incomplete report, what was recovered is not recovered again, and neither is a final report |
| BatchPlan.BoundedErrorCode | src-tauri/src/cloud_local_eviction_batch.rs:285-299 | the code is always short and plain, and one that is already so is kept |
| BatchPlan.ErrorCodesAre | src-tauri/src/cloud_local_eviction_batch.rs:285-296 | codes are 1 to 128 lower-case letters, digits, hyphens, underscores, colons and points |
| BatchPlan.BytesOfText | src-tauri/src/cloud_local_eviction_batch.rs:540-543 | what a rationale may be long is counted in UTF-8 bytes |
| BatchPlan.SafeIfNothingStandsAgainst | src-tauri/src/cloud_local_eviction_batch.rs:301-343 | an item is safe exactly if none of the 22 obstacles stands against it |
| BatchPlan.FingerprintBinds | src-tauri/src/cloud_local_eviction_batch.rs:201-227 | validated plans with one fingerprint have the same root, counts, totals and unavailable inputs, and items with the same position, fingerprint and sizes |
| BatchPlan.PlanPartitionsInputs | src-tauri/src/cloud_local_eviction_batch.rs:351-394 | a validated plan gives every input position to exactly one item or one unavailable entry |
| BatchPlan.Pigeonhole | src-tauri/src/cloud_local_eviction_batch.rs:369-394 | as many distinct positions below a number as the number are all of them |
| BatchPlan.CheckedTotal | src-tauri/src/cloud_local_eviction_batch.rs:396-409 | the checked sum fails exactly if the true sum exceeds 64 bits |
| BatchPlan.CheckItems | src-tauri/src/cloud_local_eviction_batch.rs:369-383 | passes exactly distinct positions, paths and fingerprints within the root |
| BatchPlan.CheckUnavailable | src-tauri/src/cloud_local_eviction_batch.rs:384-391 | passes exactly plain codes at positions no item and no other entry has |
| BatchPlan.ValidateBatchPlan | src-tauri/src/cloud_local_eviction_batch.rs:351-423 | passes exactly the well-formed plans and names the first thing wrong with any other, which is never a gap in the positions |
| BatchPlan.BuildBatchPlan | src-tauri/src/cloud_local_eviction_batch.rs:425-471 | returns the assembled plan exactly if that is well formed |
| BatchPlan.PlannedFromInputs | src-tauri/src/cloud_local_eviction_batch.rs:493-505 | items and unavailable entries share the inputs out among them, each at its own position |
| BatchPlan.FreshPlanIsWellFormed | src-tauri/src/cloud_local_eviction_batch.rs:425-507 | a freshly planned batch can fail its own checks only on clashing or oversized answers of the planner |
| BatchPlan.PlanBatchWith | src-tauri/src/cloud_local_eviction_batch.rs:473-507 | planning succeeds exactly on 1 to 128 distinct paths with consistent answers; items are then exactly the plannable inputs in order, and the plan is eligible exactly if it has items and nothing stands against any of them |
| BatchPlan.ApproveBatch | src-tauri/src/cloud_local_eviction_batch.rs:524-555 | an approval is given exactly for an eligible, well-formed plan with attribution, reason and time in order, and it passes when the batch is run |
| BatchPlan.ValidateBatchApproval | src-tauri/src/cloud_local_eviction_batch.rs:557-587 | passes exactly the approvals bound to this plan; eligibility is not asked again |
| BatchPlan.ApproveAgain | src-tauri/src/cloud_local_eviction_batch.rs:524-587 | an approval is one that approving gives exactly if it passes and the plan is eligible |
| BatchPlan.ApproveItem | src-tauri/src/cloud_local_eviction.rs:1000-1040 | an item is approved exactly if it is eligible and the same attribution, reason and time hold for it |
| BatchResults.VerdictMeansAllGood | src-tauri/src/cloud_local_eviction_batch.rs:611-639 | a batch is verified exactly if every planned item was attempted and every attempt was good |
| BatchResults.SaturatingTotal | src-tauri/src/cloud_local_eviction_batch.rs:630-633 | the saturating fold is the sum, cut off at the largest 64-bit number |
| BatchResults.RefreshedFields | src-tauri/src/cloud_local_eviction_batch.rs:611-639 | the counts are the numbers of outcomes that are there, succeeded and were verified, the reduction is their sum, and nothing else changes but the time |
| BatchSession.Session.Write | src-tauri/src/cloud_local_eviction_batch.rs:656-676 | a record is written only under a new name, and no record is ever replaced |
| BatchSession.Session.Replan | src-tauri/src/cloud_local_eviction_batch.rs:600-606 | an item passes exactly if the planner plans it again with the same fingerprint and nothing stands against it |
| BatchSession.Session.Evict | src-tauri/src/cloud_local_eviction_batch.rs:802-808 | an eviction uses an approval that is on record as it is and was used for no eviction before |
| BatchRun.Preflight | src-tauri/src/cloud_local_eviction_batch.rs:589-609 | succeeds exactly if the plan is well formed and the planner, asked again for each item in order, answers with the same fingerprint and a plan nothing stands against; and evicts nothing |
| BatchRun.RecordItemApprovals | src-tauri/src/cloud_local_eviction_batch.rs:754-771 | succeeds exactly if every item can be approved under a new name and no write fails; each approval is then on record as it is |
| BatchRun.RecordApprovals | src-tauri/src/cloud_local_eviction_batch.rs:746-771 | succeeds exactly if batch approval and item approvals can all be newly recorded; the records hold them as they are, and nothing is evicted |
| BatchRun.RecordItemApproval | src-tauri/src/cloud_local_eviction_batch.rs:754-769 | an item is approved and its approval written under a new name, or the error says which of the two failed |
| BatchRun.ApprovalsUnused | src-tauri/src/cloud_local_eviction_batch.rs:754-771 | newly recorded approvals of items with distinct fingerprints were used for nothing before |
| BatchRun.Attempt | src-tauri/src/cloud_local_eviction_batch.rs:801-863 | one eviction and its record; the run goes on exactly if the request, the verification and the record were good |
| BatchRun.EndIsConclusive | src-tauri/src/cloud_local_eviction_batch.rs:863-876 | a batch that ended is halted exactly if it is not verified, and only its last outcome can be bad |
| BatchRun.AttemptAndRecord | src-tauri/src/cloud_local_eviction_batch.rs:800-872 | one item and its checkpoint: the run goes on exactly if eviction, result record and checkpoint all went well |
| BatchRun.RunItems | src-tauri/src/cloud_local_eviction_batch.rs:800-876 | attempts a prefix of the items in order, each once, with the last checkpoint on record equal to the result; every outcome tells what the executor answered for its item; verified exactly if every item went well |
| BatchRun.OpeningEvictsNothing | src-tauri/src/cloud_local_eviction_batch.rs:743-771 | re-planning and recording approvals evict nothing |
| BatchRun.ExecuteBatch | src-tauri/src/cloud_local_eviction_batch.rs:719-877 | nothing is evicted unless the planner confirmed every item and every approval was newly recorded; any result is conclusive; a batch approval already on record stops the run; and the result is verified exactly if the approval passes, every item is confirmed, every record is new and written, and every eviction is good |
| BatchRun.RunTwice | src-tauri/src/cloud_local_eviction_batch.rs:648-653 | after a run that evicted anything or ended well, the same approval evicts nothing more |
| BatchRun.IneligibleGoesThrough | src-tauri/src/cloud_local_eviction_batch.rs:557-639 | where fingerprints bind what makes an item safe, a batch that is not eligible ends verified exactly if it has no items, its approval is new and is written |
| BatchRun.RunBatchOfNothing | src-tauri/src/cloud_local_eviction_batch.rs:611-639 | such a run: an ineligible plan without items, an approval that passes, and a verified result |
| Text.SpacesAre | src-tauri/src/cloud.rs:1557 | white space are exactly the 25 characters of that property in Unicode |
| Text.TrimTakesSpaces | src-tauri/src/cloud.rs:1557 | trimming takes white space from both ends and nothing else |
| Dupes.RegroupByHash | src-tauri/src/dupes.rs:73-83 | each hash maps to exactly the files that have it, in order, and unreadable files are in no group |
| Dupes.BySize | src-tauri/src/dupes.rs:23-30 | each size other than zero maps to exactly its files, in order |
| Dupes.GroupBySize | src-tauri/src/dupes.rs:23-35 | the groups are exactly the sizes with two files or more, each once, largest first |
| Dupes.PrefixStageSplitsNothing | src-tauri/src/dupes.rs:90-94 | files with one full hash share their prefix hash, so the prefix stage keeps them together |
| Dupes.ConfirmedHasPrefix | src-tauri/src/dupes.rs:90-98 | every class of two or more survives the prefix stage |
| Dupes.Confirm | src-tauri/src/dupes.rs:96-108 | within one prefix group exactly the full hashes shared by two or more are listed |
| Dupes.OfOneSize | src-tauri/src/dupes.rs:88-110 | within one size exactly the full hashes shared by two or more readable files are listed, each once |
| Dupes.AllGroups | src-tauri/src/dupes.rs:86-110 | over all sizes no group is missing, doubled or mixed |
| Dupes.FindDuplicates | src-tauri/src/dupes.rs:86-119 | the three stages return exactly the classes of two or more readable files of one non-zero size and content, those first whose files but one take most space |
| Dupes.AtMostOneGroup | src-tauri/src/dupes.rs:86-119 | a file is in at most one group |
| Dupes.ExactGroupsAreUnique | src-tauri/src/dupes.rs:86-119 | which groups there are depends on the files alone |
| Dupes.FindTwice | src-tauri/src/dupes.rs:86-119 | the prefix length changes no group |
| Canonical.Trichotomy | src-tauri/src/cloud.rs:4420-4501 | at every stage one candidate beats the other or they tie, and never both |
| Canonical.TiesBeatAlike | src-tauri/src/cloud.rs:4420-4501 | candidates that tie beat, and are beaten by, the same others |
| Canonical.RetainMaxByKey | src-tauri/src/cloud.rs:4378-4385 | keeps exactly those no other exceeds, in order, and says whether it dropped any |
| Canonical.RetainMinByKey | src-tauri/src/cloud.rs:4387-4394 | keeps exactly those no other falls below, in order, and says whether it dropped any |
| Canonical.StageFilters | src-tauri/src/cloud.rs:4420-4510 | filtering what is left after some stages by the next key leaves exactly the matches unbeaten over one stage more |
| Canonical.PreferredIsTheOrder | src-tauri/src/cloud.rs:4420-4520 | the order of the stages prefers a time found in the file, its better grade, richer metadata, more context, no throw-away place, no name of a copy and an earlier creation, in this order, and then path and fingerprint |
| Canonical.GradesInOrder | src-tauri/src/cloud.rs:4317-4324 | high before medium before low before anything else |
| Canonical.RichnessCounts | src-tauri/src/cloud.rs:4326-4336 | title, duration, data profile, each author and each piece of evidence found in the file count one |
| Canonical.RunStage | src-tauri/src/cloud.rs:4396-4433 | after each stage the remaining are the unbeaten, the reasons are the stages that shrank them, and the confidence is that of the stage that left one |
| Canonical.ReasonsAreStagesThatShrank | src-tauri/src/cloud.rs:4404-4405 | a stage is named as a reason exactly if it shrank the set |
| Canonical.FirstSurvivorIsOptimal | src-tauri/src/cloud.rs:4511-4527 | the first survivor by path and fingerprint is at least as good as every match in the nine-part order |
| Canonical.OptimumIsUnique | src-tauri/src/cloud.rs:4511-4520 | with distinct path and fingerprint there is one optimum |
| Canonical.RecommendCanonical | src-tauri/src/cloud.rs:4412-4533 | no match is preferred to the recommended copy, by the fields of the two; reasons and confidence are those that belong to it |
| Canonical.OneStageDecides | src-tauri/src/cloud.rs:4406-4408 | at most one stage leaves a single match |
| Canonical.RecommendRearranged | src-tauri/src/cloud.rs:4412-4533 | with distinct path and fingerprint the whole recommendation is the same for every order of the matches |
| SignatureScan.PositionsAreOccurrences | src-tauri/src/cloud.rs:3034 | the positions are exactly where the signature stands |
| SignatureScan.PositionsIncrease | src-tauri/src/cloud.rs:3061-3066 | each position is listed once, in order |
| SignatureScan.PositionsCount | src-tauri/src/cloud.rs:3034 | there are as many positions as places in the file where the bytes PK, 5 and 6 stand |
| SignatureScan.FindIter | src-tauri/src/cloud.rs:3061 | going on after each match misses nothing, since the signature does not overlap itself |
| SignatureScan.TailSuffices | src-tauri/src/cloud.rs:3057-3069 | three bytes of overlap find every signature that ends in the new piece, and none twice |
| SignatureScan.NextOverlap | src-tauri/src/cloud.rs:3067-3069 | the last three bytes of a window, or all of it, are again the tail of what was read |
| SignatureScan.Collect | src-tauri/src/cloud.rs:3061-3066 | count and kept offsets grow by the matches of one window, up to 64 |
| SignatureScan.ScanSignatures | src-tauri/src/cloud.rs:3031-3081 | however reading cuts the file, the count is the number of places where the four bytes stand and the offsets are the first 64; it fails exactly if opening, length, limit of 4 GiB or reading does, and says which |
| ColumnKinds.MergeIsJoin | src-tauri/src/dataset_metadata.rs:70-79 | merging is the least upper bound, with unknown at the bottom and mixed at the top |
| ColumnKinds.KindOfIsLeast | src-tauri/src/dataset_metadata.rs:70-79 | the kind of a column is the least that covers all its values |
| ColumnKinds.KindDependsOnSet | src-tauri/src/dataset_metadata.rs:70-79 | it depends on neither the order of the values nor how often each kind occurs |
| DatasetProfile.ColumnAccumulator.ObserveText | src-tauri/src/dataset_metadata.rs:103-111 | a blank is missing, and any other text is one value of its class |
| DatasetProfile.ColumnAccumulator.ObserveJson | src-tauri/src/dataset_metadata.rs:113-130 | null is missing, and anything else is one value: of a flag, whole number, other number, the class of a text, or JSON |
| DatasetProfile.ColumnAccumulator.Finish | src-tauri/src/dataset_metadata.rs:155-163 | the profile names the join of all values, their number and the number missing |
| DatasetProfile.BoundedNames | src-tauri/src/dataset_metadata.rs:166-173 | a name has 1 to 128 characters, is what was said as far as that goes, and a made-up one ends in the number of the column |
| DatasetProfile.ReadHeader | src-tauri/src/dataset_metadata.rs:310-323 | one column for each of the first 128 names, with empty and doubled names noticed exactly |
| DatasetProfile.ObserveRow | src-tauri/src/dataset_metadata.rs:344-349 | every column sees its own field of the row or misses it |
| DatasetProfile.SampleRows | src-tauri/src/dataset_metadata.rs:325-351 | exactly the first hundred parsed rows are sampled, and truncation, errors and uneven rows are noticed exactly |
| DatasetProfile.ProfileDelimited | src-tauri/src/dataset_metadata.rs:280-353 | every column reports what the whole sample holds in its place, each warning is given exactly for its reason, and the profile is complete exactly if nothing was cut or wrong |
| DatasetProfile.DelimitedColumnsAddUp | src-tauri/src/dataset_metadata.rs:344-353 | in a delimited profile observed and missing add up to the sampled rows for every column |
| JsonLines.ColumnAccount | src-tauri/src/dataset_metadata.rs:355-425 | the exact account: observed and missing exceed, or miss, the rows by the keys counted in a column less the lines that have its name as a key |
| JsonLines.AccountsForRows | src-tauri/src/dataset_metadata.rs:402-423 | a column accounts for at least, or exactly, every row exactly if those keys outnumber, or just match, those lines |
| JsonLines.OwnNameAccounts | src-tauri/src/dataset_metadata.rs:402-423 | a column whose name is unchanged by bounding accounts for at least every row |
| JsonLines.OwnNamesAre | src-tauri/src/dataset_metadata.rs:166-173 | the names that bounding leaves as they are, wherever they stand, are exactly those of 1 to 128 characters without space around them or mark before them |
| JsonLines.NamesMustBeTheirOwn | src-tauri/src/dataset_metadata.rs:402-423 | on a key and then its bounded name as a key, the column accounts for both rows exactly if bounding the name again changes nothing |
| JsonLines.MarkedKeyLosesARow | src-tauri/src/dataset_metadata.rs:166-173 | a key that starts with a byte-order mark and a space loses a row: observed plus missing is less than the rows |
| JsonLines.OwnKeysAreExact | src-tauri/src/dataset_metadata.rs:364-423 | with keys that are their own names each column holds exactly the values under its key over the whole sample |
| JsonLines.OwnKeysAddUp | src-tauri/src/dataset_metadata.rs:364-423 | and observed and missing add up to the sampled rows |
| JsonLines.MissAbsent | src-tauri/src/dataset_metadata.rs:402-406 | exactly the columns whose name is no key of the line miss it, whatever the order of the index |
| JsonLines.ObserveEntry | src-tauri/src/dataset_metadata.rs:407-421 | an entry is counted in the column of its bounded name, which is made if there is room |
| JsonLines.ObserveLine | src-tauri/src/dataset_metadata.rs:371-423 | one line changes the columns as the fold over the lines does |
| JsonLines.ProfileJsonLines | src-tauri/src/dataset_metadata.rs:355-426 | the profile is the fold over the lines read, at most a hundred rows; truncated exactly if lines are left, and complete exactly if none is, there is a row, every line is an object and each of its entries found a column |
| JsonLines.WarningsAreOfLines | src-tauri/src/dataset_metadata.rs:371-415 | a warning is given exactly if one of the lines gives it |
| JsonLines.ObserveEntries | src-tauri/src/dataset_metadata.rs:407-422 | the entries of one object, one after the other; overflow is noticed exactly if one of them found no column |

## Left out

- ContentDigest.QuickXorHasher.Update: machine words are sequences of bits, least significant first, instead of 64-bit integers; shifts, XOR and little-endian bytes are defined on them bit by bit.
- Calendar.DaysRoundTrip: holds for all integers; the 64-bit and 32-bit casts of the code are covered only for days of unsigned 64-bit milliseconds, by YearFitsIn32Bits.
- Timestamp.FilenameDateMs: the Unicode normalisation of the file name before the scan.
- EvictionSafety.NeverLost: assumes that no outside writer touches the source path; with one, OnlyVerifiedTrashed is what remains.
- Eviction.ValidateApproval: whether reviewer and rationale of an approval are valid is one flag of it.
- EvictionSafety.Resumes: the checks on the paths themselves (protected, absolute, overlapping) are one flag of the call, and failing to read, list or set permissions on staging counts as the failure of the step it belongs to.
- GitObjects.OidDeterminesTree: the hash is any function that does not collide on the objects of the two trees; SHA-1 itself is not modelled.
- Archive.InspectZipManifest: whether a name is valid UTF-8 and whether a payload could be read in full come with the entry; the central-directory reader and the hashes of the report are not modelled.
- ArchiveComparison.CompareZipContentInclusion: groups of names that differ only by case or Unicode normal form, and the refusal of archives that have them, are not modelled; in what order the two maps are walked is left open.
- ProjectionRuns.StepsKeepInv: files are replaced atomically and reads and writes do not fail for reasons of I/O; both writers name the same receipt; the lock is an atomic step.
- Inventory.Inventory: the tree stands still during the run, an entry is named by its position, and file times are not part of a candidate.
- BatchSession.Session.Write: a write succeeds or leaves nothing; a file left by a crash within it is not modelled.
- Dupes.FindDuplicates: reads of one file always return the same content, and the order in which a hash map is walked is left open.
- Canonical.RecommendCanonical: whether a path looks quarantined or marked as a copy is a parameter, a word list in the code.
- SignatureScan.ScanSignatures: numbers do not saturate, which they cannot below 2^64 bytes; reading may return any pieces, so that the cap on what is read is not needed.
- DatasetProfile.ProfileDelimited: how text is classified (boolean, integer, number, date) and put in lower case is a parameter; cutting a file into records is the CSV reader's work and not modelled; sensitive names, a word list, are left out.
- JsonLines.ProfileJsonLines: parsing a line is the JSON reader's work; an object's entries come as a list of keys and values.
- Spreadsheet profiles: the same accumulator with other cells.
- BLAKE3, SHA-1, SHA-256, base64, JSON encoding: external libraries.
- The Tauri commands, the interface, process probes, account heuristics, keyword and extension tables: no state to reason about, or one branch settles each.

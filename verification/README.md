# Daily Mirror: a verified model

Daily Mirror is a family photo mirror: cameras (a Raspberry Pi button box and
an ESP32) take photographs and queue them durably, a server reserves, stores and
lists them, a processor finds faces in them, and an operator migrates the
database and pairs devices. These Dafny modules model the parts of it whose
correctness is global and prove what they are meant to guarantee. Code that
changes state step by step is modelled by classes and loops, proved equal to a
specification function; code made of expressions is modelled by functions; and
what several processes do together is a state machine over their steps, with
invariants over every run.

| file | component |
|---|---|
| `Calendar.dfy`, `Timestamps.dfy`, `TimestampForms.dfy` | date arithmetic, RFC 3339 instants and the texts taken for one, capture IDs and the two listing orders |
| `LoginThrottle.dfy`, `LoginRaces.dfy`, `LoginRaceBound.dfy`, `LoginRaceRuns.dfy` | the sign-in limiter and its sliding-window bound, for attempts one at a time and for any interleaving of their statements; the runs that reach the bound |
| `Catalog.dfy`, `UploadFlow.dfy` | the photos table, the photo store, completion, direct upload and reconciliation |
| `PhotoQueue.dfy`, `UploadRuns.dfy`, `UploadRetries.dfy` | a camera's queue and uploader; every run of the upload protocol; when an upload can still finish |
| `ReconcileRuns.dfy`, `StuckPasses.dfy` | when reconciliation fails as a whole, one operation at a time and interleaved |
| `ReusedIds.dfy`, `ReusedSteps.dfy`, `ReusedObjects.dfy`, `ReusedSizes.dfy`, `ReusedRuns.dfy` | the table and the store with reused capture IDs; what its statements do undisturbed; when a completed photo's row, object and size can change; the runs that show it |
| `ServiceLocks.dfy` | the operation, camera and LED locks under every interleaving |
| `SqlStatements.dfy`, `Schema.dfy`, `MigrationRunner.dfy`, `MigrationRuns.dfy`, `SchemaGate.dfy`, `GateRuns.dfy` | migration files, idempotent statements, the runner, concurrent runners, the readiness gate and its requests |
| `PreviewScanner.dfy`, `Exif.dfy`, `ExifFormat.dfy`, `Base64Url.dfy`, `SExpressions.dfy`, `SymbolMerge.dfy` | the MJPEG, EXIF, base64url and S-expression scanners and codecs; the merge of extended symbols |
| `DevicePairing.dfy` | pairing: claims, device tokens, release and registration |
| `FaceMatching.dfy`, `FaceProfiles.dfy` | identity suggestions, and what they learn from the labelled faces |
| `LeaseDrain.dfy`, `LeaseStories.dfy` | the processor's queue drain, and what each answer makes of a lease |
| `FaceGeometry.dfy`, `FacePlaces.dfy` | face boxes and candidates, and where they lie on the photo |
| `Text.dfy` | bytes, digits, trimming, text order |

Where the code does not do what it is meant to, the code is what is modelled,
and the exact condition is proved:

- The timestamp parser checks a day against 31 and not against its month, and a
  second against 60, so the thirty-first of February and the second 60 are kept
  (`Timestamps.ImpossibleDayIsKept`, `Timestamps.SecondSixtyIsKept`). A kept
  timestamp, and an accepted ID, is the date and time of some second exactly
  when its second is below 60 and its day fits its month
  (`Timestamps.KeptInstants`, `Timestamps.AcceptedInstants`).
- The limiter's insert never blocks, so a limit below two still lets two
  failures through; the bound for any 15 minutes is 2 * max(max, 2) - 2 and is
  reached for every limit (`LoginThrottle.SlidingWindowTight`). An attempt is
  several statements: a query, the delete of a row whose window was over, which
  no longer looks at the row, and later a clock and a record. With k attempts
  under way at once the bound is (k + 1) * max(max, 2) - 2 + k * (k - 1) / 2 for
  any 15 minutes in which no failure is recorded by a clock read before them, and
  is reached (`LoginRaceBound.RaceBound`, `LoginRaceRuns.RaceTight`); one such
  record exceeds it (`LoginRaceRuns.LateRecordExceeds`). A promised
  block can end early exactly when some attempt has yet to delete the row, or is
  past the check while the window ends before the block, or has read a clock at
  which the window is over or that is older than the block's own
  (`LoginRaces.BlockCanBeCutShortExactlyWhen`,
  `LoginRaceRuns.LateDeleteLiftsBlock`).
- A grant reserves its row before it checks the size, and the size is cast to a
  signed 64-bit number. A refused grant of 0 bytes, or of 2^63 bytes and more,
  therefore leaves a row on which every reconciliation pass fails, whatever else
  is uploaded, until that ID is reserved with a readable size or uploaded
  directly (`ReconcileRuns.EdgeGrants`,
  `ReconcileRuns.UnusableGrantFailsEveryPass`). With every statement interleaved
  that row can be repaired exactly when some client may upload its ID with a
  readable size (`StuckPasses.CanBeRepairedExactlyWhen`); and without a further
  such reservation or transfer of the ID exactly when a completion under way has
  read a size that its object has, or a pass under way took its table before the
  row was there (`StuckPasses.RepairedQuietlyExactlyWhen`,
  `StuckPasses.NoPassReadsPending`). A pass works exactly when every
  pending photo was last reserved with a size in 1 .. 2^63 - 1
  (`ReconcileRuns.PassWorksExactlyWhen`, `ReconcileRuns.ReservationKeepsPasses`).
- Reused capture IDs can change a completed photo; the upload runs assume unique
  IDs. Its row changes in some run exactly when a reservation of its ID passed
  the guard before and would not pass it now
  (`ReusedObjects.RowCanChangeExactlyWhen`). Its object changes in some run
  exactly when an upload of its ID with other bytes is on its way (a signed PUT
  begun, a signed URL still good, or a local save past its look at the file) or,
  remotely, is past the guard or may still get past it, now or after upserts in
  flight (`ReusedObjects.ObjectCanChangeExactlyWhen`; with no outdated reservation
  in flight the last means passing it now, `ReusedObjects.SettledMayPass`). A size
  that agrees can come to differ exactly when a reservation that declares another
  length is past the guard, or an upload of another length is on its way or can
  get a URL by declaring the object's, since a signed URL does not bind the
  length (`ReusedSizes.SizeCanComeApartExactlyWhen`); and a row can be ready with
  a wrong size at all exactly when an upload of its ID can be stored and one,
  perhaps the same, declares another length than that one has
  (`ReusedSizes.SizesCanDifferExactlyWhen`). The runs: `ReusedRuns.SlowSaveReplaces`,
  `ReusedRuns.RegisterTrustsLength`, `ReusedRuns.LatePutBeforeMark`,
  `ReusedRuns.GuardIsOutrun`, `ReusedRuns.LateUpsertRewritesRow`,
  `ReusedRuns.SameSizeReuseReplaces`.
- Retrying the whole exchange is not always safe to rely on. An undisturbed retry
  completes exactly when its bearer token is let in, the ID and the metadata
  validate at the server's clock, the size is in range, the guard does not block, no temporary file of a broken
  local save is in the way, and the bytes decode
  (`UploadRetries.RetryCompletesExactlyWhen`); over all continuations a photo can
  leave the queue exactly when its ID spells a moment from 2020 on, its metadata
  validates, its size is in range and its bytes decode
  (`UploadRetries.PhotoCanFinishExactlyWhen`). The inputs that fail: a camera clock
  at 1970 (`UploadRetries.EarlyClockNeverFinishes`), two JPEG markers with nothing
  to decode between them (`UploadRetries.UndecodableNeverFinishes`), a released
  device, whose camera sends its own refused token even where it also has the
  shared one (`UploadRetries.ReleasedDeviceNeverCompletes`), a photo stored
  under another device or none, as after pairing a camera between a stored upload
  and its lost reply (`UploadRetries.RetryIsRefusedWhen`,
  `UploadRetries.OtherDeviceNeverCompletes`), and a temporary file left behind,
  until the server restarts under another process number
  (`UploadRetries.BrokenSaveStopsRetries`, `UploadRetries.LeftoverHoldsPhoto`).
- The readiness gate keeps a ready answer for good only if no slower request
  overwrites it: a cached ready answer can be lost exactly when a request in
  flight missed the cache before and has not read the database, or has read
  something else (`GateRuns.ReadyCanBeLostExactlyWhen`, the run in
  `GateRuns.SlowRefusalOverwrites`). What it admits is always migrated
  (`GateRuns.AdmittedIsMigrated`).

## Model

| member | source | states |
|---|---|---|
| Calendar.CivilFromUnixInverts | server/src/capture.rs:395-420 | for every second count the conversion gives a real proleptic Gregorian date and time of day, and counting days, months and years back gives the same second |
| Calendar.UnixFromCivilInverts | server/src/capture.rs:395-420 | every real date and time of day comes back from its second count |
| Calendar.AddingADay | server/src/capture.rs:395-420 | 86,400 seconds more is exactly the next calendar day at the same time of day |
| Calendar.YearOfEraLocates | server/src/capture.rs:401-404 | the four-division formula finds the March-based year of every day of a 400-year era, the 366th day only where the year is leap |
| Calendar.MonthOfShiftedYear | server/src/capture.rs:405-413 | the 153-day month formula gives a real month and day, whose place in the calendar year is the day asked for |
| Calendar.DateOfEraDay | server/src/capture.rs:398-415 | an era and a day of the era denote the date with that day number |
| Calendar.DateOrder | server/src/capture.rs:395-420 | dates in calendar order have day numbers in that order |
| Timestamps.FormatParses | server/src/capture.rs:348-385 | what is written is read back exactly when the fields are in range and the year fits four characters |
| Timestamps.NormalisationIdempotent | server/src/capture.rs:331-345 | for a fixed clock, normalising a kept timestamp again changes nothing and keeps the civil fields |
| Timestamps.NormalFormsAreKept | server/src/capture.rs:331-345 | the server's own text is kept as it is in the plausible years and dropped outside them |
| Timestamps.ImpossibleDayIsKept | server/src/capture.rs:376-383 | the parser keeps a day its month does not have, which is no instant |
| Timestamps.SecondSixtyIsKept | server/src/capture.rs:376-383 | the parser keeps a second 60, which is no instant |
| Timestamps.KeptInstants | server/src/capture.rs:331-385 | a kept timestamp is the date and time of some second count exactly when its second is below 60 and its day fits its month |
| Timestamps.AcceptedInstants | server/src/capture.rs:428-463 | an accepted ID has in-range fields in a plausible year, and is the date and time of some second count exactly under the same condition |
| Timestamps.ParsedYear | server/src/capture.rs:354-385 | a parsed instant has in-range fields and a year of at most four characters |
| TimestampForms.ParsesExactlyWhen | server/src/capture.rs:354-385 | a text is taken for an instant exactly when it has the form (fields, one of three separators, a fraction, one of four ways to say UTC) with its fields in range; which instant follows from the characters |
| TimestampForms.PlausibleExactlyWhen | server/src/capture.rs:331-345 | malformed exactly when the trimmed text does not parse, dropped exactly outside 2020 and the latest year, and else kept in the server's own text |
| TimestampForms.LatestYear | server/src/capture.rs:331-345 | the latest plausible year is this one, or the next on its last day |
| TimestampForms.IdVerdictWhen | server/src/capture.rs:428-463 | an ID is refused exactly for a character out of place or a field out of range, implausible exactly outside the years, and else accepted |
| TimestampForms.IdTimestampIs | server/src/catalog.rs:652-666 | the catalog's time for an ID is its digits with the separators in between, and an ID shorter than that as it is |
| Timestamps.ShapedIdParses | server/src/capture.rs:428-463 | an ID of the right shape parses to the tuple its digits spell, exactly when those fields are in range |
| Timestamps.ComposeOrder | server/src/catalog.rs:652-666 | text order of equally wide digit fields between fixed separators is number order of the fields, then order of the tails |
| Timestamps.IdOrder | server/src/capture.rs:428-472 | ID order is civil-tuple order, then suffix order |
| Timestamps.TimestampOrder | server/src/catalog.rs:652-666 | catalog times are ordered as, and equal as, the civil tuples of their IDs |
| Timestamps.IdsSortByTime | server/src/capture.rs:428-472 | for real instants, ID order is order of second counts, then of suffixes |
| Timestamps.ListingsAgree | server/src/photos.rs:265-272 | the store's ID-descending list and the catalog's (time, ID)-descending list of the same photos are the same list |
| Timestamps.CameraIdsAcceptedWhen | device/src/main.rs:2370-2373 | an ID a camera makes at any moment of a four-digit year keeps its fields and is accepted exactly when its year is from 2020 to the server's year a day ahead |
| Timestamps.CameraIdsAccepted | server/src/capture.rs:428-463 | so an ID of a clock not before 2020 and not more than a day ahead of the server's is accepted |
| Timestamps.CaptureIdParses | device/src/main.rs:2370-2373 | an ID made from in-range fields has the shape, the fields and the timestamp it was made from |
| Timestamps.CameraIdsSortByTime | device/src/main.rs:2370-2373 | cameras' IDs sort by the second they were made, then by suffix |
| LoginThrottle.AuthStore.LoginRetryAfter | server/src/auth.rs:279-309 | the remaining block, or none; a row whose block and window are over is deleted, any other is kept |
| LoginThrottle.AuthStore.RecordLoginFailureLimited | server/src/auth.rs:319-357 | the three-way upsert of failures, window start and block |
| LoginThrottle.AuthStore.ClearLoginFailures | server/src/auth.rs:359-369 | the scope's row is deleted, the others stay |
| LoginThrottle.AuthStore.PasswordSession | server/src/auth_http.rs:15-54 | checks, then verifies, then records or clears; a refused attempt touches no failure count |
| LoginThrottle.BlockOutlivesWindow | server/src/auth.rs:20-22 | when a block has ended, its window has ended |
| LoginThrottle.RunKeepsTied | server/src/auth.rs:279-357 | in every run the scope's row is the tail of its log of admitted failures: same window, same rank, same block |
| LoginThrottle.SlidingWindowBound | server/src/auth.rs:279-357 | any LOGIN_WINDOW seconds of any run of attempts made one at a time admit at most 2 * budget - 2 failures of one scope |
| LoginThrottle.SlidingWindowTight | server/src/auth.rs:279-357 | for every limit, 0 and 1 included, some run reaches that bound |
| LoginRaces.AttemptIsItsSteps | server/src/auth_http.rs:15-54 | an attempt whose statements nothing interleaves does to the table and the log what one attempt of LoginThrottle does |
| LoginRaces.RunKeepsFacts | server/src/auth.rs:319-357 | in every run of interleaved statements a row is of this or an earlier second, is blocked only after max failures and for at most LOGIN_BLOCK seconds from now |
| LoginRaces.BlockCanBeCutShortExactlyWhen | server/src/auth.rs:279-346 | without a success, the scope can be let through before the end of its block in some run exactly when an attempt has yet to delete the row, or is past the check and the window ends before the block, or has read a clock at which the window is over or that lies more than LOGIN_BLOCK before the block's end |
| LoginRaceBound.EventKeepsTotal | server/src/auth.rs:279-357 | every statement in the interval uses up the room for the failure it lets through: failures counted and failures still possible never grow together |
| LoginRaceBound.RaceBound | server/src/auth_http.rs:15-40 | with query, delete, clock and record interleaved and at most k attempts under way, any LOGIN_WINDOW seconds of any run in which no failure is recorded by a clock from before them admit at most (k + 1) * budget - 2 + k * (k - 1) / 2 failures of one scope |
| LoginRaceRuns.RaceTight | server/src/auth_http.rs:15-40 | for every limit and every k some such run reaches that bound |
| LoginRaceRuns.LateRecordExceeds | server/src/auth.rs:324-357 | for every limit and every k some run exceeds it by one failure recorded in the interval by a clock from before it |
| LoginRaceRuns.LateDeleteLiftsBlock | server/src/auth.rs:279-309 | for every limit, with two attempts at once: a full window is told to wait LOGIN_BLOCK seconds, and the other attempt's delete lets the scope through in the same second |
| LoginThrottle.SpentBudgetBlocks | server/src/auth.rs:340-344 | once a window's budget is spent, the scope is refused for LOGIN_BLOCK seconds |
| LoginThrottle.RetryAfterIsExact | server/src/auth.rs:293-298 | the advertised wait is positive, refused at every second before it and admitted at its end |
| LoginThrottle.RetryAfterIsBounded | server/src/auth.rs:293-298 | in a run the wait never exceeds LOGIN_BLOCK |
| Catalog.PhotoCatalog.ReserveForDevice | server/src/catalog.rs:168-212 | a completed row is reserved again only for the same size and device; otherwise the upsert, which keeps key and status and a known device |
| Catalog.PhotoCatalog.MarkReady | server/src/catalog.rs:252-269 | the row becomes ready, or there is none |
| Catalog.ExpectedSizeIsLastReserved | server/src/catalog.rs:271-302 | in every history of the table the size read for a pending photo is the one last reserved for it, and it cannot be read exactly when that was 0 or at least 2^63 |
| Catalog.PendingRowIsReserved | server/src/catalog.rs:168-212 | in every history of the table a pending row has the key of its first reservation, the device last named for it, and the capture time its last reservation gave or else its ID's |
| Catalog.PhotoCatalog.RegisterReadyForDevice | server/src/catalog.rs:408-419 | reserve and mark ready, or refuse and change nothing |
| Catalog.PhotoCatalog.Import | server/src/catalog.rs:369-390 | each adopted object's row is inserted ready, or made ready with its key |
| Catalog.ImportedMeans | server/src/catalog.rs:369-390 | an imported photo is ready under the last key it came with: a row that was there keeps all but its key and status, a new one has its ID's time and no size or device |
| Catalog.OthersStay | server/src/catalog.rs:369-390 | the rows of photos that are not imported stay as they were |
| Catalog.ReadyRowsArePinned | server/src/catalog.rs:168-269 | over every sequence of reservations, completions and imports, for any IDs and sizes, a ready row's key, size, status and device never change |
| Catalog.OthersAreUntouched | server/src/catalog.rs:168-390 | statements about other photos leave a photo's row as it is |
| UploadFlow.StorageKeysDiffer | server/src/photos.rs:170-176 | different captures have different storage keys |
| UploadFlow.PhotoStore.Save | server/src/photos.rs:226-263 | the local save keeps a file it sees and otherwise renames the photo into place, over whatever another save has put there meanwhile, unless its temporary file is left from a broken save, which it leaves again when writing fails; the remote store takes no raw upload |
| UploadFlow.PhotoStore.Put | server/src/photos.rs:208-222 | a PUT on a signed URL replaces that ID's object and no other |
| UploadFlow.FinalizeUpload | server/src/upload_flow.rs:139-184 | the row becomes ready exactly when it exists, its size is positive, the object is there with that size and can be read; each missing condition, in this order, has its own error and changes nothing |
| UploadFlow.DirectUpload | server/app/api/photos/route.rs:36-88 | save, check, register: the row is ready exactly if the photo was valid, could be saved and read, and the ID was not taken; the object may be stored even when it is refused |
| UploadFlow.FinalizedIsComplete | server/src/upload_flow.rs:139-184 | after an accepted completion and any later reservations, completions and imports, the row is ready with its object's size and completing it again succeeds and changes nothing |
| UploadFlow.ReconcileAll | server/src/upload_flow.rs:191-278 | in whatever order its hash maps are walked: pending rows with a readable object of their size become ready, objects without a row are imported, nothing else changes; an unusable pending size fails the pass |
| UploadFlow.ReconciledMeans | server/src/upload_flow.rs:200-278 | after a pass every row before and every stored object has a row: a missing one is made ready, a pending one is ready exactly if its object has its size and can be read, the others stay |
| UploadFlow.ReconcileIsIdempotent | server/src/upload_flow.rs:191-278 | a second pass recovers and imports nothing and leaves the table as it is |
| ReconcileRuns.UnusableGrantFailsEveryPass | server/app/api/uploads/route.rs:51-66 | after a refused grant of an unreadable size, with operations one at a time every reconciliation pass fails over any further grants, uploads, completions and passes, until that ID is reserved with a readable size or uploaded directly |
| StuckPasses.RepairedQuietlyExactlyWhen | server/src/upload_flow.rs:139-278 | with every statement of uploads, completions and passes interleaved, but no further readable reservation, transfer end or registration of its ID, a pending row of unreadable size becomes readable or ready in some run exactly when a completion under way has read a size that its object has and the image is in order, or a pass under way took its table before the row was there and can find its object |
| StuckPasses.NoPassReadsPending | server/src/catalog.rs:284-302 | otherwise no pass of such a run gets past its reading of the pending rows |
| StuckPasses.CanBeRepairedExactlyWhen | server/src/catalog.rs:168-212 | in every reachable state such a row becomes readable or ready in some run exactly when some client may upload its ID with a size from 1 to 2^63 - 1 |
| ReconcileRuns.Operate | server/src/upload_flow.rs:75-180 | an operation of such a history is what the catalog's and the store's own calls do |
| ReconcileRuns.EdgeGrants | server/src/catalog.rs:565-574 | on an empty site a grant of 0 or of 2^63 bytes makes passes fail, the second stored as -2^63; a grant of 1 or of 2^63 - 1 does not |
| ReconcileRuns.ReservationKeepsPasses | server/src/catalog.rs:284-302 | a reservation of a photo that is not ready leaves passes working exactly when its size is from 1 to 2^63 - 1 and the other pending sizes can be read |
| ReconcileRuns.PassWorksExactlyWhen | server/src/catalog.rs:284-302 | in every history of the table a pass works exactly when every pending photo was last reserved with such a size |
| ReusedIds.RunKeepsInv | server/src/photos.rs:226-263 | with any uploads sharing IDs and every statement interleaved, objects and row sizes are those of clients' uploads, and only uploads that may be stored are on their way |
| ReusedSteps.GrantIsItsSteps | server/app/api/uploads/route.rs:47-73 | undisturbed, a grant's guard and upsert are the reservation, and the remote store signs a URL exactly for 1 to 33554432 bytes |
| ReusedSteps.CompletionIsItsSteps | server/src/upload_flow.rs:139-184 | undisturbed, a completion's statements go through exactly where completing finalizes, with the same outcome |
| ReusedSteps.SaveIsItsSteps | server/src/photos.rs:226-263 | undisturbed, a save's statements go through exactly where no file or temporary file is in its way, with the save's outcome |
| ReusedSteps.BrokenSaveIsItsSteps | server/src/photos.rs:226-263 | a save that breaks stores nothing, and its temporary file stays only if it was left |
| ReusedSteps.RestartLeavesFiles | server/src/photos.rs:226-263 | a restart keeps rows and objects, forgets every request, and leaves the open temporary files under the old process's names |
| ReusedSteps.PutIsItsSteps | server/src/photos.rs:178-224 | a signed URL lets a PUT begin for exactly as long as it is good, and the PUT replaces the object |
| ReusedSteps.DirectIsItsSteps | server/app/api/photos/route.rs:36-88 | undisturbed after its save, a direct upload's statements go through exactly where it is accepted, with the same outcome |
| ReusedSteps.PassReadsOrphans | server/src/upload_flow.rs:191-246 | undisturbed, a pass gets through its reads exactly where every pending size can be read, and then imports exactly the objects without a row |
| ReusedIds.ReadyIsCompleted | server/src/upload_flow.rs:139-184 | in every such run a ready row has an object |
| ReusedObjects.RowCanChangeExactlyWhen | server/src/catalog.rs:168-212 | a completed row's size or device can change in some run exactly when a reservation of its ID is past the guard and would not pass it now |
| ReusedObjects.ObjectCanChangeExactlyWhen | server/src/photos.rs:208-263 | in every reachable state a completed photo's object can change in some run exactly when an upload of its ID with other bytes is on its way, or is past the guard, or may still get past it |
| ReusedObjects.UnthreatenedStays | server/src/catalog.rs:598-630 | where there is none, no run changes it |
| ReusedObjects.SettledMayPass | server/src/catalog.rs:598-630 | with no outdated reservation in flight, being past the guard or getting past it means passing it now |
| ReusedSizes.SizeCanComeApartExactlyWhen | server/src/catalog.rs:598-630 | row and object of one size can come apart in some run exactly when a reservation that declares another length is past the guard, or an upload of another length is on its way or can get a URL by declaring the object's length |
| ReusedSizes.SizesCanDifferExactlyWhen | server/src/upload_flow.rs:139-278 | a ready row can name another size than its object's in some reachable state exactly when an upload of its ID can be stored and one, perhaps the same, declares another length than that one has |
| ReusedRuns.SameBytesNeverChange | server/README.md:69-75 | where all uploads of an ID have the same bytes, a completed photo keeps its object in every run |
| ReusedRuns.SlowSaveReplaces | server/src/photos.rs:238-262 | on the local store a save past its look at the file renames its bytes over a photo completed meanwhile; with another length the sizes differ and the guard blocks it |
| ReusedRuns.RegisterTrustsLength | server/app/api/photos/route.rs:44-75 | on the local store, with no race, a second upload registers its own length for the first one's file |
| ReusedRuns.LatePutBeforeMark | server/src/upload_flow.rs:139-174 | a PUT between a completion's check and its last statement makes a row ready with a wrong size |
| ReusedRuns.GuardIsOutrun | server/src/photos.rs:208-222 | granted first and sent last, an upload leaves a ready row of the other's size with its own object, which the guard by then blocks |
| ReusedRuns.LateUpsertRewritesRow | server/src/catalog.rs:168-212 | past the guard first and upserted last, it gives the completed row the declared size of an upload that was never stored |
| ReusedRuns.SameSizeReuseReplaces | server/src/catalog.rs:621-626 | an upload that declares the row's size, from the same device or none, can replace a completed photo's object with bytes of any length |
| PhotoQueue.Device.FinishCapture | device/src/main.rs:550-573 | a photo is committed whole to the destination chosen at the shutter, or not at all |
| PhotoQueue.Device.QueueExisting | device/src/main.rs:619-633 | a local test photo is never queued |
| PhotoQueue.Device.Upload | device/src/main.rs:818-937 | a local file or test mode sends nothing; otherwise each request carries the camera's own token, or without one the shared token, and follows the acceptance of the one before, and the file leaves the queue exactly when all were accepted |
| PhotoQueue.Device.RetryAll | device/src/main.rs:939-960 | exactly the queued photos are tried, in file-name order, a failure does not stop the others, and exactly the accepted ones leave the queue |
| PhotoQueue.UploadedIds | device/src/main.rs:939-960 | the photos that leave are those whose whole exchange was accepted |
| PhotoQueue.ExchangeMeans | device/src/main.rs:818-937 | the grant request is always sent, the bytes exactly where the grant was given, the completion exactly where the bytes were taken and one is asked for |
| PhotoQueue.UploadedOneMeans | device/src/main.rs:818-937 | attempts are numbered from one, and a photo leaves the queue exactly where no request of its exchange is refused |
| PhotoQueue.EachIsTried | device/src/main.rs:939-960 | a retry sends each queued photo's own exchange, as its next attempt, once |
| PhotoQueue.UploadIsARun | device/src/main.rs:818-937 | one call of upload, between any other steps, is a run of the protocol: it sends the exchange's requests, each enabled by the acceptance before it, and the photo leaves the queue exactly when all were accepted |
| UploadRuns.NoPhotoIsLost | device/src/main.rs:818-937 | in every run with crashes, lost, late or repeated requests and replies, and interleaved statements, each committed photo is still queued or is a ready row under its key and size whose object is that photo |
| UploadRuns.GalleryIsComplete | server/src/upload_flow.rs:191-278 | in every run a ready row has its photo, no object lacks a row, and an import, even one decided on stale reads, adds no row |
| UploadRuns.TestPhotosAreNeverSent | device/src/main.rs:818-830 | a photo taken in test mode keeps its local file and never appears in a request, the queue, the table or the store, however the mode is toggled |
| UploadRuns.ReadyRowStays | server/src/catalog.rs:168-269 | from the moment a row is ready its key, size and device stay, in every run |
| UploadRuns.PlaceIsFixedAtTheShutter | device/src/main.rs:490-573 | whatever is switched or done between the shutter and the end of a capture, the photo goes to the queue exactly when the camera was not in test mode at the shutter |
| UploadRetries.RetryCompletes | server/README.md:69-75 | from every reachable state an undisturbed retry that meets the exchange's conditions stores the photo and frees the queue |
| UploadRetries.RetryCompletesExactlyWhen | server/app/api/uploads/route.rs:22-66 | an undisturbed retry can free the queue exactly when its token is let in, ID and metadata validate, the size is in range, the guard does not block, no temporary file is in the way and the bytes decode |
| UploadRetries.PhotoCanFinishExactlyWhen | server/src/upload_flow.rs:95-103 | some continuation of a run frees the queue of a photo exactly when its ID spells a moment from 2020 on, its metadata validates, its size is in range and its bytes decode |
| UploadRetries.EarlyClockNeverFinishes | device/src/main.rs:2370-2373 | a photo taken by a clock at 1970 stays in the queue in every run |
| UploadRetries.UndecodableNeverFinishes | device/src/main.rs:2375-2390 | a photo of two markers passes the camera's and the store's test and, undecodable, stays in the queue in every run |
| UploadRetries.RetryIsRefusedWhen | server/src/catalog.rs:598-630 | the guard blocks a retry exactly when the photo is ready and the retry names a device the row does not |
| UploadRetries.OtherDeviceNeverCompletes | server/src/catalog.rs:621-630 | and then no retry with a token of that device completes in any later state of any run |
| UploadRetries.ReleasedDeviceNeverCompletes | server/src/upload_auth.rs:36-74 | a camera that sends a token of no active device completes no retry, though the shared token it also has would be let in |
| UploadRetries.BrokenSaveStopsRetries | server/src/photos.rs:243-250 | wherever a grant passes, a broken local save leads to a state where no retry of any device completes, and restarting under another process number makes it complete again |
| UploadRetries.LeftoverHoldsPhoto | server/src/photos.rs:243-250 | until such a restart the photo stays in the queue, in every run |
| UploadRuns.RunKeepsInv | server/src/upload_flow.rs:139-184 | every step of cameras, requests and reconciliation keeps the protocol's invariant |
| UploadRuns.AcceptIsSound | server/app/api/uploads/route.rs:51-78 | a reply of success is true: a reserved row, a stored object, or a ready row with its object |
| ServiceLocks.ScriptsAreGated | device/src/main.rs:325-408 | every operation, whatever fails in it, takes the LEDs only under the operation lock, the camera under it or alone, and releases everything |
| ServiceLocks.ScriptDoes | device/src/main.rs:1139-1380 | whatever fails in it, an operation sends exactly the photos it gets to, takes the camera once or not at all, shows exactly its signals, and sets the mode only for settings that pass |
| ServiceLocks.TimesCaptured | device/src/main.rs:325-408 | how often a capture takes the camera, shows the lights and sends, for each way it can end |
| ServiceLocks.RunKeepsInv | device/src/main.rs:243-408 | any number of threads keep mutual exclusion, the lock discipline, and uploads under the operation lock outside test mode |
| ServiceLocks.WaitsPointDown | device/src/main.rs:1139-1155 | every wait points to a thread of lower rank, and nobody ever waits for the LEDs |
| ServiceLocks.NoDeadlock | device/src/main.rs:1233-1256 | in every interleaving the wait-for graph has no cycle of any length |
| ServiceLocks.SomeThreadMoves | device/src/lab.rs:537-549 | while a thread has work left, some thread can take its next step |
| ServiceLocks.NothingIsSentInTestMode | device/src/main.rs:1412-1442 | while test mode is on no upload is in flight, and otherwise at most one is, its thread alone holding the operation lock |
| ServiceLocks.ModeIsStableDuringOperation | device/src/main.rs:1412-1442 | nobody else changes the mode during an operation |
| ServiceLocks.SavedSettingsApply | device/src/main.rs:1412-1442 | settings that pass are in force when the save is done, and nothing else has changed |
| ServiceLocks.UngatedCapturesDeadlock | device/src/main.rs:1248-1256 | without the operation lock the same button capture and lab capture reach a state where each waits for the other |
| SqlStatements.Statements | server/src/migrations.rs:431-457 | the one-pass loop computes: strip comments outside literals, cut at semicolons outside literals, trim, drop empty pieces |
| SqlStatements.SkipLine | server/src/migrations.rs:437-442 | a comment is consumed up to and including its line break |
| SqlStatements.TwoPasses | server/src/migrations.rs:431-465 | the one-pass splitter is the two plain passes |
| SqlStatements.StatementsAreClean | server/src/migrations.rs:431-465 | every statement is trimmed, not empty and has no comment and no end in it; only the last may leave a literal open |
| SqlStatements.FirstStatement | server/src/migrations.rs:431-465 | a clean closed statement in front of any text is split off as itself |
| SqlStatements.SplitIsIdempotent | server/src/migrations.rs:431-465 | joining the statements with semicolons and splitting again gives the same statements, for every text |
| SqlStatements.ScriptsSplitIntoStatements | server/src/migrations.rs:424-465 | a script written from code, literals and comments is cut into exactly its statements, semicolons and dashes inside literals kept |
| Schema.RunOnlyGrows | server/src/migrations.rs:396-409 | no statement loses a table, a column or an index |
| Schema.RunSettles | server/src/migrations.rs:396-409 | after a list of statements, each of them would succeed again and change nothing |
| Schema.StopsThenWhole | server/src/migrations.rs:396-409 | running any prefixes and then the whole list gives what the whole list once gives, failure included |
| MigrationRunner.Connection.Acquire | server/src/migrations.rs:474-504 | a stale lock is cleared, and the lock is taken exactly if none is left |
| MigrationRunner.Connection.Release | server/src/migrations.rs:506-515 | only the holder's own row is removed |
| MigrationRunner.Connection.ApplyOne | server/src/migrations.rs:369-394 | all statements and the record, or nothing |
| MigrationRunner.Connection.Apply | server/src/migrations.rs:337-367 | whatever other runners do before the lock is held: a version unknown to the build or recorded with another checksum, at either status read, is reported and the lock given back, at the first read with the database as it was; a held lock or a dry run changes nothing; otherwise the pending ones in order, and the lock always given back |
| MigrationRunner.PendingCommit | server/src/migrations.rs:337-367 | commits only add records, each for a pending migration, and all of them when all commit |
| MigrationRunner.NothingPending | server/src/migrations.rs:281-289 | nothing is pending exactly when every version of the build is recorded |
| MigrationRunner.RanIsCurrent | server/src/migrations.rs:299-312 | applying all pending migrations leaves no drift and nothing pending |
| MigrationRunner.DriftIsDisagreement | server/src/migrations.rs:258-280 | there is drift exactly when some recorded version is unknown to the build or recorded with another checksum |
| MigrationRunner.PendingInOrder | server/src/migrations.rs:281-289 | what is pending is exactly what is not recorded, in ascending order of versions |
| MigrationRunner.GoesOnMeans | server/src/migrations.rs:341-347 | a call takes the lock exactly when nothing disagrees, something is not recorded and it is no dry run |
| MigrationRunner.CommittedMeans | server/src/migrations.rs:369-393 | a migration commits exactly when it is unrecorded and no statement fails, with its name, its checksum and the schema its statements make |
| MigrationRunner.CommitsInOrder | server/src/migrations.rs:358-364 | migrations commit one after another from the first, up to the first that does not |
| Schema.ExecuteMakes | server/src/migrations.rs:396-409 | what each kind of statement makes and when it fails; only the duplicate of an added column is forgiven |
| MigrationRuns.UndisturbedRunApplies | server/src/migrations.rs:337-367 | undisturbed, the interleaved runner ends exactly as one call of the runner does |
| MigrationRuns.RecordedIsCommitted | server/src/migrations.rs:337-394 | with several runners, crashes and stale-lock takeover: a recorded version has the build's checksum, all its statements and all earlier ones in the schema, and nothing the database had is lost |
| MigrationRuns.RecordedOnce | server/src/migrations.rs:386-393 | no version is recorded twice in any run |
| MigrationRuns.SuccessIsCurrent | server/src/migrations.rs:353-366 | a runner that reports success leaves the whole build recorded |
| MigrationRuns.OverlapNeedsStaleLock | server/src/migrations.rs:474-515 | two runners are past the lock at once only if one has held it longer than LOCK_STALE_SECONDS |
| MigrationRuns.RunKeepsInv | server/src/migrations.rs:337-515 | every step of every runner, its two status reads, its clock reading and its lock statements apart, keeps the invariant behind these results |
| SchemaGate.SchemaGate.Read | server/src/schema_gate.rs:93-125 | drift before pending before ready, with the highest recorded version and the number pending; -1 where the database cannot be read |
| SchemaGate.CodeMeans | server/src/schema_gate.rs:93-125 | drift exactly where a recorded version is unknown or has another checksum; pending only where a version is missing; ready only where every version of the build is recorded with its checksum |
| SchemaGate.SchemaGate.GetReport | server/src/schema_gate.rs:82-91 | one undisturbed call: a cached ready answer, or any younger than RECHECK_BEHIND seconds, is given again; otherwise the database is read and the answer cached |
| SchemaGate.SchemaGate.Protect | server/src/schema_gate.rs:131-149 | only `/api/` is gated, and it is admitted exactly when the report is ready |
| SchemaGate.SchemaGate.CurrentVersion | server/src/migrations.rs:130-136 | the highest recorded version, 0 for a database never migrated |
| GateRuns.AdmittedIsMigrated | server/src/schema_gate.rs:82-149 | with any requests and runners interleaved, a request the gate admits, from its cache or a fresh look, finds every migration recorded and in place |
| GateRuns.ReadyCanBeLostExactlyWhen | server/src/schema_gate.rs:82-91 | a cached ready answer can be lost in some run exactly when a request in flight missed the cache and has not read the database, or has read something else |
| GateRuns.SlowRefusalOverwrites | server/src/schema_gate.rs:82-91 | the run of a slow and a quick request after which a migrated database's requests are refused |
| SchemaGate.ReadyIsExpectedVersion | server/src/schema_gate.rs:93-125 | a ready database is at exactly the build's version and records exactly its versions |
| PreviewScanner.Preview.ConsumeByte | device/src/lab.rs:604-631 | one byte of the scanner, which keeps the buffer within its limit and the served frame the last one shown |
| PreviewScanner.Preview.Consume | device/src/lab.rs:597-632 | one read of the pipe is its bytes one by one |
| PreviewScanner.Preview.ConsumeAll | device/src/lab.rs:592-633 | successive reads do what one read of their concatenation does |
| PreviewScanner.ReadsCompose | device/src/lab.rs:592-633 | how the stream is split into reads does not matter |
| PreviewScanner.CutsAreFrames | device/src/lab.rs:604-631 | the stream's frames are disjoint, in order, within the size limit, open with FF D8 and have FF D9 first at their end |
| PreviewScanner.ShownFramesAreCuts | device/src/lab.rs:588-633 | the frames shown are exactly those frames of the whole stream, however it is read |
| PreviewScanner.ShownFramesAreImages | device/src/lab.rs:588-633 | every frame shown starts with FF D8, has FF D9 only as its last two bytes and is at most one byte over the limit |
| PreviewScanner.ImagesComeBack | device/src/lab.rs:588-633 | a stream of back-to-back images after any bytes is cut into exactly those images |
| PreviewScanner.CameraImagesAreShown | device/src/lab.rs:588-633 | every image of such a stream is shown, in order |
| PreviewScanner.ImagesAfterAnything | device/src/lab.rs:604-631 | whatever came before, once outside a frame the scanner shows every image that follows |
| PreviewScanner.OverlongIsGivenUp | device/src/lab.rs:622-629 | a frame that has not ended one byte over the limit is given up, and the scanner is where it started |
| PreviewScanner.JunkIsSkipped | device/src/lab.rs:605-612 | bytes without a start marker show nothing and leave the scanner outside a frame |
| Exif.Reader.ReadPhotoExif | device/src/local_photo_viewer.js:9-61 | the segment walk terminates, reads only inside the buffer, and yields the fields of the first EXIF segment |
| Exif.Reader.ReadTiff | device/src/local_photo_viewer.js:22-58 | a wrong byte order or magic number yields nothing; otherwise the first directory is read |
| Exif.Reader.ReadDirectory | device/src/local_photo_viewer.js:31-57 | the recursive reader terminates, visits no directory twice and reads only inside its segment |
| Exif.Reader.ReadEntry | device/src/local_photo_viewer.js:38-56 | a pointer is followed; an entry of a known tag and type with usable data sets its field; anything else is skipped |
| ExifFormat.OnlyTheSegmentIsRead | device/src/local_photo_viewer.js:27-57 | for any bytes the reading is decided by the APP1 segment alone |
| ExifFormat.ValueIsRead | device/src/local_photo_viewer.js:41-55 | a stored text, number, rational or signed rational is read as what it denotes, in either byte order |
| ExifFormat.FieldValueIsRead | device/src/local_photo_viewer.js:38-55 | a well-formed entry, inline or at an offset, yields its value or is skipped |
| ExifFormat.DirectoryIsRead | device/src/local_photo_viewer.js:31-57 | a well-formed directory with its sub-directories yields its supported entries, the last of a name winning |
| ExifFormat.WalkSkips | device/src/local_photo_viewer.js:9-20 | ordinary segments in front are skipped |
| ExifFormat.PhotoIsRead | device/src/local_photo_viewer.js:2-62 | a photo whose EXIF segment describes some items yields exactly their meaning |
| ExifFormat.ByteOrderDoesNotMatter | device/src/local_photo_viewer.js:23-29 | little-endian and big-endian photos of the same items read the same |
| ExifFormat.OnlyJpegs | device/src/local_photo_viewer.js:9 | without the two bytes that start a JPEG nothing is read |
| ExifFormat.WalkStopsOrPasses | device/src/local_photo_viewer.js:10-17 | the walk ends where there is no marker, at image data and at the end, and passes over markers that stand alone |
| ExifFormat.WalkSegment | device/src/local_photo_viewer.js:18-61 | any other marker has a length; one that does not fit ends the walk, the segment that says Exif is read, others are skipped |
| ExifFormat.TiffStarts | device/src/local_photo_viewer.js:22-28 | the byte order twice and 42 in that order, or nothing is read |
| ExifFormat.WordsAre | device/src/local_photo_viewer.js:27 | two and four bytes with the high ones last or first |
| ExifFormat.TypesAndTags | device/src/local_photo_viewer.js:4-41 | the five types and twelve tags that are read, and the tags' names |
| Exif.TextStopsAtNul | device/src/local_photo_viewer.js:45 | text is the longest part from the front without a zero byte |
| Base64Url.Encode | server/components/webauthn.ts:88-93 | the loop builds the binary string of the bytes, then the url alphabet without padding |
| Base64Url.DecodeEncode | server/components/webauthn.ts:81-93 | every byte sequence survives encoding and decoding |
| Base64Url.EncodeDecode | server/components/webauthn.ts:81-93 | a string decodes to bytes that encode back to it exactly when it has url symbols only, a possible length and no stray bits |
| Base64Url.EncodedIsCanonical | server/components/webauthn.ts:88-93 | everything encoded is such a string |
| Base64Url.EncodedIsBits | server/components/webauthn.ts:88-93 | the encoding is the bytes' bits six at a time in the url alphabet, as many characters as hold them, without padding |
| Base64Url.DecodeFailsWhen | server/components/webauthn.ts:81-86 | a string without padding or white space fails to decode exactly when it has a foreign character or an impossible length |
| SExpressions.Children | hardware/pcb-p4/import_candidate_parts.py:26-45 | the loop is the character scan |
| SExpressions.Block | hardware/pcb-p4/build_starter.py:26-41 | the text from the symbol's first opening to the end of its node, or the error where there is none |
| SExpressions.ChildrenOfPrinted | hardware/pcb-p4/import_candidate_parts.py:26-45 | of any printed list, with parentheses and escaped quotes inside quoted atoms, exactly the list-valued members are returned, in order |
| SExpressions.NodeAtPrinted | hardware/pcb-p4/build_starter.py:28-41 | started at a printed node, the scan returns exactly that node's text, whatever surrounds it |
| SExpressions.BlockThenChildren | hardware/pcb-p4/import_candidate_parts.py:48-58 | the named symbol is found where it first occurs, returned whole, and its members listed |
| SExpressions.FlattenedIsReadBack | hardware/pcb-p4/import_candidate_parts.py:48-58 | a flattened symbol, read again as a parent, gives back the items it was joined from |
| SymbolMerge.OwnProperties | hardware/pcb-p4/import_candidate_parts.py:53-54 | the dictionary comprehension, and its failure on a property without a quoted name |
| SymbolMerge.Merge | hardware/pcb-p4/import_candidate_parts.py:55-59 | the loop that replaces by popping, and the rest appended |
| SymbolMerge.PropertiesAreFiled | hardware/pcb-p4/import_candidate_parts.py:53-54 | each name is kept once, with the last of its texts |
| SymbolMerge.NameIsQuoted | hardware/pcb-p4/import_candidate_parts.py:56 | a child is called what stands between the first two quotes after "(property", if that is not empty |
| SymbolMerge.PropertiesFailWhen | hardware/pcb-p4/import_candidate_parts.py:53-54 | the own properties fail exactly when a child that starts as a property has no such name |
| SymbolMerge.OwnOverridesBase | hardware/pcb-p4/import_candidate_parts.py:55-59 | in the merged items a property is the symbol's own, or else its base's |
| SymbolMerge.BaseKeepsItsPlaces | hardware/pcb-p4/import_candidate_parts.py:55-59 | every child of the base keeps its place or is replaced there by the own property of its name, and only new properties follow |
| SymbolMerge.MergedNamesOnce | hardware/pcb-p4/import_candidate_parts.py:55-59 | where the base's names differ, so do the merged symbol's |
| SymbolMerge.MergeIsIdempotent | hardware/pcb-p4/import_candidate_parts.py:55-59 | merging the same properties again changes nothing |
| SymbolMerge.MostDerivedWins | hardware/pcb-p4/import_candidate_parts.py:48-60 | along any chain of symbols that extend one another, the flattened text, sliced again, has for each property the text of the most derived symbol that defines it |
| DevicePairing.DeviceRegistry.MintFor | server/src/devices.rs:210-247 | an unconsumed token for the household, expiring after its time to live |
| DevicePairing.DeviceRegistry.Claim | server/src/devices.rs:251-342 | refused with the right error and no change, or the token is consumed and the device bound to its household with a new token and the name it had |
| DevicePairing.DeviceRegistry.Release | server/src/devices.rs:402-413 | the device is released, nothing else changes |
| DevicePairing.DeviceRegistry.RegisterDevice | server/src/devices.rs:470-548 | refused with the right error and no change, or created or rotated with a new token |
| DevicePairing.DeviceRegistry.AuthenticateDevice | server/src/devices.rs:346-370 | an unreleased device with that token, if there is one |
| DevicePairing.RunKeepsInv | server/src/devices.rs:210-548 | redeemed tokens are consumed once and in time, and every device holds the newest token given to it, in every run |
| DevicePairing.ClaimTokensAreSingleUse | server/src/devices.rs:251-305 | a claim token succeeds at most once, and never at or after its expiry |
| DevicePairing.OnlyNewestTokenAuthenticates | server/src/devices.rs:346-370 | a token authenticates exactly the unreleased device it is the newest token of |
| DevicePairing.TokensIdentifyDevices | server/src/devices.rs:346-370 | no token answers for two devices |
| DevicePairing.HouseholdChangesOnlyAcrossRelease | server/src/devices.rs:275-291 | over any steps without its release, an active device stays active in its household |
| DevicePairing.RefusalChangesNothing | server/src/devices.rs:251-305 | a run with a refused claim ends as the run without it |
| DevicePairing.ConflictClearsOnRelease | server/src/devices.rs:275-305 | a claim refused for its household pairs the device with that household, by the same token, once the device is released |
| DevicePairing.ClaimSucceeds | server/src/devices.rs:251-342 | a valid form with an unconsumed, unexpired token always pairs, unless the device is active in another household |
| DevicePairing.ReleaseSilences | server/src/devices.rs:346-413 | after its release, until a new token is handed to it, no token authenticates the device in any run |
| DevicePairing.ClaimRefusedWhen | server/src/devices.rs:251-305 | a claim is refused as invalid exactly when a field is wrong, as a bad token exactly when it is unknown, used or expired, and as a conflict exactly when the device is active in another household |
| DevicePairing.RegisterRefusedWhen | server/src/devices.rs:470-530 | a registration is refused exactly when a field or the name is wrong, the device is another household's, or it is this one's and not to be rotated, or its name is taken |
| Text.TrimMeans | server/src/devices.rs:676-692 | trimming cuts white space off both ends and nothing else |
| DevicePairing.NamesStay | server/src/devices.rs:306-335 | claims and releases never rename a device |
| DevicePairing.FriendlyNameMeans | server/src/devices.rs:632-649 | a new device is called Mirror and the last four letters and digits of its ID in capitals |
| FaceMatching.BestMatch | server/src/face_matching.rs:63-92 | in whatever order the profiles come: the one enrolled person who scores high enough and clear of everyone else, or nobody |
| FaceMatching.OneWinner | server/src/face_matching.rs:87-89 | the margin leaves at most one winner |
| FaceMatching.CompetitorNeverHelps | server/src/face_matching.rs:84-90 | another person's profile never creates a match for someone else |
| FaceMatching.Matcher.TeachProfiles | server/src/face_matching.rs:101-142 | profiles are built from confirmed manual and enrolment faces in order |
| FaceMatching.Matcher.Propose | server/src/face_matching.rs:95-185 | every open face gets the match of the profiles before the pass, every other face stays, and both are counted |
| FaceMatching.HumanDecisionsStay | server/src/face_matching.rs:144-151 | confirmed, rejected and dismissed faces are left as they were |
| FaceMatching.PassKeepsProfiles | server/src/face_matching.rs:101-110 | suggestions never teach: the profiles after a pass are those before it |
| FaceMatching.PassIsIdempotent | server/src/face_matching.rs:95-185 | a second pass changes nothing |
| FaceMatching.PhotoPassesAddUp | server/src/face_matching.rs:144-151 | single-photo passes in any order, with repeats, add up to the full pass on the photos visited |
| FaceMatching.ProfilePhotos | server/src/face_matching.rs:125-128 | a profile's photos are exactly those with a confirmed face of its person |
| FaceProfiles.ProfileHolds | server/src/face_matching.rs:101-142 | a person has a profile exactly when a human gave them a face; it holds the photos and days of the first labelled face of each photo, how many of those are guided, and coordinate by coordinate the sum of their embeddings |
| FaceProfiles.EnrolledExactlyWhen | server/src/face_matching.rs:33-38 | enrolled exactly with five guided photos, or with five photos on three days |
| FaceProfiles.GuidedPersonIsProposed | server/src/face_matching.rs:84-92 | a person with five guided photos is proposed for an open face at least 0.65 like them and 0.15 less like everybody else |
| FaceProfiles.FaceDecided | server/src/face_matching.rs:144-183 | an open face gets its one winner with the score cut to -1 .. 1, or loses its old suggestion; no other face changes |
| FaceProfiles.SummaryCounts | server/src/face_matching.rs:165-174 | the summary counts the open faces and those left with a name |
| LeaseDrain.ProcessorRunner.Drain | processor/src/lib.rs:244-324 | the outer loop: its requests and its summary for every script of answers |
| LeaseDrain.ProcessorRunner.Batch | processor/src/lib.rs:264-321 | the inner loop over a claimed batch |
| LeaseDrain.ProcessorRunner.Handle | processor/src/lib.rs:270-320 | one photo: renew, download, process, look for shutdown, complete |
| LeaseDrain.ProcessorRunner.ReleaseRemaining | processor/src/lib.rs:344-351 | one failure report for each remaining lease |
| LeaseDrain.EveryClaimIsAccounted | processor/src/lib.rs:244-324 | for every schedule claimed = completed + failed + skipped + released, and the counters are those of the log |
| LeaseDrain.ClaimsAreCounted | processor/src/lib.rs:244-324 | the claimed counter is the number of leases claimed |
| LeaseDrain.EachLeaseIsSettledOnce | processor/src/lib.rs:264-321 | each claimed lease is settled in exactly one of seven ways, each but a failed renewal with exactly one complete-or-fail request, and no other lease is touched, also when a later claim fails |
| LeaseDrain.NothingCompletedAfterShutdown | processor/src/lib.rs:301-310 | after shutdown is seen, leases are only handed back |
| LeaseStories.LogIsTales | processor/src/lib.rs:244-324 | for every script the log says, lease by lease in the order of the claims, exactly what the answers say |
| LeaseStories.StoryFollowsAnswers | processor/src/lib.rs:264-321 | which of the seven stories a lease has is decided by its answers and by whether its turn came |
| LeaseStories.EventsCarryAnswers | processor/src/lib.rs:270-320 | every renewal, download, processing and completion in the log is the script's answer for a lease whose turn came; a completion only follows a renewal, a download, a processing and no shutdown |
| LeaseStories.SummaryFollowsAnswers | processor/src/lib.rs:244-324 | each counter is the number of claimed photos with such answers |
| LeaseStories.ErrorExactlyWhen | processor/src/lib.rs:249-257 | the drain returns an error exactly when a claim fails that it comes to |
| FaceGeometry.NormalizedIsClipped | processor/src/opencv_engine.rs:289-311 | the box is the detection clipped to the image, refused exactly when no positive area is left |
| FaceGeometry.CropContainsBox | processor/src/mediapipe_engine.rs:253-270 | for a box in the image the crop never fails: it is the smallest pixel rectangle around the widened box cut to the image, so non-empty, in the image and containing the box |
| FaceGeometry.PaddedBounds | processor/src/mediapipe_engine.rs:285-314 | the loop finds the landmarks' extremes; too few landmarks or no extent is an error |
| FaceGeometry.BoundsHoldLandmarks | processor/src/mediapipe_engine.rs:285-314 | the box lies in the image, has positive size and contains every landmark in the image |
| FaceGeometry.OverlapSymmetric | processor/src/mediapipe_engine.rs:354-368 | overlap is symmetric |
| FaceGeometry.OverlapIsRatio | processor/src/mediapipe_engine.rs:354-368 | overlap is in [0, 1], 1 exactly for equal boxes, 0 exactly when no interior is shared |
| FaceGeometry.Process | processor/src/mediapipe_engine.rs:134-219 | full-frame faces, then each detection's closest crop face unless it overlaps a candidate, sorted; nothing where a box is refused |
| FaceGeometry.SortOrders | processor/src/mediapipe_engine.rs:215-219 | the final list is a permutation, larger faces first, then further left |
| FaceGeometry.CropFacesStandApart | processor/src/mediapipe_engine.rs:207-213 | full-frame faces stay in front and every later face overlaps no other candidate by 0.35 or more |
| FaceGeometry.CropFacesOverlapNothing | processor/src/mediapipe_engine.rs:207-219 | in the final list two faces overlap by 0.35 or more only if both are full-frame faces |
| FaceGeometry.DetectionsAreCovered | processor/src/mediapipe_engine.rs:201-213 | for every detection with a crop face, some final face overlaps that face by 0.35 or more |
| FaceGeometry.CollectedInImage | processor/src/mediapipe_engine.rs:134-213 | every candidate's box lies in the image and is that of its landmarks |
| FacePlaces.FaceOfIsOfCrop | processor/src/mediapipe_engine.rs:181-206 | a detection's face is one of its crop, each landmark in pixels at the crop's corner and its share of the crop, and the first of those whose middle is nearest to the detection's |
| FacePlaces.LandsInside | processor/src/mediapipe_engine.rs:188-197 | a landmark of the crop lands in the crop |
| FacePlaces.LaterFacesLand | processor/src/mediapipe_engine.rs:159-213 | every candidate after the full-frame faces is such a face of some detection's crop |
| FacePlaces.FaceOfFails | processor/src/mediapipe_engine.rs:159-206 | a detection fails exactly when nothing of it is in the image or a face of its crop has no box, and finds nothing exactly when its crop has no face |
| FacePlaces.CollectedWhen | processor/src/mediapipe_engine.rs:134-213 | the photo fails exactly when a full-frame face has no box or a detection fails |
| FacePlaces.BoxMargins | processor/src/mediapipe_engine.rs:285-314 | the box is the landmarks' extent widened by 12 percent on each side, 22 above and 8 below, cut to the image; none without extent |
| FacePlaces.TooFewLandmarks | processor/src/mediapipe_engine.rs:285-288 | fewer than 474 landmarks give no box |
| FacePlaces.SharedIsCommon | processor/src/mediapipe_engine.rs:354-361 | the common part of two intervals has the shared length |
| FacePlaces.AreasAre | processor/src/mediapipe_engine.rs:344-346 | a box's area is its width times its height, and so is what two boxes have in common |
| FacePlaces.OverlapOfAreas | processor/src/mediapipe_engine.rs:354-368 | overlap times the area of the union is the area in common |
| FacePlaces.SortedFaces | processor/src/mediapipe_engine.rs:215-219 | a permutation by area, then by left edge, that keeps the order of equals |

## Left out

- Atomicity: each SQL statement and each transaction is one step. The upload runs
  take the reservation's guard and upsert together, and the local save, which
  the runs with reused IDs do not; an administrative registration's reads and
  insert are taken together too, though the code issues them one after the other.
- UploadRuns.ReadyRowStays: with guard and upsert as one step; where they are two,
  the exact condition is ReusedObjects.RowCanChangeExactlyWhen.
- LoginThrottle.SlidingWindowBound: attempts one at a time; LoginRaces takes
  their statements apart.
- LoginRaceBound.RaceBound: intervals in which no failure is recorded by a clock
  from before them; how far such records can go past the bound is not stated.
- ReusedIds: one server process at a time; which requests are let in and validate
  is fixed, and a signed URL carries the bytes of the upload it was granted for.
- ReconcileRuns.UnusableGrantFailsEveryPass: operations one at a time; a stale
  import, or a completion already past the size, can make the row ready too, and
  StuckPasses.RepairedQuietlyExactlyWhen has the condition.
- SchemaGate.SchemaGate.GetReport: one call that no other disturbs; GateRuns
  interleaves them.
- Text is ASCII, one character a byte: Unicode white space, case and the panics of
  slicing inside a character are not modelled.
- Secrets: SHA-256, Argon2, WebAuthn and random tokens are injective or fresh
  values; the length test on device tokens and the household names behind accounts
  are left out, and so are passkey ceremonies, whose single use is one DELETE.
- SQLite details: case-insensitive names, column types, the bookkeeping tables'
  own creation, and error texts; migrations use the three kinds of statement
  modelled.
- MigrationRunner.Connection.Apply: nothing else touches the database once the
  lock is held; MigrationRuns interleaves that part too.
- Two runners of one host and process number share a holder name in the code; the
  runs take holder names to be distinct.
- UploadRetries.RetryCompletes: one undisturbed retry; that a camera keeps
  retrying, and signed URLs that expire during it, are not modelled; how a bearer token is
  hashed is left out too. Neither are
  user deletion, rotation, thumbnail files and the processing queue; which
  metadata validates and which bytes decode are parameters.
- UploadRuns.NoPhotoIsLost: unique capture IDs, as the 32-bit random suffix is
  meant to give, and a storage service that stores a request's bytes or nothing.
- PhotoQueue.Device.RetryAll: the sorted directory listing is given; file-system
  errors other than a missing file are left out.
- PhotoQueue.Device.FinishCapture: the bytes are those after the lossless
  rotation, which may leave them as they were.
- DevicePairing.DeviceRegistry.AuthenticateDevice: the length test on tokens and
  the update of last_seen_at are left out.
- ServiceLocks: mutexes around single field accesses, the bounded wait of
  stopping a preview, the preview's start and stop flags and its signals; a
  preview may keep the camera as long as it runs. A command-line process has
  locks of its own.
- Exif.Reader.ReadEntry: text is the bytes up to the first NUL, before UTF-8
  decoding; quotients are reals.
- PreviewScanner: a read error ends the thread and is not modelled.
- SExpressions: how `extends` names the parent, and the renaming of the root
  symbol in `flatten`, are left out; a chain that never ends has no text. Quoted
  atoms escape quotes and backslashes only.
- LeaseDrain.ProcessorRunner.Drain: a drain that never returns has no script; how
  the server hands out leases is not modelled.
- FaceGeometry: reals for f32, so no rounding, no NaN; the neural networks are
  parameters, alignment and embeddings are left out.
- FaceMatching.BestMatch: embeddings are given decoded and the cosine is a
  parameter; f64 rounding could split a tie that reals do not.
- LED levels, argument lists, orientation arguments, text and range validators,
  cookies, the gallery, people and households: each member would be easy.
- The web pages, CAD and KiCad geometry, calibration and the 2022 prototypes.

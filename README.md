# UniPlateTracker, modelled in Dafny

UniPlateTracker records number-plate detections from a camera and shows them
on a web dashboard. The parts modelled here are these.

- **The detection worker** (`worker/src`).
  - It receives a UniFi Protect LPR webhook per plate read and takes the plate
    from `alarm.triggers[0].value`. UK plates are checked against a vehicle
    lookup and dropped when unknown.
  - It upserts one row per plate number in a single transaction. The first
    capture time is kept; the most recent time, the image and the vehicle
    details are refreshed.
  - It keeps a rolling buffer of short video segments recorded by a
    supervised ffmpeg child. A watchdog kills a hung child, and a periodic
    sweep deletes segments older than the retention window.
  - It stitches the buffered segments around a detection into one clip,
    plus a thumbnail.
- **The Next.js application.**
  - The plates API validates the query string, builds a parameterised
    WHERE clause and pages the result.
  - The admin sign-up and admin-management routes enforce the invitation
    rules: only approved addresses sign up, and no admin may revoke themselves or an
    admin they invited. The admin list's page additionally disables
    revoking the initial admin and one's own inviter.
  - The middleware redirects between the admin pages and the login page.
  - The page logic covers the plates table's filters (a `URLSearchParams`
    rewrite), the dashboard's per-hour chart and the admin list's
    revoke-button rules.
- **The legacy Python/JS stack** (`background_tasks.py`, `backend.py`,
  `html/script.js`).
  - The older character-correcting processor and its upsert.
  - The Flask paging and video endpoints.
  - The static page's plate formatting, client-side row filter and polling.

Each source file is one Dafny module, plus `Common`, which has no source file of its own and holds the string, digit and sorting helpers several modules share.
- **Pure code** is modelled as datatypes, functions and lemmas.
- **Code that changes state step by step** is modelled as classes with
  `modifies` frames:
  - the plate table and its id sequence (`PlateStore`, `LegacyStore`);
  - the segment directory (`BufferDirectory`);
  - the ffmpeg child's promise (`Recording`);
  - the capture host's files (`CaptureHost`);
  - the admin tables (`AdminTables`);
  - the session cookie (`Session`);
  - the query builder (`QueryBuilder`);
  - `URLSearchParams` (`SearchParams`);
  - table rows (`TableRow`);
  - the poller (`Poller`).
- **Loops in the source** are methods with loop invariants, each proved
  against a specification function.

**Database failures.** A `failAt` parameter names the awaited database
call that rejects. The model proves each transaction's all-or-nothing
outcome and the answer a failure gets.
- In the worker, `pool.connect()` is awaited before the `try`
  (`worker/src/index.ts:81`) and ROLLBACK inside the `catch`
  (`worker/src/index.ts:122`). When either rejects, the error escapes the
  Express handler and no response is sent. The model has a `Connect` step
  and a `rollbackFails` flag for these, and `HandleWebhook` then answers
  `None`.
- In the Next.js routes, an error escaping the handler is answered with
  500 and nothing is committed. A failing connect or ROLLBACK there has the
  same outcome as a failing BEGIN, so it is not a separate step.

**Two behaviours of the code worth stating plainly.**
- **Clip extraction.** `worker/src/video-capture.ts` concatenates every
  buffered segment, seeks to ten seconds before the event and trims to the
  capture duration. It does not skip the newest segments, does not limit
  how many segments it takes and does not check the size of its output.
- **The upsert.** The worker does SELECT-then-INSERT/UPDATE inside a
  transaction (`worker/src/index.ts:86-117`). The table has no unique
  constraint on `plate_number` (`scripts/init-db.ts:20-37`). Uniqueness is
  therefore proved only for sequential detections
  (`DetectionWorker.UpsertKeepsPlatesUnique`).

## Model

| member | source | states |
|---|---|---|
| Common.StripWhitespaceClean | worker/src/index.ts:138 | removing `\s` leaves no whitespace character |
| Common.NormalizePlateIdempotent | worker/src/index.ts:138 | normalising an already normalised plate changes nothing |
| Common.NormalizePlateClean | worker/src/index.ts:138 | a normalised plate has no whitespace and no lower-case letter |
| Common.NormalizePlateDropsWhitespace | worker/src/index.ts:138 | whitespace inserted anywhere in a plate does not change its normal form |
| Common.NormalizePlateIgnoresCase | worker/src/index.ts:138 | lower-casing a reported plate does not change its normal form |
| Common.ParseIntOfIntToString | worker/src/video-capture.ts:59-61 | `parseInt` reads back the decimal text `String(n)` of any integer |
| Common.DecimalTextOfIntToString | backend.py:34-35 | Python `int()` reads back the decimal text of any integer |
| Common.SortNames | worker/src/video-capture.ts:51 | the sorted listing is in ascending order and is a permutation of the input |
| Common.InsertNameSorted | worker/src/video-capture.ts:51 | inserting a name into a sorted list keeps it sorted |
| Common.SplitJoin | worker/src/video-capture.ts:53 | splitting the joined lines at the separator gives back the lines when none contains it |
| Common.ReplaceAllChar | worker/src/video-capture.ts:41 | every ':' is replaced, every other character is kept, length unchanged |
| Common.ReplaceFirstOfPrefix | worker/src/video-capture.ts:60 | `replace` of a prefix that starts the text removes exactly that prefix |
| Common.LexLessTotal | worker/src/video-capture.ts:51 | the name order used by `sort` relates any two distinct names one way |
| Common.LexLessTransitive | worker/src/video-capture.ts:51 | the name order is transitive |
| DetectionWorker.OrNull | worker/src/index.ts:98 | `x \|\| null`: an empty string becomes null, any other value is kept |
| DetectionWorker.ExtractPlate | worker/src/index.ts:136-138 | no plate exactly when `alarm.triggers[0].value` is missing or empty, else its normalised form |
| DetectionWorker.ExtractPlateCanonical | worker/src/index.ts:138 | spacing and letter case of the reported plate do not change the stored key |
| DetectionWorker.Decide | worker/src/index.ts:136-161 | ignored exactly without a plate; a UK plate is dropped exactly when the lookup misses and saved with its details otherwise; any other plate is always saved, with looked-up details only when the international flag is 'true' |
| DetectionWorker.IndexOfPlate | worker/src/index.ts:86-89 | the index found holds the plate and no earlier row does; none exactly when no row holds it |
| DetectionWorker.UpsertKeepsPlatesUnique | worker/src/index.ts:86-117 | an upsert into a table with one row per plate keeps one row per plate |
| DetectionWorker.UpsertRowForPlate | worker/src/index.ts:86-117 | afterwards the plate has a row with the new recent time and image; its first capture time is kept, or is the detection time for a new row; the table grows exactly when the plate was absent |
| DetectionWorker.UpsertLeavesOtherPlates | worker/src/index.ts:86-117 | rows for other plates are untouched |
| DetectionWorker.UpdatedRowKeeps | worker/src/index.ts:90-105 | an update never changes id, plate, video, creation time or first capture time and always sets recent time, image and update time; without details nothing else changes; with details make, colour, fuel type, MOT and tax status and year take the registry's values, and each date and the registration month is stored when non-empty and null when absent or empty |
| DetectionWorker.NewRowStores | worker/src/index.ts:106-115 | an inserted row has the drawn id, the plate, the image, no video and the detection time as both capture times; without details every vehicle attribute is null, with details each is the registry's value as received, an empty date included |
| DetectionWorker.TwoDetectionsOneRow | worker/src/index.ts:86-117 | two detections of one plate leave one row: capture time from the first and recent time from the second |
| DetectionWorker.PlateStore.FindPlate | worker/src/index.ts:86 | the SELECT returns the first row holding the plate, or none |
| DetectionWorker.PlateStore.ProcessPlateData | worker/src/index.ts:76-127 | on COMMIT the table is the upsert of the old table and the update marker is set; on any failing statement the table and marker are as before; one row per plate is preserved; an id is drawn only by an INSERT that is reached; the call settles exactly when nothing fails, or a statement inside the `try` fails and ROLLBACK succeeds |
| DetectionWorker.PlateStore.HandleWebhook | worker/src/index.ts:132-167 | the answer is 200 unless a saved detection's connect fails or its failed transaction's ROLLBACK fails, in which case no response is sent; the table changes only for a saved detection whose transaction commits, and then as the upsert says |
| SegmentBuffer.CleanupIntervalMs | worker/src/buffer-manager.ts:14 | the sweep interval is the segment duration in milliseconds, NaN when the duration is NaN |
| SegmentBuffer.WatchdogMs | worker/src/buffer-manager.ts:44 | the watchdog fires 15 s after a segment's nominal end, NaN when the duration is NaN |
| SegmentBuffer.RetentionMs | worker/src/buffer-manager.ts:71 | retention in milliseconds is minutes times 60000, NaN when minutes are NaN |
| SegmentBuffer.UnsetEnvIsDefault | worker/src/buffer-manager.ts:12-13 | an unset variable yields its default number |
| SegmentBuffer.EmptyEnvIsDefault | worker/src/buffer-manager.ts:12-13 | an empty variable behaves as an unset one |
| SegmentBuffer.DefaultTimings | worker/src/buffer-manager.ts:12-14 | with nothing set: 30 s segments, 5 min retention, a 30000 ms sweep, a 45000 ms watchdog and 300000 ms retention |
| SegmentBuffer.SegmentName | worker/src/buffer-manager.ts:23-24 | a segment name is `segment_`, the decimal start time, then `.mp4` |
| SegmentBuffer.SegmentNameInjective | worker/src/buffer-manager.ts:23-24 | two recordings started at different times never share a file name |
| SegmentBuffer.Recording.constructor | worker/src/buffer-manager.ts:21-44 | a new recording writes its named segment with the watchdog armed and the promise pending |
| SegmentBuffer.Recording.OnWatchdog | worker/src/buffer-manager.ts:40-44 | an armed watchdog kills the child and resolves the promise; a cleared one does nothing |
| SegmentBuffer.Recording.OnClose | worker/src/buffer-manager.ts:49-57 | close clears the watchdog and resolves a pending promise whatever the code; it reports completion exactly for code 0 and nothing for a null code |
| SegmentBuffer.Recording.OnError | worker/src/buffer-manager.ts:59-63 | a spawn error clears the watchdog and rejects a pending promise |
| SegmentBuffer.Recording.Observe | worker/src/buffer-manager.ts:21-63 | the first event settles the promise: rejected exactly when it is a spawn error, pending exactly when nothing happens, the child killed exactly when the watchdog came first |
| SegmentBuffer.Swept | worker/src/buffer-manager.ts:73-83 | a sweep only removes files and never changes a kept file's time |
| SegmentBuffer.SweptLeavesFreshSegments | worker/src/buffer-manager.ts:71-82 | a full sweep keeps exactly the non-expired segments: every kept segment is within the retention window, every removed file was an expired segment |
| SegmentBuffer.SweptKeepsOtherFiles | worker/src/buffer-manager.ts:74 | files that are not segments are never deleted |
| SegmentBuffer.SweptKeepsBoundary | worker/src/buffer-manager.ts:79 | a segment exactly as old as the retention window is kept (strict comparison) |
| SegmentBuffer.SweptWithNaNKeepsAll | worker/src/buffer-manager.ts:71-82 | with a NaN retention nothing is deleted |
| SegmentBuffer.SweptIdempotent | worker/src/buffer-manager.ts:67-87 | sweeping again at the same instant deletes nothing more |
| SegmentBuffer.SweptStep | worker/src/buffer-manager.ts:73-83 | one more listed file removes that file exactly when it is an expired segment |
| SegmentBuffer.BufferDirectory.AddSegment | worker/src/buffer-manager.ts:23-24 | a recording adds its named segment and nothing else |
| SegmentBuffer.BufferDirectory.CleanupOldSegments | worker/src/buffer-manager.ts:67-87 | the directory becomes the sweep of the files handled before the first failing call, whose error ends the sweep |
| SegmentBuffer.RecorderPauses | worker/src/buffer-manager.ts:97-104 | the loop pauses 5000 ms after each failed recording and not after a successful one |
| VideoCapture.CivilFromDays | worker/src/video-capture.ts:41 | the calendar date of a day count has a valid month and day, February at most 29 |
| VideoCapture.YearOfEra | worker/src/video-capture.ts:41 | a day of a 400-year era is split into the year of the era and the day of its March-based year, counting 365 days a year plus the Gregorian leap days; day 365 falls only in a leap year |
| VideoCapture.MonthDay | worker/src/video-capture.ts:41 | a day of a March-based year is split into a month and a day that count back to it, the day within the month's common length except February 29 on day 365 |
| VideoCapture.CivilFromDaysInverse | worker/src/video-capture.ts:41 | the date given for a day number counts back to that day number by the Gregorian rules (365 days a year, a leap day every fourth year except centuries not divisible by 400), so the conversion is the proleptic Gregorian calendar |
| VideoCapture.CivilFromDaysInMonth | worker/src/video-capture.ts:41 | no date given is past the end of its month in its year; February 29 occurs only in leap years |
| VideoCapture.CivilFromDaysEpoch | worker/src/video-capture.ts:41 | day 0 is 1970-01-01 |
| VideoCapture.CivilFromDaysLeapDay | worker/src/video-capture.ts:41 | day 11016 is 2000-02-29 |
| VideoCapture.CivilFromDaysBeforeEpoch | worker/src/video-capture.ts:41 | day -1 is 1969-12-31 |
| VideoCapture.ZeroPad | worker/src/video-capture.ts:41 | zero-padded digits read back as the number and have the field width when it fits |
| VideoCapture.YearText | worker/src/video-capture.ts:41 | years 0-9999 are four digits; others carry a sign |
| VideoCapture.DateText | worker/src/video-capture.ts:41 | the date part is `YYYY-MM-DD` whose fields read back as the date |
| VideoCapture.TimeText | worker/src/video-capture.ts:41 | the time part is `HH:mm:ss.sss` whose fields read back as hours, minutes, seconds and milliseconds of the day |
| VideoCapture.IsoString | worker/src/video-capture.ts:41 | `toISOString` fails exactly outside the ±8.64e15 ms time range |
| VideoCapture.DateTextFields | worker/src/video-capture.ts:41 | the date text has dashes at 4 and 7 and its fields are the year, month and day |
| VideoCapture.TimeTextFields | worker/src/video-capture.ts:41 | the time text has its separators at 2, 5 and 8 |
| VideoCapture.IsoTextShape | worker/src/video-capture.ts:41 | the ISO text is 24 characters with `T` at 10 and `Z` last |
| VideoCapture.StampedName | worker/src/video-capture.ts:41 | the file name starts with the plate and `_`, ends with `.mp4`, and has no ':' when the plate has none |
| VideoCapture.FinalFilename | worker/src/video-capture.ts:41 | a file name exists exactly when the event time has an ISO form, and it is then the plate's stamped name of that ISO text, from which `StampedNameRestoresIso` recovers the ISO text |
| VideoCapture.StampedNameRestoresIso | worker/src/video-capture.ts:41 | putting back ':' at the two time positions of the stamp gives back the ISO text |
| VideoCapture.IsoTextColons | worker/src/video-capture.ts:41 | the ISO text has ':' exactly at positions 13 and 16 |
| VideoCapture.RelevantSegments | worker/src/video-capture.ts:48-51 | the listing's segment files, sorted, as a permutation |
| VideoCapture.RelevantSegmentsExact | worker/src/video-capture.ts:49-51 | a name is stitched exactly when it is listed and is a segment file; the concat list itself never is |
| VideoCapture.SegmentNameOrder | worker/src/video-capture.ts:51 | sorting segment names by text orders them by start time when the times have the same number of digits |
| VideoCapture.DigitsOrder | worker/src/video-capture.ts:51 | equal-length digit strings compare as text exactly as their values compare |
| VideoCapture.ConcatListLines | worker/src/video-capture.ts:53 | the concat list has one `file` line per segment, in order |
| VideoCapture.SegmentTimeOfName | worker/src/video-capture.ts:59-61 | reading the start time back out of a segment name gives the time it was named with |
| VideoCapture.SeekMs | worker/src/video-capture.ts:57-64 | the seek is never negative, is unknown exactly when the first name gives no time, and is ten seconds before the event relative to the first segment when that is positive |
| VideoCapture.ShortPreRollSeeksFromStart | worker/src/video-capture.ts:63-64 | the seek is clamped to 0 exactly when the buffer starts less than ten seconds before the event |
| VideoCapture.CaptureHost.constructor | worker/src/video-capture.ts:10-12 | the host starts with its directories and the configured capture duration |
| VideoCapture.CaptureHost.CaptureVideo | worker/src/video-capture.ts:39-91 | an invalid time fails before any work; fewer than two segments give nothing and no stitch; otherwise the list is written and one stitch run recorded, the list removed unless unlinking fails, and on exit 0 the clip (and thumbnail on its own exit 0) exists and its name is returned |
| VideoCapture.CaptureHost.GenerateThumbnail | worker/src/video-capture.ts:19-37 | a `.jpg` beside the clip exists exactly when ffmpeg exits 0; nothing else changes |
| LegacyProcessor.CorrectPlateCharacters | background_tasks.py:95-98 | the mapping keeps the length, maps positions 0, 1, 4, 5, 6 through the character table and leaves the rest |
| LegacyProcessor.ZeroReplaced | background_tasks.py:85-93 | zero replacement keeps the length |
| LegacyProcessor.ReplaceZeroWithO | background_tasks.py:85-93 | the loop computes the specified zero replacement |
| LegacyProcessor.ZeroReplacedSpec | background_tasks.py:88-92 | a '0' survives only at positions 3 and 4, and only '0' becomes 'O' |
| LegacyProcessor.CharMapIdempotent | background_tasks.py:97 | the character table is idempotent |
| LegacyProcessor.CorrectionsIdempotent | background_tasks.py:85-98 | correcting a corrected plate changes nothing |
| LegacyProcessor.CorrectedPlate | background_tasks.py:102-103 | correction keeps the plate's length |
| LegacyProcessor.CorrectedPlateZeros | background_tasks.py:102-103 | after both passes a '0' can remain only at position 3 |
| LegacyProcessor.GetOr | background_tasks.py:130-133 | a missing key reads as the default, a present one as its value |
| LegacyProcessor.FirstRowOf | background_tasks.py:112-113 | the row found holds the plate and is the first such; none exactly when none holds it |
| LegacyProcessor.LegacyApplyMonotone | background_tasks.py:115-122 | no row disappears and the only change to an existing row is its recent capture time, which never moves backwards |
| LegacyProcessor.LegacyApplyInserts | background_tasks.py:123-137 | a row is added exactly for an unseen plate with an image and registry details; it carries the plate, the detection time twice and the image; make, colour, fuel type, MOT and tax status are the registry's values when present and 'Unknown' when missing; the year is stored exactly when present |
| LegacyProcessor.LegacyApplyKeepsUnique | background_tasks.py:112-137 | sequential processing keeps one row per plate |
| LegacyProcessor.LegacyStore.ProcessPlateData | background_tasks.py:100-145 | a raw plate whose length is not 7 or 8 changes nothing; otherwise a commit applies the update or insert for the corrected plate and reports which branch ran (refreshed, already newer, inserted with the next id, or not inserted); a failing statement rolls everything back and reports it; the id sequence advances exactly when the insert path is reached; one row per plate is preserved |
| PlatesApi.CoerceNumber | src/app/api/plates/route.ts:7-12 | non-blank text coerces to an integer exactly when it is decimal integer text |
| PlatesApi.CoerceNumberOfIntToString | src/app/api/plates/route.ts:7-12 | the decimal text of an integer coerces back to it |
| PlatesApi.ValidateQuery | src/app/api/plates/route.ts:6-19 | a query is accepted exactly when page coerces to an integer of at least 1, limit to an integer from 1 to 100 and year to an integer, each when given; the accepted page, limit and year are the coerced values, or 1, 10 and none when absent; search, make, color, tax and mot pass through |
| PlatesApi.ValidateQueryRejects | src/app/api/plates/route.ts:6-23 | a page below 1, a limit outside 1-100, or a page, limit or year that is not an integer fails validation; a missing page is 1 and a missing limit 10 |
| PlatesApi.EmptyYearIsZero | src/app/api/plates/route.ts:12 | an empty `year=` coerces to 0 and is kept as a filter |
| PlatesApi.PlaceholderInjective | src/app/api/plates/route.ts:35 | distinct parameter positions give distinct `$n` placeholders |
| PlatesApi.EmptyFiltersAddNothing | src/app/api/plates/route.ts:31-37 | with no filters set the WHERE clause is empty and nothing is bound |
| PlatesApi.MakeFilterAdds | src/app/api/plates/route.ts:44 | a make filter adds one equality condition `car_make = $n` bound to the make |
| PlatesApi.PlaceholdersBind | src/app/api/plates/route.ts:34-41 | every `$n` in the clause names the bound value at position n |
| PlatesApi.WhereClause | src/app/api/plates/route.ts:50 | the WHERE text is empty exactly when there is no condition |
| PlatesApi.QueryBuilder.constructor | src/app/api/plates/route.ts:28-29 | the builder starts with no condition and no value |
| PlatesApi.QueryBuilder.Push | src/app/api/plates/route.ts:34-35 | a pushed value is bound at the next position and the conditions stay matched to their values |
| PlatesApi.QueryBuilder.AddCondition | src/app/api/plates/route.ts:31-37 | a set filter adds one condition and one value; an unset one adds nothing |
| PlatesApi.QueryBuilder.AddSearch | src/app/api/plates/route.ts:39-42 | a non-empty search adds one ILIKE condition on the spaceless plate, bound to the normalised term between '%' signs |
| PlatesApi.BuildFilter | src/app/api/plates/route.ts:28-50 | the WHERE text and the bound values are exactly those of the query's filter terms, in order |
| PlatesApi.Offset | src/app/api/plates/route.ts:26 | the offset is never negative and is 0 exactly on page 1 |
| PlatesApi.TotalPages | src/app/api/plates/route.ts:71 | the page count is the least number of pages holding all rows |
| PlatesApi.PageInRange | src/app/api/plates/route.ts:26 | a page's offset falls inside the rows exactly when the page is at most the page count |
| PlatesApi.DataArgsBind | src/app/api/plates/route.ts:54-55 | limit and offset are bound after the filter values at the placeholders the query names |
| PlatesApi.Get | src/app/api/plates/route.ts:17-88 | 400 exactly for an invalid query; otherwise the data and count queries are issued with the filter values then limit and offset, answering 500 when they fail and else the page, page count and row count |
| LegacyBackend.ClockText | backend.py:73-74 | the time of day is `HH:MM:SS` |
| LegacyBackend.ClockTextReadsBack | backend.py:73-74 | the three fields of the clock text are digits spelling the hour, minute and second of the day, which add back up to the second |
| LegacyBackend.DayOrNA | backend.py:83-84 | a missing date is shown as 'N/A', a present one as its `YYYY-MM-DD` text |
| LegacyBackend.StampOrNone | backend.py:73-74 | a missing timestamp is shown as none |
| LegacyBackend.FormatRecordMissing | backend.py:71-85 | a date is shown as 'N/A' and a timestamp as none exactly when it is missing; plate, make, tax status, year and video are passed through |
| LegacyBackend.Matching | backend.py:51-56 | the selection is exactly the rows equal to every given filter |
| LegacyBackend.EmptyFiltersMatchAll | backend.py:51-56 | with no filter every row is selected |
| LegacyBackend.MakeFilterIsEquality | backend.py:51 | the make filter compares by equality |
| LegacyBackend.FloorDiv | backend.py:68 | Python's `//` rounds toward minus infinity |
| LegacyBackend.FloorDivIsCeiling | backend.py:68 | `(n + per - 1) // per` is the least page count holding n rows |
| LegacyBackend.Window | backend.py:59 | LIMIT/OFFSET yields at most `limit` consecutive rows starting at the offset |
| LegacyBackend.FormatAll | backend.py:71-85 | one formatted record per row, in order |
| LegacyBackend.ViewDataPage | backend.py:28-87 | the page is the formatted window of the matching grouped rows, with the page count of the raw `COUNT(*)` |
| LegacyBackend.ViewDataIsWindow | backend.py:34-87 | the rows shown are the filtered window at the page's offset |
| LegacyBackend.PageOfIsWindow | backend.py:34-68 | the page helper agrees with the window |
| LegacyBackend.ViewDataErrors | backend.py:34-36 | the answer is a server error exactly when the page or limit is not an integer or is below 1 (a zero limit divides by zero, a negative limit or a page below 1 reaches the database as a negative LIMIT or OFFSET); with neither given a page is served |
| LegacyBackend.PageOfErrors | backend.py:34-36 | once page and limit are integers, the answer is an error exactly when either is below 1 |
| LegacyBackend.TotalPagesIgnoresFilters | backend.py:66-68 | the page count depends only on page, limit and the raw row count `COUNT(*)`: not on the filters and not on the grouped listing |
| LegacyBackend.GroupedPlateCountsTwice | backend.py:46-68 | a concrete case: two raw rows of one plate make one listed record but two pages at a limit of 1 |
| LegacyBackend.VideosOf | backend.py:102 | the candidate files are exactly the listed names starting with the plate |
| LegacyBackend.ServeVideoLatest | backend.py:102-109 | not found exactly when no name starts with the plate; otherwise the file sent is a candidate no smaller than any other |
| LegacyBackend.SortedLastIsGreatest | backend.py:103-106 | the last of a sorted list is its greatest element |
| LegacyBackend.TruthyTextsMembers | backend.py:185-195 | the option lists keep exactly the non-empty values |
| LegacyBackend.TruthyYears | backend.py:191-192 | the year list keeps exactly the non-zero years present |
| LegacyBackend.TruthyTextsAppend | backend.py:186 | filtering a concatenation filters each part |
| AdminManagement.NoSessionForbidden | src/app/api/admin/management/route.ts:39-41 | without a session both handlers answer 403 and change nothing |
| AdminManagement.RefusalsChangeNothing | src/app/api/admin/management/route.ts:35-129 | every refusal leaves approvals, users and activity as they were |
| AdminManagement.AddAdminEffect | src/app/api/admin/management/route.ts:47-69 | an address already approved gives 409; a new one gives 200, is approved as invited by the actor, leaves other approvals and the accounts alone and is logged |
| AdminManagement.AddAdminTwice | src/app/api/admin/management/route.ts:47-56 | a second invitation of the same address is refused |
| AdminManagement.RevokeAdminEffect | src/app/api/admin/management/route.ts:95-122 | revoking oneself or an admin one invited is 403 and an unknown address 404; any other revocation succeeds, removes exactly that approval and account and is logged |
| AdminManagement.InviterCannotRevoke | src/app/api/admin/management/route.ts:108-111 | after inviting an address its inviter cannot revoke it, while any other admin can |
| AdminManagement.AdminTables.AddAdmin | src/app/api/admin/management/route.ts:35-78 | without a failing statement the answer and tables are those of the invitation rules; a 500 leaves the tables unchanged; a failing BEGIN or approval SELECT on a valid request, and any failing statement of an invitation that would succeed, answers 500 |
| AdminManagement.AdminTables.RevokeAdmin | src/app/api/admin/management/route.ts:82-129 | without a failing statement the answer and tables are those of the revocation rules; a 500 leaves the tables unchanged; a failing BEGIN or approval SELECT on a valid request for another admin, and any failing statement of a revocation that would succeed, answers 500 |
| AdminSignup.SignupEffect | src/app/api/admin/auth/signup/route.ts:11-35 | the lower-cased address is refused with 403 exactly when unapproved and 409 exactly when it already has an account; otherwise 201 adds exactly its account; a refusal changes nothing |
| AdminSignup.SignupOnce | src/app/api/admin/auth/signup/route.ts:25-28 | a second sign-up with the same address is refused with 409 |
| AdminSignup.Signup | src/app/api/admin/auth/signup/route.ts:8-54 | the handler as written: on commit the specified effect; a 500 leaves the tables as they were; each failing statement the request reaches (BEGIN and the approval SELECT for any complete request, the user SELECT for an approved address, hashing for a new one, and every step of a sign-up that would succeed) answers 500; but a failure at COMMIT leaves the session naming the rolled-back account |
| AdminSignup.StaleSessionAfterFailedCommit | src/app/api/admin/auth/signup/route.ts:38-44 | a concrete run: the answer is 500 and no account exists, yet the session names it |
| AdminSignup.SignupCommitFirst | src/app/api/admin/auth/signup/route.ts:38-49 | with the session saved after COMMIT, a 500 leaves the session as it was and a changed session names a committed account; a failing BEGIN or approval SELECT for a complete request, and any failing step of a sign-up that would succeed, answers 500 |
| Middleware.MatchedStartsWithAdmin | src/middleware.ts:28-29 | every path the matcher selects starts with `/admin` |
| Middleware.DecideRules | src/middleware.ts:15-25 | a visitor without a session is sent to the login page from any other admin page, a signed-in one is sent from the login page to the dashboard, and everything else passes |
| Middleware.NoRedirectLoop | src/middleware.ts:17-25 | a redirect's target is itself matched, and following it does not redirect again |
| Dashboard.HourName | src/components/admin/dashboard-client.tsx:88 | an hour's name is two digits that read back as the hour |
| Dashboard.HourIndexOfName | src/components/admin/dashboard-client.tsx:88-96 | each hour's name is recognised as that hour |
| Dashboard.HourNamesAscend | src/components/admin/dashboard-client.tsx:105 | the names ascend with the hours, so the final sort keeps hour order |
| Dashboard.LaterItemWins | src/components/admin/dashboard-client.tsx:93-97 | a later item for an hour overrides earlier ones and leaves other hours alone |
| Dashboard.StrayItemIgnored | src/components/admin/dashboard-client.tsx:94-98 | an item whose hour names no bucket, or a null item, changes no bar |
| Dashboard.EmptyBuckets | src/components/admin/dashboard-client.tsx:86-90 | 24 buckets named by the hours, each 0 |
| Dashboard.FillBuckets | src/components/admin/dashboard-client.tsx:92-101 | each bucket holds the last matching item's count, or 0 |
| Dashboard.ProcessHourlyData | src/components/admin/dashboard-client.tsx:85-106 | exactly 24 bars in hour order; all 0 for missing data, else each hour's bucket |
| Dashboard.DetectionWord | src/components/admin/dashboard-client.tsx:18 | the singular word exactly for a count of 1 |
| Dashboard.TooltipWording | src/components/admin/dashboard-client.tsx:15-22 | the active tooltip shows the count followed by the right word |
| AdminRows.Find | src/components/admin/admin-management.tsx:94 | the row found is the first listed row carrying the email; none exactly when no row does |
| AdminRows.RowButtonRules | src/components/admin/admin-management.tsx:93-105 | a row is revocable exactly when it is not the current user, the initial admin or the current user's inviter; the title names the first reason |
| AdminRows.InviterRowDisabled | src/components/admin/admin-management.tsx:94-104 | the current user's inviter's row is always disabled |
| AdminRows.InvitedByText | src/components/admin/admin-management.tsx:107 | the inviter's email, else 'Initial Admin' for the initial admin, else 'Inviter Revoked' |
| AdminRows.AddAdminBody | src/components/admin/admin-management.tsx:37-43 | nothing is posted exactly for an empty field, else the email as typed |
| PlatesTable.FormatPlate | src/components/app/plates-table.tsx:24-36 | 'N/A' exactly for a null or empty plate; a 7-character plate splits 4+3 with nothing lost; others whole |
| PlatesTable.StatusBadgeRules | src/components/app/plates-table.tsx:38-48 | green exactly for 'valid' or 'taxed' in any case, red for an expiry, due or 'not taxed' status, grey otherwise |
| PlatesTable.StatusBadgeIgnoresCase | src/components/app/plates-table.tsx:40 | upper-casing a status does not change its badge |
| PlatesTable.LookupWithout | src/components/app/plates-table.tsx:68 | after `delete` the name reads as absent and every other name as before |
| PlatesTable.LookupSet | src/components/app/plates-table.tsx:67 | after `set` the name reads as the value and every other name as before |
| PlatesTable.WithoutRemovesAll | src/components/app/plates-table.tsx:68 | `delete` removes every pair under the name |
| PlatesTable.SetLeavesOne | src/components/app/plates-table.tsx:67 | `set` leaves exactly one pair under the name |
| PlatesTable.SearchParams.constructor | src/components/app/plates-table.tsx:65 | the copy holds the current parameters |
| PlatesTable.SearchParams.SetParam | src/components/app/plates-table.tsx:67 | the parameters become the `set` of the old ones |
| PlatesTable.SearchParams.DeleteParam | src/components/app/plates-table.tsx:68 | the parameters become the `delete` of the old ones |
| PlatesTable.HandleApplyFilters | src/components/app/plates-table.tsx:64-72 | the loop applies each filter in order and resets the page |
| PlatesTable.ApplyFiltersEffect | src/components/app/plates-table.tsx:64-71 | after applying, each set filter reads as its value, each empty one as absent, page as "1", and every other parameter as before |
| PlatesTable.ApplyFilterLookup | src/components/app/plates-table.tsx:66-69 | one filter step sets or clears its own name only |
| PlatesTable.HandleSelectFilterChange | src/components/app/plates-table.tsx:74-80 | 'all' deletes the select's parameter, any other choice sets it, and the page is reset |
| PlatesTable.SelectFilterEffect | src/components/app/plates-table.tsx:74-79 | after a select change its parameter reads absent for 'all' or the value otherwise, page reads "1", every other parameter as before |
| LegacyFrontend.FormatLicensePlate | html/script.js:104-109 | a plate longer than four characters gains a space after its fourth, nothing else changing; others are unchanged |
| LegacyFrontend.OrNA | html/script.js:90 | a present non-empty value is shown as is and nothing is shown empty |
| LegacyFrontend.StatusSpanFor | html/script.js:89-95 | green exactly for the good word, red otherwise, the text being the status or 'N/A' |
| LegacyFrontend.StatusColours | html/script.js:89-95 | tax is green exactly for 'Taxed' and MOT exactly for 'Valid', case-sensitively; a red span shows the status or 'N/A' |
| LegacyFrontend.NoFilterShowsAll | html/script.js:193-203 | with every filter on "any" each row is shown |
| LegacyFrontend.RowWithoutDetailsHidden | html/script.js:188-203 | a row without a details cell, such as the header, is shown exactly when no filter is set |
| LegacyFrontend.MakeFilterMatchesPrefix | html/script.js:193 | a filter value that begins a row's make keeps that row (substring match) |
| LegacyFrontend.OwnValuesMatch | html/script.js:193-198 | choosing a row's own displayed values keeps it visible |
| LegacyFrontend.ApplyFilters | html/script.js:177-205 | every row, the header included, is shown exactly when it matches all filters |
| LegacyFrontend.HeaderRowHiddenByFilter | html/script.js:188-203 | a concrete run: choosing a make hides the header row while keeping the matching data row |
| LegacyFrontend.ApplyFiltersSkippingHeader | html/script.js:129-143 | starting at row 1 keeps the header's display and filters every data row alike |
| LegacyFrontend.PollRefetchesOnChange | html/script.js:30-33 | a refetch happens exactly for a non-empty update time differing from the last seen, which is then remembered, so the same answer again refetches nothing |
| LegacyFrontend.Poller.constructor | html/script.js:23 | polling starts with no update time seen |
| LegacyFrontend.Poller.OnPollResponse | html/script.js:29-33 | the poller refetches exactly on a changed time and then remembers it |

## Left out

- Network, processes and clocks. The model does not include the HTTP servers, the ffmpeg child processes, `setInterval`/`setTimeout` timers, the 7000 ms wait before capture, or real file-system calls.
  - Each outcome that the code branches on becomes a parameter. These are exit codes, `failAt`, an unlink failure, the listing, and `now`.
  - The worker's endless recording loop becomes a finite sequence of rounds (`RecorderPauses`).
- Vehicle lookups are inputs, not calls. This covers the DVLA lookup, the placeholder international lookup, the legacy `fetch_image` and the legacy processor's polling of the Home Assistant API.
- `path.join` normalisation is written as directory + "/" + name.
- Floating point is not modelled.
  - Times are integer milliseconds.
  - Seek and duration seconds are kept in milliseconds, not fractional seconds.
  - Python `strptime`/`datetime` comparisons are integer comparisons.
- PlatesApi.CoerceNumber: does not model `Number()`'s other accepted forms ("1.0", "1e1", "0x10", "Infinity"), because only decimal integers reach the paging code in practice.
- LegacyBackend.ViewDataErrors: Python `int()` is modelled by the same whole-string decimal reading as JavaScript, which trims JavaScript's `\s` set. It does not model `int()` accepting underscores between digits or non-ASCII decimal digits, and it trims by JavaScript's whitespace set: Python's `str.isspace` also covers U+001C-U+001F and U+0085 but not U+FEFF.
- Common.SortNames: orders by code point, while JavaScript `sort` orders by UTF-16 unit. These agree on the ASCII names involved. `localeCompare` on the dashboard's two-digit names is modelled by the same order.
- Common.NormalizePlateIgnoresCase: case mapping is ASCII-only. Unicode case mapping by `toUpperCase` is not modelled; the whitespace set of `\s` is modelled in full.
- Password hashing (bcrypt) is an input digest.
- LegacyBackend.ViewData: the raw table behind `COUNT(*)` is not modelled. The count is an input beside the grouped listing, and the model does not derive either from the other.
- SQL beyond row selection is outside the model.
  - ORDER BY gives an order supplied by the database.
  - The plates API's filter option lists (route.ts lines 60-79) use GROUP BY, DISTINCT and aggregates and are not modelled.
- `failAt` also stands for failures the database raises because of the data, which the model does not derive from the values.
  - Example: the worker's INSERT passes `details?.motExpiryDate` unchanged into a `DATE` column (`worker/src/index.ts:113-114`, `scripts/init-db.ts:31`). An empty string there makes PostgreSQL reject the INSERT and the transaction roll back.
  - `DetectionWorker.NewRow` stores `Some("")` for that date when `failAt` is `None`, so the model shows that case as committed only when the caller passes no failure. The UPDATE path maps an empty date to null and does not have this problem.
- DetectionWorker.PlateStore.HandleWebhook: the trigger value is modelled as an optional string. A truthy value that is not a string throws at `.toUpperCase()` (`worker/src/index.ts:138`), so no response is sent; that outcome is not modelled.
- Early `return`s inside an open transaction are modelled as leaving the tables unchanged. The code returns without ROLLBACK and then releases the client.
- AdminSignup.Signup: the request body is assumed to hold strings. A non-string JSON email is not modelled.
- Client code outside the logic is left out:
  - React rendering, toasts, SWR caching and URL encoding in `toString`/`router.push`;
  - `handleClearFilters` (plates-table.tsx lines 82-84), which only navigates to the bare path;
  - HTML escaping and `innerText` whitespace.
- The legacy page's fuel-type select has no change listener, so it filters only when another control fires. Listener wiring is not modelled.
- Concurrency is not modelled. Two webhooks racing on the same new plate can insert two rows, so uniqueness is proved for sequential processing only.
- Timestamps are whole milliseconds: `CaptureVideo` models event times, not `Date` objects with NaN.

## Findings

| source | as written | input that shows it | evidently intended | confidence | as-written member | corrected member |
|---|---|---|---|---|---|---|
| src/app/api/admin/auth/signup/route.ts:38-44 | the session is saved before COMMIT, and the catch rolls back and answers 500 | an approved new address whose COMMIT fails after the INSERT: the account is rolled back, yet the session cookie names its id and email | save the session only after COMMIT succeeds | medium, not executed | AdminSignup.StaleSessionAfterFailedCommit | AdminSignup.SignupCommitFirst |
| html/script.js:188 | the effective `applyFilters` loops from row 0, so the header row (no `td` cells) fails every set filter | choosing any make: the header row is hidden | start at row 1, as the replaced declaration at line 129 does | medium, not executed | LegacyFrontend.HeaderRowHiddenByFilter | LegacyFrontend.ApplyFiltersSkippingHeader |

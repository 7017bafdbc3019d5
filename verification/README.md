# HR Manager: verified models of the backend cores

This Dafny project models the stateful cores of the HR Manager backend and proves what they promise.
Each module follows one part of `backend/app`:

- `BackupFormat`, `BackupState`, `BackupArchive`: the encrypted backup file, the state file, and the
  archive that runs of backups and retention leave behind.
- `QuietHours`: the minute-by-minute scans for quiet hours and workdays.
- `RateLimiting`: the sliding-window limiter.
- `QueueDashboard`, `AnalyticsCsv`: bucket axes and series, and the CSV export.
- `SemVer`, `License`: version precedence and the signed licence text.
- `DocumentTemplates`, `DocumentGeneration`: template versions, and documents generated under
  idempotency keys by interleaved calls.
- `CandidateDocuments`, `DocumentMessages`: a candidate's document lists and the messages sent from them.
- `RuleScanning`, `RuleJobs`: discovery and execution of personal rules.
- `CandidateConsent`: channel consent, double opt-in, and the messages planned under them.
- `EventReminders`: reminders linked to calendar events.
- `Outbox`: the deduplicated transactional outbox.
- `Decimals`, `Wrappers`: decimal text, and the Option and Result types.

Code that changes rows, buffers or counters in place is a class or a method with loops, proved against
a specification function; the properties of whole runs are lemmas about those functions. A transaction
is one atomic step, and a raised error is a step that changes nothing, because the session closes
without commit (`backend/app/db.py:61-67`). Unique indexes and checks are taken from
`backend/app/models.py`. Cryptography, hashing, base64, JSON, the calendar and time zones enter as
functions with the laws stated where they are declared.

`dafny verify dfyconfig.toml` checks the whole project.

Where the code and its documentation or intent differ, the model follows the code, and a lemma says
exactly when the intent holds:

- `zip(..., strict=True)` raises before the unequal-length result below it is reached
  (`SemVer.CompareIsPrecedence`, `SemVer.RcAgainstRc1`).
- The writer of backups does not check the reader's 16 KiB header limit (`BackupFormat.RoundTrip`,
  `BackupFormat.LongKeyIdIsUnreadable`).
- On a 25-hour day two hourly buckets share a key (`QueueDashboard.TodayKeysDistinctIff`,
  `QueueDashboard.CreatedSeriesExactly`, `QueueDashboard.RepeatedHourIsDrawnTwice`).
- The period numerator of the conversion skips the test that the interview is not before the creation
  (`QueueDashboard.ConversionAgreesIff`, `QueueDashboard.EarlyInterviewIsInNoBucket`).
- Reactivating a completed linked reminder leaves its completion time set and is refused by the check
  (`EventReminders.SyncAcceptedIff`, `EventReminders.CompletedReminderBlocksSync`); lookups do not see
  unflushed rows (`EventReminders.TwiceUnflushedIsRefused`).
- `backup-prune` knows nothing of the state file and can delete the recorded backup after a run that
  published without recording (`BackupArchive.PruneSparesLast`, `BackupArchive.LastBackupExists`,
  `BackupArchive.PruneCanDropLast`).
- A state without a last backup but with recent ones is not read back as it was saved
  (`BackupState.RoundTripIff`); runs of backups never save one (`BackupState.RunsSurviveTheFile`).
- A row that a worker claimed before a refusal of consent and puts back after it is queued without
  consent; only the check at send time stops it (`CandidateConsent.QueuedIsCovered`,
  `CandidateConsent.RequeueOutlivesRefusal`, `CandidateConsent.RefusalHolds`).
- The provider may have a message whose row is put back by a crash or a temporary error, so a row can
  leave more than once (`CandidateDocuments.CrashResendsIff`, `CandidateDocuments.LeavesBoundedly`).
- The durable key of a document message does not depend on the status of the row it finds, so a new
  request after a cancellation answers with the cancelled row (`DocumentMessages.FoundAgain`,
  `DocumentMessages.CancelledRowIsAnswered`).
- A duplicate key among the caller's own pending rows is answered like a duplicate notification,
  although the transaction is lost (`Outbox.NoneMeansKnownKey`).

## Model

| member | source | states |
|---|---|---|
| BackupFormat.EncryptStream | backend/app/backup.py:150-209 | on success the destination holds exactly the published file of the payload and the returned size is its length; otherwise it fails, with a struct error exactly when the header outgrows the length field and a format error exactly when the patched header would change length |
| BackupFormat.SealPayload | backend/app/backup.py:189-197 | the payload pass reads everything left and appends one sealed record a chunk, counting bytes and records |
| BackupFormat.PatchKeepsLength | backend/app/backup.py:199-206 | the in-place patch keeps the header length if and only if the payload is shorter than 10^20 bytes |
| BackupFormat.PatchInPlace | backend/app/backup.py:207-208 | overwriting the header by one of the same length changes no record byte |
| BackupFormat.RecordsSize | backend/app/backup.py:193-209 | the records take the payload plus one tag per chunk |
| BackupFormat.FileSize | backend/app/backup.py:209 | the sum the writer returns is the real length of the file |
| BackupFormat.DecryptToStream | backend/app/backup.py:212-281 | returns the payload size and has appended exactly the payload when the file is accepted, and the specified error otherwise |
| BackupFormat.ReadHeader | backend/app/backup.py:225-235 | reads magic, length and header and leaves exactly the records unread, or fails as the header specification says |
| BackupFormat.OpenPayload | backend/app/backup.py:260-272 | authenticates and appends record after record; any record that fails authentication fails the whole |
| BackupFormat.OpenOfRecords | backend/app/backup.py:262-272 | reading in steps of chunk size plus tag finds the record boundaries of every payload: empty, exact multiple or ragged |
| BackupFormat.ZeroingRebuildsAad | backend/app/backup.py:254-259 | zeroing the two patched fields of any patched header gives back the authenticated placeholder header |
| BackupFormat.AcceptsOwnHeader | backend/app/backup.py:236-251 | the reader accepts the writer's header and finds its key, nonce and chunk size, or reports the missing key |
| BackupFormat.VerifiesOwnHeader | backend/app/backup.py:274-281 | digest and size checks of the reader pass on what the writer recorded |
| BackupFormat.RestoredMeans | backend/app/backup.py:212-281 | whenever decryption succeeds the header parses, every record authenticates under the header key and nonce, the result is those records joined, its SHA-256 is the caller's digest or else the header's, and the header's size, if any, is its length |
| BackupFormat.RestoredWhen | backend/app/backup.py:212-281 | the exact converse: a file of authenticated records whose digest and size agree is restored, and one whose digest or size disagrees is refused as damaged |
| BackupFormat.SaysIff | backend/app/backup.py:274-281 | which contents a header and an expected digest speak for |
| BackupFormat.OtherRecordsAreRefused | backend/app/backup.py:262-281 | other authenticated records behind a published header are accepted if and only if digest and size both agree with the original payload |
| BackupFormat.LostRecordsAreRefused | backend/app/backup.py:262-281 | a published file that has lost whole records, at the end or in the middle, is always refused: its size no longer agrees |
| BackupFormat.RefusedAs | backend/app/backup.py:225-272 | how a file is refused before its contents are compared: cut short, of another format, without its key, or forged |
| BackupFormat.ReadsOwnHeader | backend/app/backup.py:225-235 | the header of a published file is read back patched, unless it exceeds the reader's limit |
| BackupFormat.RoundTrip | backend/app/backup.py:150-281 | for every payload below 10^20 bytes decrypting the written file gives the payload if and only if the header is within 16 KiB, a limit only the reader checks; otherwise it is refused as malformed |
| BackupFormat.LongKeyIdIsUnreadable | backend/app/backup.py:108-127 | with a key id of more than 16 KiB of hexadecimal digits, which nothing forbids, every backup is written and none can be read back |
| BackupFormat.TagsBindHeader | backend/app/backup.py:160-170 | the record tags bind key id, nonce and metadata: two headers authenticate the same records if and only if they agree on every field but the two patched ones |
| BackupFormat.MissingKeyIsExplicit | backend/app/backup.py:239-244 | a file whose key is not in the key ring is refused by a key error |
| BackupFormat.EncryptThenDecrypt | backend/app/backup.py:150-281 | both methods run one after the other on streams restore the payload and its size |
| BackupFormat.UnpackOfPack | backend/app/backup.py:228 | the eight-byte little-endian length field round-trips for every length it can hold |
| BackupFormat.LowByteFirst | backend/app/backup.py:54 | the length field of every header the reader accepts: low byte first, two bytes and six zeros |
| Decimals.ValueOfPad | backend/app/backup.py:201 | zero padding to twenty digits is transparent to the reader's integer conversion |
| Decimals.PadWidth | backend/app/backup.py:199-206 | the padded size field keeps its width exactly for the sizes that fit |
| BackupArchive.RetentionPlan | backend/app/backup.py:349-378 | computes the specified split of the recognised files into those to delete and those to keep, both in age order |
| BackupArchive.DeletesPrefix | backend/app/backup.py:364-378 | what is deleted is a prefix of the recognised files in age order and what is kept is the rest |
| BackupArchive.CutIff | backend/app/backup.py:368-377 | a file lies before the cut if and only if it is older than the cutoff and outside the newest min_copies |
| BackupArchive.KeepsMinimum | backend/app/backup.py:358-361 | at least min(min_copies, count) recognised files are kept, and none is lost between the two lists |
| BackupArchive.RerunDeletesNothing | backend/app/backup.py:349-378 | planning again at the same time over what is left, listed in any order, deletes nothing |
| BackupArchive.DeletedIff | backend/app/backup.py:368-377 | with distinct times, a file is deleted if and only if it is older than that many days of 24 hours, or than now for a negative number, and at least min_copies recognised files are newer |
| BackupArchive.OwnNamesAreRecognized | backend/app/backup.py:332-335 | every canonical file name is one that listing and retention recognise |
| BackupArchive.RecognizedIsOwnName | backend/app/backup.py:63-65 | every recognised name is spelled as a run spells its own |
| BackupArchive.Archive.RunBackup | backend/app/backup_runner.py:318-347 | one run, stopped at any of its stages or after any number of deletions, leaves directory, last backup and recent list exactly as published, recorded and pruned so far |
| BackupArchive.RunBackupIsRun | backend/app/backup_runner.py:318-347 | what the method leaves, stopped anywhere, is what an enabled sequence of the archive steps leaves, so the results over runs hold of it |
| BackupArchive.Archive.UpdateState | backend/app/backup.py:472-479 | the new record becomes the last backup and heads at most twenty recent ones |
| BackupArchive.Archive.ListBackupFiles | backend/app/backup.py:511-523 | lists every recognised file of the directory once, with its time, and nothing else |
| BackupArchive.NewestIsKept | backend/app/backup_runner.py:338-343 | with min_copies at least one the newest file is never planned for deletion |
| BackupArchive.StepKeeps | backend/app/backup_runner.py:318-347 | every step keeps the archive invariant, a prune if and only if it meets the condition that spares the recorded backup |
| BackupArchive.OnlyDeletionsRemove | backend/app/backup_runner.py:338-347 | a file disappears only when a plan deletes it, never the recorded one, and retention deletes only while the newest published file is the recorded one |
| BackupArchive.LastBackupExists | backend/app/backup_runner.py:318-347 | over all runs of backups and prunes on a strictly increasing clock, crashed anywhere, the last backup exists at every moment and heads the recent list if and only if every prune met the sparing condition |
| BackupArchive.PruneSparesLast | backend/app/cli.py:243-252 | a prune between runs spares the recorded backup if and only if it is within the retention period or fewer than min_copies recognised files are newer |
| BackupArchive.PruneCanDropLast | backend/app/cli.py:243-252 | a concrete run in which a backup is published but never recorded and the prune then deletes the recorded one |
| BackupState.RoundTripIff | backend/app/backup.py:406-440 | reading back a saved state gives that state if and only if it names a last backup or lists no recent one; reading twice changes nothing more |
| BackupState.StateRead | backend/app/backup.py:433-440 | the exact state that is read back: a missing last backup is filled in from the list |
| BackupState.RecentAreNewest | backend/app/backup.py:472-479 | after any sequence of backups the list holds the newest twenty, newest first |
| BackupState.RunsSurviveTheFile | backend/app/backup.py:406-479 | every state that backups produce survives the file unchanged |
| BackupState.FileReads | backend/app/backup.py:415-440 | a state file is read if and only if it is an object with schema 1; what each part becomes when it is missing |
| BackupState.FileKeeps | backend/app/backup.py:406-414 | the keys under which a state is saved |
| BackupState.RecordReads | backend/app/backup.py:420-431 | any object is a record, each field under its own key, a missing one empty |
| BackupState.StrangersAreSkipped | backend/app/backup.py:433 | whatever else stands in the recent list is skipped, wherever it stands |
| QuietHours.ApplyWorkdays | backend/app/quiet_hours.py:89-100 | returns the first workday minute from its start, and raises exactly when the next 7*24*60 minutes hold none |
| QuietHours.QuietIsClockwise | backend/app/quiet_hours.py:47-73 | quiet hours are the minutes from start clockwise to end, over midnight if need be, and none when both are equal |
| QuietHours.NextAllowedTime | backend/app/quiet_hours.py:103-137 | a returned time is the least allowed whole minute at or after now, for every zone; while the zone makes at most one jump of at most two hours a guard fires if and only if the list names no weekday |
| QuietHours.EffectiveSendTime | backend/app/quiet_hours.py:173-207 | for whole-minute zones the least instant at or after max(now, scheduled) outside quiet hours |
| QuietHours.DocumentSendTime | backend/app/documents.py:282-313 | for whole-minute zones the least instant at or after max(now, scheduled) that is outside quiet hours and on a workday; while the zone is tame it fails if and only if the workday list is empty or names no weekday, and which error it is |
| QuietHours.EffectiveTimeIsFixed | backend/app/quiet_hours.py:173-207 | scheduling again at the computed time gives the same time, now or at any moment up to it |
| QuietHours.DocumentTimeIsFixed | backend/app/documents.py:282-313 | the same for document messages |
| QuietHours.NextOccurrence | backend/app/quiet_hours.py:140-170 | whole local days are added; the workday scan finds the first allowed weekday ahead, and its guard fires exactly when the list names no weekday |
| QuietHours.WeekdaysFollow | backend/app/quiet_hours.py:76-86 | 1970-01-01 is a Thursday, each day is followed by the next weekday and Sunday by Monday, so which days are workdays |
| QuietHours.AllowedOnTheClock | backend/app/quiet_hours.py:47-86 | with a Monday-to-Friday list an allowed instant lies on no Saturday and no Sunday of its zone, and outside the quiet hours read clockwise |
| QuietHours.WeekendsAreFree | backend/app/documents.py:282-313 | a send time under a Monday-to-Friday list is never on a local Saturday or Sunday |
| QuietHours.SaturdayWaitsForMonday | backend/app/documents.py:282-313 | concretely: a message due on a Saturday morning three hours ahead of UTC goes out on Monday at eight, when quiet hours end there |
| QuietHours.FixedFindsWithinAWeek | backend/app/quiet_hours.py:103-137 | with a fixed offset no seven days pass without an allowed minute |
| QuietHours.JumpFindsWorkday | backend/app/quiet_hours.py:89-100 | with one offset jump of at most two hours there is a workday among the next 7*24*60 minutes |
| QuietHours.BarredWorkMinutes | backend/app/quiet_hours.py:124-136 | a fixed-offset stretch without an allowed minute holds at most two days of workday minutes, the quantity the outer guard counts |
| QuietHours.TameScanIsShort | backend/app/quiet_hours.py:124-136 | a scan in a tame zone that has found nothing is shorter than every guard |
| QuietHours.SameMinuteSameVerdict | backend/app/quiet_hours.py:47-86 | in whole-minute zones all instants of a minute are judged alike |
| QuietHours.FreeMinuteIsFirstInstant | backend/app/quiet_hours.py:173-207 | from a barred instant the first allowed minute is the first allowed instant |
| RateLimiting.SlidingWindowRateLimiter.Check | backend/app/rate_limiting.py:36-53 | the answer and the whole new state, key by key, as the decision specifies |
| RateLimiting.SlidingWindowRateLimiter.Reset | backend/app/rate_limiting.py:55-58 | forgets every attempt |
| RateLimiting.WindowBound | backend/app/rate_limiting.py:36-53 | over every run on a non-decreasing clock, every window of the configured length holds at most limit allowed attempts of a key |
| RateLimiting.AllowedIffFewerThanLimit | backend/app/rate_limiting.py:36-53 | after any run a check is allowed if and only if fewer than limit attempts of its key were allowed within the last window |
| RateLimiting.RefusalLastsUntilExpiry | backend/app/rate_limiting.py:45-50 | after a refusal, without other attempts, a later check is allowed if and only if the oldest attempt has left the window, and waiting the advised seconds is always enough and at most one second too long |
| RateLimiting.OtherKeysUnaffected | backend/app/rate_limiting.py:39-42 | a check leaves every other key's attempts as they are |
| RateLimiting.RunRemembers | backend/app/rate_limiting.py:36-53 | after any run a bucket is the suffix of the allowed attempts, and every forgotten one is at least a window old |
| AnalyticsCsv.BuildCsv | backend/app/analytics.py:427-525 | the text is the fixed layout of the report, and an RFC 4180 reader recovers from it every row and cell in layout order |
| AnalyticsCsv.ExportReads | backend/app/analytics.py:427-525 | what an RFC 4180 reader finds in the export, row by row: each section under its name and columns, every number beside its own label or under its own column |
| AnalyticsCsv.QuotedIff | backend/app/analytics.py:416-417 | a field is quoted if and only if its text holds a comma, a semicolon, a quote or a line break |
| AnalyticsCsv.ExportDeterminesReport | backend/app/analytics.py:427-525 | two reports with the same export have the same KPIs, and tables of the same length with the same numbers and with names that are shown alike |
| AnalyticsCsv.SectionsAreShown | backend/app/analytics.py:431-438 | equal exports have equal sections, cell by cell: the empty lines mark where each begins, whatever the cells contain |
| AnalyticsCsv.ParseOfRender | backend/app/analytics.py:407-424 | for all contents an RFC 4180 reader recovers every row and cell, up to the apostrophe before a formula |
| AnalyticsCsv.RunField | backend/app/analytics.py:407-418 | one written field, quoted or not, is read back as the text it stands for |
| AnalyticsCsv.RunRow | backend/app/analytics.py:421-424 | one written row is read back as its cells |
| AnalyticsCsv.RenderIsInjective | backend/app/analytics.py:421-424 | exports with the same text have the same shape and disarmed cells |
| AnalyticsCsv.NoFormulaSurvives | backend/app/analytics.py:410-415 | no cell read back from an export starts with =, +, - or @ |
| AnalyticsCsv.NeutralizedCollisions | backend/app/analytics.py:407-415 | exactly which cells the disarming makes equal |
| SemVer.CompareIsPrecedence | backend/app/channel.py:74-95 | for all texts: rejects what the pattern rejects, raises exactly when equal cores carry prerelease lists of which one continues the other, and otherwise returns the precedence of section 11 of Semantic Versioning 2.0.0 |
| SemVer.CompareIsTotalPreorder | backend/app/channel.py:74-95 | wherever it returns: sign-antisymmetric, transitive, and zero exactly when core and prerelease identifiers agree |
| SemVer.PrecedenceIsTotalOrder | backend/app/channel.py:50-95 | the reference precedence is a total order |
| SemVer.PrecedenceMeans | backend/app/channel.py:50-95 | which version comes first: the lower core, then a prerelease before its release, then the first identifier that differs, numbers by value and below all others, and a shorter list before its continuation |
| SemVer.SemverIsSpelled | backend/app/channel.py:78-84 | every accepted text is three numerals with dots, an optional dotted prerelease and optional dotted build metadata, but for one final line break |
| SemVer.SpelledIsSemver | backend/app/channel.py:78-84 | every text of that form is accepted, with or without the line break, and denotes what it spells |
| SemVer.ZippedIsLex | backend/app/channel.py:56-71 | the strict zip loop is the lexicographic order of identifiers, and raises exactly on proper prefixes |
| SemVer.SemverHasIdentifiers | backend/app/channel.py:38-47 | a text that matches the pattern always has well-formed prerelease identifiers |
| SemVer.BuildIsIgnored | backend/app/channel.py:83-84 | build metadata does not change the version a text denotes |
| SemVer.ContinuedPrereleaseRaises | backend/app/channel.py:56-71 | for every core and every prerelease continued by any further fields the comparison raises although section 11.4.4 orders the two |
| SemVer.RcAgainstRc1 | backend/app/channel.py:56-71 | the concrete pair 1.0.0-rc and 1.0.0-rc.1 on which it raises |
| License.CanonicalTextIsInjective | backend/app/license.py:164-228 | payloads that pass validation and have equal signed text agree in all five fields |
| License.SignedIff | backend/app/license.py:164-212 | exactly which payloads are signed: control characters, user count, UUID, length of the stripped client name, dates and their order |
| License.SignedLines | backend/app/license.py:225-228 | the five signed lines, their names and their order |
| License.RefusedWith | backend/app/license.py:164-212 | which error an unsigned payload gets, the first that applies |
| License.StripTrims | backend/app/license.py:199 | stripping takes off the blanks at both ends and all of them |
| License.LineIsUnique | backend/app/license.py:225-228 | a line of the canonical text determines its value and what follows |
| License.ExpiryAgreesWithDaysLeft | backend/app/license.py:284-296 | a licence is expired exactly when its day counter is -1, that is, once its expiry day is over |
| Decimals.ValueOfPrint | backend/app/license.py:225-228 | the printed user count determines the count |
| QueueDashboard.ResolveWindow | backend/app/queue_dashboard.py:213-298 | every returned window is an axis of contiguous buckets from its start over its end; which windows are returned, and the exact failures |
| QueueDashboard.HourAxis | backend/app/queue_dashboard.py:238-253 | hours meet end to end from midnight, are labelled by their beginning, and cover the day |
| QueueDashboard.DayAxis | backend/app/queue_dashboard.py:255-272 | seven local days from midnight to midnight |
| QueueDashboard.MonthAxis | backend/app/queue_dashboard.py:274-298 | consecutive months from the anchor's, until one reaches the end of today |
| QueueDashboard.ResolveAll | backend/app/queue_dashboard.py:274-298 | the last 24 of the months from the anchor that just reach the end of today; fails exactly when the first data month begins later |
| QueueDashboard.AllAxisBegins | backend/app/queue_dashboard.py:274-298 | the whole-time axis begins with the month of the first creation, or of the instant 365 days ago if there is none; only a longer history than 24 months leaves it out |
| QueueDashboard.AnchorBeforeEnd | backend/app/queue_dashboard.py:275-279 | data created up to now always has an axis |
| QueueDashboard.BucketsTile | backend/app/queue_dashboard.py:301-306 | an instant is found exactly when it lies on the axis, and the bucket found is the only one that holds it |
| QueueDashboard.AxisSumIsCount | backend/app/queue_dashboard.py:636-644 | a series sums to the number of items counted plus what doubled keys add, which is nothing if and only if no counted key labels two buckets |
| QueueDashboard.AllKeysAreDistinct | backend/app/queue_dashboard.py:274-298 | the labels of the all-time axis are different, whatever the zone does |
| QueueDashboard.TodayKeysDistinctIff | backend/app/queue_dashboard.py:238-253 | the labels of a day are different if and only if no local hour begins twice |
| QueueDashboard.CreatedSeries | backend/app/queue_dashboard.py:636-644 | one value a bucket: how many instants were counted under its key |
| QueueDashboard.CreatedSeriesMeans | backend/app/queue_dashboard.py:636-644 | each value is the number of creations in the buckets of that label |
| QueueDashboard.CreatedSeriesExactly | backend/app/queue_dashboard.py:613-644 | for every axis the series sums to the created count, plus what lies between window end and axis end, plus what doubled keys add |
| QueueDashboard.CreatedSeriesSumsToCount | backend/app/queue_dashboard.py:613-644 | for the week and the whole time doubled keys add nothing, and for the week nothing lies beyond the window: the series sums to the count |
| QueueDashboard.RepeatedHourIsDrawnTwice | backend/app/queue_dashboard.py:238-253 | with two hours of one label, as on a 25-hour day, one candidate is counted once and drawn twice |
| QueueDashboard.ConversionSeries | backend/app/queue_dashboard.py:503-558 | per-bucket numerators and denominators and both period totals as specified |
| QueueDashboard.TotalsMean | backend/app/queue_dashboard.py:503-558 | the period totals: how many candidates asked for were created on the axis, and how many of those reached an interview at any time |
| QueueDashboard.BucketValuesMean | backend/app/queue_dashboard.py:503-558 | the values of a bucket: how many candidates asked for were created in a bucket of its label, and how many of those had their first interview then or later |
| QueueDashboard.ConversionAgainstTotals | backend/app/queue_dashboard.py:523-558 | for every axis: denominators exceed the period denominator by what doubled keys add, numerators differ from the period numerator by that and by the members interviewed before their creation, and the numerator is at most the denominator |
| QueueDashboard.ConversionAgreesIff | backend/app/queue_dashboard.py:523-558 | with distinct keys denominators agree, and numerators agree if and only if no member was interviewed before its creation |
| QueueDashboard.EarlyInterviewIsInNoBucket | backend/app/queue_dashboard.py:540-556 | a candidate interviewed before its creation counts in the period numerator and in no bucket |
| DocumentTemplates.TemplateRow.constructor | backend/app/document_templates.py:301-342 | a new template has revision 1 and one draft version numbered 1 |
| DocumentTemplates.TemplateRow.RenameTo | backend/app/document_templates.py:345-359 | the row changes as the specified rename, or not at all |
| DocumentTemplates.TemplateRow.Append | backend/app/document_templates.py:362-407 | appends a draft with the next number within the cap, or changes nothing |
| DocumentTemplates.TemplateRow.Publish | backend/app/document_templates.py:410-445 | publishes a draft after archiving the active version, or changes nothing |
| DocumentTemplates.TemplateRow.Retire | backend/app/document_templates.py:448-468 | archives a version, or changes nothing |
| DocumentTemplates.RunsAreSafe | backend/app/document_templates.py:293-468 | over all runs: numbers are exactly 1..n within the cap, at most one version is active, archived is absorbing, title and body are frozen, revision is one plus the successes |
| DocumentTemplates.AtMostOneWinner | backend/app/document_templates.py:293-298 | of two requests with the same expected revision at most one succeeds |
| DocumentTemplates.PublishedIsTheActiveOne | backend/app/document_templates.py:410-445 | publishing succeeds exactly for a draft at the expected revision, and then that version is the only active one |
| DocumentTemplates.SucceedsIff | backend/app/document_templates.py:293-468 | exactly when each operation succeeds, and what it changes besides the revision |
| DocumentTemplates.RefusedWith | backend/app/document_templates.py:293-468 | which error a refused operation gets, a stale revision before anything else |
| DocumentTemplates.FirstVersionCanBePublished | backend/app/document_templates.py:301-445 | a new template has its name, title and body, and its version can be published at revision 1 and no other |
| DocumentTemplates.StepPreserves | backend/app/document_templates.py:293-468 | each successful operation keeps the invariant and adds one to the revision |
| DocumentGeneration.GenerationTable.Generate | backend/app/document_templates.py:650-718 | without interference: a known key gives back its row, a new one adds exactly one row with the next revision, a failure changes nothing |
| DocumentGeneration.GenerationTable.Flush | backend/app/document_templates.py:696-701 | inserts a row unless a unique index refuses it |
| DocumentGeneration.TableIsSafe | backend/app/document_templates.py:650-739 | in every interleaving: one row per user and key, revisions of a candidate exactly 1..n, no stored snapshot changes |
| DocumentGeneration.CallersAgree | backend/app/document_templates.py:650-739 | all calls that return for one user and key return the same document, and at most one created it |
| DocumentGeneration.CallBegins | backend/app/document_templates.py:650-690 | a used key is answered or refused at once; a new one is rendered and gets the number after the candidate's last |
| DocumentGeneration.CallEnds | backend/app/document_templates.py:690-739 | who comes second with a key gets the first one's document or is told the key is taken, who loses only the number is told to try again, and everyone else's document is stored with its own text |
| DocumentGeneration.ReplayIff | backend/app/document_templates.py:626-647 | which answer a key gets from the table |
| DocumentGeneration.InsertKeeps | backend/app/models.py:2483-2494 | an insert that the unique indexes let through keeps keys unique and numbering gapless |
| DocumentGeneration.StepKeeps | backend/app/document_templates.py:650-739 | every step of any call keeps the invariant and only appends |
| CandidateDocuments.Current | backend/app/documents.py:112-118 | the set with the highest revision, if there is any |
| CandidateDocuments.DocumentRows.ApplyVersion | backend/app/documents.py:165-196 | adds the next revision with a missing row per item, or changes nothing |
| CandidateDocuments.DocumentRows.ItemState | backend/app/routers/documents.py:211-236 | changes one item of the current set under its version, or changes nothing |
| CandidateDocuments.CurrentIsLast | backend/app/documents.py:112-118 | with growing revisions the current set is the newest |
| CandidateDocuments.AppliesIff | backend/app/documents.py:165-196 | a list is applied if and only if the revision is the expected one and the version is published for the stage; then it is current and exactly its required items are missing |
| CandidateDocuments.ReceiptChangesOneKey | backend/app/routers/documents.py:211-236 | a receipt changes what is missing under its own key only, in the current set only, and moves the version on |
| CandidateDocuments.RevalidateIsExact | backend/app/documents.py:247-273 | a message passes if and only if access and rule still stand, its set is current, and every item it names is still missing |
| CandidateDocuments.StepInv | backend/app/documents.py:165-273 | every step keeps the sets numbered, every call right, and every row paid for by attempts |
| CandidateDocuments.EverySendIsRight | backend/app/documents.py:247-273 | in every run, whatever workers postpone, retry, lose or recover, each message handed to the provider named only required, still missing items of the then current set, under a rule that still stood |
| CandidateDocuments.QueuesWhatIsMissing | backend/app/documents.py:199-244 | a call that may send adds exactly one row naming all required and missing items in list order, with the caller, the rule version and no attempts; every other call adds nothing |
| CandidateDocuments.AppliedListIsSent | backend/app/documents.py:165-273 | after any run, once a published list is applied for a candidate somebody may write to, the message that asks for all it requires goes to the provider |
| CandidateDocuments.ReceiptSilences | backend/app/documents.py:247-273 | after any run, a document received after it was asked for takes back the whole message that asked |
| CandidateDocuments.SkippedBecause | backend/app/documents.py:247-273 | why a message is skipped: access, then the rule, then its stage, then its items |
| CandidateDocuments.RefusedWith | backend/app/routers/documents.py:211-236 | which error a list or a receipt is refused with, a stale view before anything else |
| CandidateDocuments.LateAnswerIsIgnored | backend/app/worker.py:1003-1070 | an answer counts only for the call under way and while the row reads as being sent |
| CandidateDocuments.ReceiptSucceedsIff | backend/app/routers/documents.py:211-236 | a receipt is recorded if and only if it is for an item of the current list, under its present version |
| CandidateDocuments.TurnEnds | backend/app/worker.py:905-1090 | what a worker's turn with a row leaves, by the provider's answer and the attempts used |
| CandidateDocuments.PostponeUndoesClaim | backend/app/worker.py:318-332 | postponing a claimed row gives back the state before the claim |
| CandidateDocuments.CancelsIff | backend/app/routers/candidate_messages.py:1441-1448 | a row is cancelled if and only if it is queued, or claimed with no call under way when its rule is edited |
| CandidateDocuments.LeavesBoundedly | backend/app/worker.py:181-216 | over every run a row is handed to the provider at most once for each attempt it used and the one it is using, never more often than attempts are allowed |
| CandidateDocuments.FinalNeverLeaves | backend/app/worker.py:1003-1070 | a row with a final status keeps it and is never handed over again, in any run |
| CandidateDocuments.CrashResendsIff | backend/app/worker.py:181-216 | after a crash between the provider call and its record the row is handed over again if and only if an attempt is left and it is still right |
| CandidateDocuments.ReplacedIsNeverSent | backend/app/documents.py:268-270 | a message whose set was replaced fails revalidation in every later state and is never sent |
| DocumentMessages.Rows.DocumentMessage | backend/app/document_messages.py:28-155 | answers, refuses and writes as the specified send |
| DocumentMessages.PlaceMeans | backend/app/document_messages.py:86-125 | one row per channel, queued only where no row had the durable key |
| DocumentMessages.SendQueuesExactly | backend/app/document_messages.py:86-125 | a new request queues one row on each allowed and wanted channel on which nothing was sent yet for this candidate, list, kind of message and receipt state, naming all that is missing, and none elsewhere |
| DocumentMessages.NewListIsAskedFor | backend/app/document_messages.py:71-125 | after any run, a newly applied list with a required item can be asked for on every allowed and wanted channel, and a new row is queued |
| DocumentMessages.ReceiptReopens | backend/app/document_messages.py:86-125 | after any run, every receipt given or taken back lets the list be asked for again while something is missing |
| DocumentMessages.RefusedWith | backend/app/document_messages.py:38-84 | why a new request is refused, the first reason that applies |
| DocumentMessages.AnsweredIff | backend/app/document_messages.py:38-84 | a request is answered if and only if it is a retry of its own payload, or names the current list with something missing and an allowed wanted channel |
| DocumentMessages.RetryReturnsStored | backend/app/document_messages.py:54-64 | after anything in between, the same key with the same payload and user returns the stored answer and changes nothing; any other payload is refused |
| DocumentMessages.UnchangedAddsNoRow | backend/app/document_messages.py:88-125 | a new key with unchanged item versions, on channels already used, adds no row |
| DocumentMessages.FoundAgain | backend/app/document_messages.py:88-125 | a channel whose durable key is stored is answered with that row, whatever became of it |
| DocumentMessages.CancelledRowIsAnswered | backend/app/document_messages.py:88-125 | after a cancellation with no receipt changed a new request is answered with the cancelled row |
| DocumentMessages.AnswersAreCurrent | backend/app/document_messages.py:86-129 | in every reachable state the answer names one row per channel, that row names exactly what is missing now, and a row is added if and only if some channel had none for the present receipt state |
| DocumentMessages.StepKeeps | backend/app/document_messages.py:28-155 | every event keeps keys unique, answers stored and row texts right for their versions |
| RuleScanning.Outbox.ScanDocumentRules | backend/app/document_rules.py:50-124 | one pass over all rules inserts exactly the specified jobs and counts them |
| RuleScanning.Outbox.ScanOne | backend/app/document_rules.py:55-123 | one rule: skipped when disabled or its owner may not act, otherwise its first batch of unhandled triggers |
| RuleScanning.Outbox.Schedule | backend/app/notification_service.py:235-262 | inserts a job unless its key exists |
| RuleScanning.InsertKeeps | backend/app/models.py:1659 | whoever inserts, keys stay unique and no job is lost |
| RuleScanning.PendingDrop | backend/app/document_rules.py:71-96 | handling the first k pending triggers leaves exactly the others pending |
| RuleScanning.ScanIsSound | backend/app/document_rules.py:70-121 | a pass inserts only jobs that an active rule owes to an eligible trigger, and a timed rule's jobs are already due |
| RuleScanning.PassAddsOnly | backend/app/document_rules.py:50-124 | what each job of a pass is: of which rule, trigger, candidate, and due when |
| RuleScanning.PassAddsAll | backend/app/document_rules.py:50-124 | which jobs a pass with room for all triggers must add |
| RuleScanning.OwesExactly | backend/app/document_rules.py:50-124 | to which triggers a rule owes a job |
| RuleScanning.PassCovers | backend/app/document_rules.py:55-123 | one pass hands min(batch, pending) triggers of an active rule to jobs, whatever the other rules do |
| RuleScanning.CoveredAfter | backend/app/document_rules.py:50-124 | with the world fixed, k passes cover all eligible triggers if and only if n <= k * batch |
| RuleScanning.OthersOnlyHelp | backend/app/document_rules.py:1-8 | other scanners inserting in between never leave more pending |
| RuleJobs.RuleStore.PerformJob | backend/app/document_rules.py:146-225 | performs a job being sent: its outcome, its one execution record, its terminal status |
| RuleJobs.RuleStore.RecordFailure | backend/app/worker.py:1153-1194 | retries until the attempts run out, then records the failure |
| RuleJobs.RuleStore.UpdateRule | backend/app/routers/document_rules.py:66-103 | cancels and records every unfinished job of the rule and bumps its version, or changes nothing |
| RuleJobs.RunsAreSafe | backend/app/document_rules.py:127-225 | in every interleaving of scanners, workers, crashes, retries and edits: one job a key, one execution record for exactly the finished jobs, bounded attempts, at most one list per candidate applied by rules |
| RuleJobs.RunKeeps | backend/app/document_rules.py:146-225 | finished jobs never change again and no job is lost, over any run |
| RuleJobs.AppliesOnlyToNone | backend/app/document_rules.py:166-187 | a list is applied if and only if the rule still stands, a version is published and the candidate has no set; otherwise the sets are unchanged |
| RuleJobs.PerformsExactly | backend/app/document_rules.py:146-225 | a message is noted if and only if the rule stands, the action is a message, the current list is the one named, a timed reminder's trigger is that very assignment, and the row was queued; when a list is applied, and that everything else is skipped |
| RuleJobs.StandingRuleSends | backend/app/document_rules.py:146-225 | a standing rule whose list is current and whose row can be queued always sends |
| RuleJobs.NewRuleSends | backend/app/document_rules.py:50-225 | after any run, a new rule, a list applied after it, the job of that assignment and a worker that finds the scene in order end in a message |
| RuleJobs.FailsExactly | backend/app/worker.py:1153-1194 | a failure is retried or final by the attempts used, with one record at the end |
| RuleJobs.PostponeUndoesClaim | backend/app/worker.py:318-332 | postponing a claimed job gives back the state before the claim |
| RuleJobs.MessagesNameTheCurrentList | backend/app/document_rules.py:146-210 | over every run each recorded message was noted at a moment when its rule, access and stage stood and its list was the candidate's current one, for a timed reminder the very assignment that triggered it |
| RuleJobs.ReplacedAssignmentIsSilent | backend/app/document_rules.py:193-195 | once an assignment has been replaced no timed reminder of it is queued in the rest of any run |
| RuleJobs.EditSettles | backend/app/routers/document_rules.py:79-99 | an edit takes effect if and only if the version is the expected one; then every job of the rule is finished with one record, the rule is as edited one version on, and all other jobs are as before |
| CandidateConsent.Store.RecordConsent | backend/app/candidate_messages.py:352-402 | upserts the decision with its pinned address and cancels on refusal, or refuses an email grant without the click and changes nothing |
| CandidateConsent.Store.QueueAllChannels | backend/app/candidate_messages.py:464-504 | queues on exactly the allowed, wanted channels whose key is new |
| CandidateConsent.RecordCovers | backend/app/notification_service.py:288-308 | a refusal leaves no queued row on the channel |
| CandidateConsent.StepKeeps | backend/app/candidate_messages.py:234-504 | every event keeps consents pinned, links single and the log right; queued rows stay covered, a requeue by a worker if and only if the row it puts back is |
| CandidateConsent.RunKeeps | backend/app/routers/candidate_messages.py:1584-1690 | over all runs a granted email consent came from a click on a link for that very address, no candidate has two live links, and every regular email went to a confirmed address |
| CandidateConsent.SendsExactly | backend/app/worker.py:422-551 | a claimed row goes out if and only if its channel is configured and its consent, link or token still covers it, and to which mailbox or chat |
| CandidateConsent.DeliveriesWereRight | backend/app/worker.py:422-551 | over all runs, each delivery was right at the moment it was made |
| CandidateConsent.TelegramGoesToItsCandidate | backend/app/worker.py:505-524 | over all runs, each regular Telegram message went to the chat of its candidate's unrevoked link under a granted consent |
| CandidateConsent.LinkIsTheLastStart | backend/app/routers/candidate_messages.py:878-1065 | over all runs, that chat is the one the candidate last started the bot from |
| CandidateConsent.UnlinkedGetsNothing | backend/app/routers/candidate_messages.py:1068-1105 | after an unlink nothing is delivered on Telegram until a new link |
| CandidateConsent.ConsentIsTheLastDecision | backend/app/candidate_messages.py:352-402 | over all runs, the consent of a channel is the last decision taken on it |
| CandidateConsent.PlansExactly | backend/app/candidate_messages.py:464-504 | a message is planned on exactly the usable and wanted channels whose key is new, one row each |
| CandidateConsent.LetterThenClick | backend/app/routers/candidate_messages.py:582-694 | a confirmation letter followed by the click on its link makes the address usable |
| CandidateConsent.ConfirmedAfterAnyRun | backend/app/routers/candidate_messages.py:1538-1690 | after any run, a confirmation letter and the click on its link make exactly the address of the card one that can be written to |
| CandidateConsent.ChannelStateMeans | backend/app/candidate_messages.py:234-331 | what makes a channel allowed, pending, forbidden, temporarily unavailable or not connected |
| CandidateConsent.DecisionDoes | backend/app/candidate_messages.py:352-402 | what a decision of the HR stores and cancels, and that it never grants email |
| CandidateConsent.StartDoes | backend/app/routers/candidate_messages.py:1003-1042 | a start of the bot connects its chat, and grants Telegram only where nothing was decided before |
| CandidateConsent.UnlinkDoes | backend/app/routers/candidate_messages.py:1082-1094 | an unlink revokes the binding and cancels what is queued, and leaves the consent alone |
| CandidateConsent.ProviderFailureDoes | backend/app/worker.py:681-706 | a temporary provider error closes Telegram for new messages while it stands, and changes nothing else |
| CandidateConsent.RowMoves | backend/app/worker.py:228-332 | how a claim, a postponement and a verdict move a row, and that only a row in the right status moves |
| CandidateConsent.InitiationDoes | backend/app/routers/candidate_messages.py:588-694 | asking for a confirmation ends the earlier links with their letters and queues one with a new link to the card's address |
| CandidateConsent.ClickDoes | backend/app/routers/candidate_messages.py:1574-1664 | exactly which clicks count, what they confirm, and which links and letters they end |
| CandidateConsent.QueuedIsCovered | backend/app/candidate_messages.py:464-504 | at every moment of a run each queued regular message has its granted consent row and no queued letter is superseded, if and only if every row a worker put back was still so covered |
| CandidateConsent.RefusalIsImmediate | backend/app/candidate_messages.py:395-399 | after a refusal nothing is queued on the channel, nothing new can be, and a claimed row is skipped |
| CandidateConsent.RefusalHolds | backend/app/candidate_messages.py:263-504 | over any run without that event nothing regular is queued or sent on the refused channel, and the channel is closed |
| CandidateConsent.RequeueOutlivesRefusal | backend/app/worker.py:322-332 | in any state with a claimed regular row, a refusal and then a postponement leave it queued without consent, and it still goes nowhere |
| EventReminders.Session.SyncEventReminder | backend/app/event_reminders.py:77-146 | creates, moves or closes the linked reminder as specified |
| EventReminders.SyncAcceptedIff | backend/app/event_reminders.py:138-140 | the constraints accept the sync if and only if it does not reactivate a completed reminder |
| EventReminders.CompletedReminderBlocksSync | backend/app/models.py:1416-1419 | a store with one completed linked reminder on which the sync of a standing event is refused |
| EventReminders.SyncBringsInStep | backend/app/event_reminders.py:96-146 | a live event with a moment has exactly one linked reminder: active, at the moment, for the assignee; any other has no active one |
| EventReminders.NewReminderSays | backend/app/event_reminders.py:110-126 | whose a created reminder is, what it says and how it is cut, and when it is due |
| EventReminders.LinkedReminderBecomes | backend/app/event_reminders.py:91-146 | an ended event closes its reminder and keeps the link, one without a moment gives it up still active, a standing one moves it; version, time and withdrawn deliveries |
| EventReminders.ReopenedEventReusesReminder | backend/app/event_reminders.py:91-146 | reopening an ended event brings back the reminder it closed |
| EventReminders.ReleasedReminderIsNotReused | backend/app/event_reminders.py:101-104 | an event that lost its moment and gets one again gets a second reminder, and the first stays on its own |
| EventReminders.OthersUntouched | backend/app/event_reminders.py:91-146 | other reminders, and deliveries about anything else, are as before |
| EventReminders.StaleDeliveriesCancelled | backend/app/event_reminders.py:129-145 | if time, assignee, title, status or link changed nothing of the reminder stays queued; if none did nothing is cancelled |
| EventReminders.SecondSyncChangesNothing | backend/app/event_reminders.py:77-90 | a second sync, at any later time, changes nothing |
| EventReminders.TwiceUnflushedIsRefused | backend/app/models.py:1424-1430 | two creations without a flush in between are refused by the unique index |
| EventReminders.RunsStayAccepted | backend/app/event_reminders.py:15-18 | over any run no event has two reminders |
| Outbox.Transaction.Schedule | backend/app/notification_service.py:171-262 | checks the recipient, then inserts unless the key exists; the exact answer or error |
| Outbox.Transaction.FlushInsideSavepoint | backend/app/notification_service.py:72-91 | a duplicate or refused row leaves the outbox as it was and every write of the caller in place; a duplicate among the caller's own rows is answered the same and undoes everything |
| Outbox.OutboxIsFirstPerKey | backend/app/notification_service.py:194-203 | after any calls between any writes of the caller the outbox is the first accepted row of each key, in order, and no write is lost, unless a flush of the caller's own rows failed, which undoes all |
| Outbox.NoneMeansKnownKey | backend/app/notification_service.py:194-200 | no row back means an earlier accepted request with the key, except exactly when the caller's own rows break a unique index |
| Outbox.RowsAreAddressed | backend/app/notification_service.py:204-235 | whatever is called every row has one recipient, and an outside address only on the verification letter |
| Outbox.CallWrites | backend/app/notification_service.py:171-262 | what one call does to transaction and outbox: a badly addressed request touches nothing, a new key adds one row that says what was asked |
| Outbox.CallAnswers | backend/app/notification_service.py:204-262 | which error a request is refused with, and what a call answers |
| Outbox.RowsSayWhatWasAsked | backend/app/notification_service.py:171-262 | over any run each new row has recipient, channel, text and key of a well-addressed call |
| Outbox.FirstPerKeyIsEarliest | backend/app/notification_service.py:194-203 | a row is kept if and only if it is the earliest with its key |
| Outbox.KeysDoNotCollide | backend/app/notification_service.py:255 | two requests share a key only if they share type and business key |

## Left out

- HTTP, routing, cookies, the front end, metrics, audit texts, message texts and labels.
- SMTP and Telegram delivery: the check before a send, the hand-over and the status it leaves are modelled; the last check and the hand-over are one step, as the locks make them for all but a change of access or stage in between.
- AES-GCM, SHA-256, base64 and the JSON serializer inside `BackupFormat`: functions with the laws of `Primitives.Lawful`; digests used as keys are modelled by the values they are taken of, as if they never collided.
- Foreign backup headers: values other than strings and integers, and `int()` of texts with blanks, signs or underscores.
- `pg_dump`, restore, drills, staging files, permissions, checksum sidecars and free-space checks.
- File names: non-ASCII digits and a trailing line feed, which the pattern's classes also admit.
- State file: text fields holding JSON values other than strings, and the age arithmetic of freshness.
- SemVer.CompareIsPrecedence: `int()` refuses numerals above 4300 digits, which the pattern admits; the model gives them their value.
- BackupFormat.TagsBindHeader: the tags cover neither the two patched fields nor the order and number of the records; only the unkeyed digest and size speak for those (`BackupFormat.OtherRecordsAreRefused`).
- BackupArchive.LastBackupExists: a prune running beside a backup run, and deletions that fail.
- `run_check` rewriting the state without the lock: runs of backups are serialised.
- Time zones with sub-minute offsets (for minimality to the instant) or with larger or denser jumps than `QuietHours.Tame` (for the guards); the resolution of local times that do not exist or exist twice.
- Rounding of floating-point times in the limiter: times are real numbers.
- Rates, rounding, the hiring and exit series, the funnel and the permissions of the dashboard: averages and plain counts with no total to agree with.
- The queries and the rate rounding behind the CSV report: its numbers and rate texts are given.
- The signature check, the licence's JSON parser and Unicode blanks.
- Scope, permissions, rendering and download of document templates; imported versions take the path of added ones.
- DocumentGeneration.CallersAgree: interleaved calls are modelled on values, one step per read or flush, so update in place is captured only by the class for a single caller.
- RuleJobs.RunsAreSafe: runs are modelled on values; the class methods are proved equal to their steps.
- Rule validation, the document context of a rule's messages, and alerts on terminal failures.
- CandidateConsent: card addresses are already normalised, rate limits and token secrecy are not modelled, and a Telegram chat held by another recipient is refused before the step modelled here.
- Interview planning texts and event freshness at send time.
- Reminder recurrence, snoozing and importance: the sync leaves them alone.
- EventReminders.RunsStayAccepted: each sync is flushed before the next, as the endpoints do.
- Outbox.Transaction.FlushInsideSavepoint: what the database says to the caller's own rows is a parameter, and their contents are not modelled; a failed transaction is only ended, not begun anew.
- Document previews, which read and write nothing further.
- Attachments, the library, readiness, assignees, bootstrap, configuration and the licence guard: easy members only.

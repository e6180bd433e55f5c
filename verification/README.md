# Bulk SMS dispatcher — a Dafny model

This project models the core of an Android bulk-SMS sender. The sender loads (phone, message) pairs from a CSV file and sends them in batches. It tracks each message through the "sent" and "delivered" acknowledgements of the radio, shows a running tally, and writes a CSV report. Everything the model covers lives in one Kotlin file, `MainActivity.kt`. Each piece becomes a pure function or a small method over an immutable `seq<Record>`:

- `Records`: the `SMSRecord` entity and its status vocabulary. The status is a datatype. `StatusText` gives the string the application stores ("Pendiente", "Enviando...", "Enviado", "Entregado", "No entregado", "Error: <reason>"), and `ParseStatus` inverts it. The source file's accented literals are mis-encoded: the text holds "Fallo genÃ©rico", which is "Fallo genérico" encoded as UTF-8 twice. The model uses the re-decoded text ("Fallo genérico").
- `Callbacks`: the two broadcast receivers as pure steps on the record list. Acknowledgements are discrete `Event`s that carry the record index (the correlation token) and a platform result code. The result codes use the platform's values: RESULT_OK = -1, RESULT_CANCELED = 0, GENERIC_FAILURE = 1, RADIO_OFF = 2, NULL_PDU = 3, NO_SERVICE = 4.
- `Batching`: how many batches there are and which index range each batch covers.
- `Dispatch`: the per-batch send loop (`SendBatch`), the bounded completion poll (`AwaitBatch`) and the one-batch-per-call scheduler (`SendInBatches`). Two oracles stand in for the radio:
  - For the synchronous send call: accepted with some number of segments, or throws with a message and a timestamp.
  - For acknowledgements: one round of events arrives during each one-second poll delay.
- `CsvInput`: the line parser of the CSV loader.
- `Report`: the report serialiser, plus a reader (`ReadReport`) that serves as its partner in a round-trip proof.
- `Tally`: the sent / failed / pending counts on screen.
- `Session`: the start / continue cycle the screen drives. It includes the "Continuar" defect described under Findings.

Where the code behaves differently from what its own names, comments or dialog texts suggest, the model follows the code:

- The "sent" receiver does not look at the record's prior status. A late send acknowledgement therefore overwrites "Entregado" (`Callbacks.SentOverwritesDelivered`). Only the "delivered" receiver is guarded on "Enviado".
- On a successful send call, the batch loop stores the batch's own copy of the record, taken when the batch started, with status "Enviando...". On a failure, it updates the record currently in the list. `Dispatch.AfterAttempt` keeps the two paths apart.
- The loader trims a field before removing quotes. A quoted blank such as `" "` therefore survives as a one-space field (`CsvInput.QuotedBlankKept`).
- The help screen offers `+5521888888888,"Mensaje con, comas"` as a sample line (`MainActivity.kt:451`), but the loader splits on every comma, quoted or not, so that line loads with the message "Mensaje con" (`CsvInput.HelpSampleMessageCut`).
- "Continuar" resumes from the batch just completed, not "el siguiente lote" its dialog text promises (`MainActivity.kt:561`). See Findings.

## Model

| member | source | states |
|---|---|---|
| Records.StatusTextRoundTrip | app/src/main/java/com/example/smsmasivo/MainActivity.kt:76-131 | every status is recovered from the string the application stores for it |
| Records.StatusTextInjective | app/src/main/java/com/example/smsmasivo/MainActivity.kt:76-131 | two statuses share a stored string only if they are the same status, so comparing strings is comparing statuses |
| Records.SettledIff | app/src/main/java/com/example/smsmasivo/MainActivity.kt:781-784 | the poll's string test (not "Pendiente" and not "Enviando...") holds exactly for the statuses other than Pending and Sending |
| Callbacks.SentStatus | app/src/main/java/com/example/smsmasivo/MainActivity.kt:76-113 | RESULT_OK and only it gives "Enviado"; every other code gives an error status; codes outside the four known errors give "Error: Desconocido"; the result is always settled |
| Callbacks.OnSent | app/src/main/java/com/example/smsmasivo/MainActivity.kt:71-115 | an out-of-range index changes nothing; otherwise only that record changes, its status becomes the code's status and its timestamp the given time, phone and message kept |
| Callbacks.OnDelivered | app/src/main/java/com/example/smsmasivo/MainActivity.kt:121-136 | the list changes only if the index is in range, the record is exactly "Enviado" and the code is OK or CANCELED; then it becomes "Entregado" / "No entregado" with its timestamp untouched; no other record changes |
| Callbacks.ApplyKeepsSettled | app/src/main/java/com/example/smsmasivo/MainActivity.kt:69-138 | no acknowledgement takes a settled record back to a waiting status or alters its phone or message |
| Callbacks.ApplyAllKeepsSettled | app/src/main/java/com/example/smsmasivo/MainActivity.kt:69-138 | the same holds for any run of acknowledgements |
| Callbacks.ApplyAllUntargeted | app/src/main/java/com/example/smsmasivo/MainActivity.kt:71-72 | acknowledgements carrying other indices leave a record exactly as it was |
| Callbacks.SentIgnoresPriorStatus | app/src/main/java/com/example/smsmasivo/MainActivity.kt:76-113 | the "sent" receiver's result does not depend on the status it finds |
| Callbacks.SentOverwritesDelivered | app/src/main/java/com/example/smsmasivo/MainActivity.kt:83-88 | a delivered record receiving a generic-failure send acknowledgement becomes "Error: Fallo genérico" |
| Callbacks.DeliveredAfterSendErrorIgnored | app/src/main/java/com/example/smsmasivo/MainActivity.kt:123-134 | after a failed send acknowledgement, any delivery acknowledgement for that record is a no-op |
| Callbacks.DeliveredAtMostOnce | app/src/main/java/com/example/smsmasivo/MainActivity.kt:123-134 | once a delivery outcome is applied, later delivery acknowledgements for that record change nothing |
| Batching.TotalBatches | app/src/main/java/com/example/smsmasivo/MainActivity.kt:764 | (n + B - 1) / B is the ceiling of n / B: the batches hold all n records and the last batch is not empty |
| Batching.BatchOf | app/src/main/java/com/example/smsmasivo/MainActivity.kt:767-768 | index i lies within B slots of the start of batch i / B + 1 |
| Batching.BatchInRange | app/src/main/java/com/example/smsmasivo/MainActivity.kt:764-769 | every batch 1..total is a non-empty range inside the list, of exactly B records except possibly the last |
| Batching.BatchesCover | app/src/main/java/com/example/smsmasivo/MainActivity.kt:764-768 | every index of the list lies in some batch between 1 and the total |
| Batching.BatchesDisjoint | app/src/main/java/com/example/smsmasivo/MainActivity.kt:767-768 | two batches sharing an index are the same batch |
| Batching.SizesUpToPrefix | app/src/main/java/com/example/smsmasivo/MainActivity.kt:766-768 | batches 1..k together cover exactly the prefix up to the end of batch k |
| Batching.BatchSizesSum | app/src/main/java/com/example/smsmasivo/MainActivity.kt:764-768 | the batch sizes add up to the record count |
| Batching.TwentyFiveByTen | app/src/main/java/com/example/smsmasivo/MainActivity.kt:764-768 | 25 records in batches of 10 form batches [0,10), [10,20), [20,25) |
| Dispatch.CallFor | app/src/main/java/com/example/smsmasivo/MainActivity.kt:807-848 | a one-segment message is sent as a single text, a longer one as a multipart send with one intent per segment, and every intent carries the record's own list index |
| Dispatch.SendBatch | app/src/main/java/com/example/smsmasivo/MainActivity.kt:804-865 | every batch record is attempted in order; the list length is kept; only the batch slots change; an accepted slot becomes the batch copy with "Enviando...", a rejected one becomes "Error: <message>" with the failure's timestamp; a send call is recorded, with the record's own index on every intent, exactly for the accepted attempts, and none for an attempt that threw |
| Dispatch.AcknowledgementTargetsItsRecord | app/src/main/java/com/example/smsmasivo/MainActivity.kt:807-820 | an acknowledgement raised by any intent of a record's send call is addressed to that record's list position and to no other |
| Dispatch.AwaitBatch | app/src/main/java/com/example/smsmasivo/MainActivity.kt:773-785 | at least one and at most 30 polls; stops at the first poll that finds the range settled; an early stop means it is settled; the records are only what the acknowledgements made them |
| Dispatch.SendInBatches | app/src/main/java/com/example/smsmasivo/MainActivity.kt:756-793 | past the total (for instance with no records) nothing is sent or reported; otherwise exactly the start batch is sent and awaited and reported once as (startBatch, true) |
| Dispatch.AfterPollsKeepsSettled | app/src/main/java/com/example/smsmasivo/MainActivity.kt:777-785 | a record settled before the wait stays settled through every poll |
| Dispatch.AfterPollsUntargeted | app/src/main/java/com/example/smsmasivo/MainActivity.kt:777-785 | a record that no acknowledgement names is unchanged by the wait |
| Dispatch.AllRejectedSettlesAtFirstPoll | app/src/main/java/com/example/smsmasivo/MainActivity.kt:773-785 | a batch whose every send call threw completes at the first poll |
| Dispatch.SilentRadioExhaustsBudget | app/src/main/java/com/example/smsmasivo/MainActivity.kt:773-787 | with every send accepted and no acknowledgement for the batch, the wait spends all 30 polls, the batch is still reported, and its records stay "Enviando..." |
| CsvInput.Split | app/src/main/java/com/example/smsmasivo/MainActivity.kt:737 | splitting gives at least one field and no field holds the separator |
| CsvInput.SplitJoin | app/src/main/java/com/example/smsmasivo/MainActivity.kt:737 | joining the fields with commas gives back the line |
| CsvInput.SplitFirst | app/src/main/java/com/example/smsmasivo/MainActivity.kt:737 | the first field is exactly the text before the first comma |
| CsvInput.SplitNoSeparator | app/src/main/java/com/example/smsmasivo/MainActivity.kt:737 | a line without a comma is one field |
| CsvInput.SplitHasTwoFields | app/src/main/java/com/example/smsmasivo/MainActivity.kt:737-738 | a line has two or more fields exactly when it contains a comma |
| CsvInput.TrimStart | app/src/main/java/com/example/smsmasivo/MainActivity.kt:739-740 | the result is the suffix left after a whitespace-only prefix and does not start with whitespace |
| CsvInput.TrimEnd | app/src/main/java/com/example/smsmasivo/MainActivity.kt:739-740 | the result is the prefix before a whitespace-only suffix and does not end with whitespace |
| CsvInput.StripQuotes | app/src/main/java/com/example/smsmasivo/MainActivity.kt:739-740 | the result has no double quote and holds exactly the other characters of the field (as a set; order and multiplicity are fixed by the three lemmas below) |
| CsvInput.StripQuotesNoQuote | app/src/main/java/com/example/smsmasivo/MainActivity.kt:739-740 | a field without a double quote is kept unchanged |
| CsvInput.StripQuotesQuote | app/src/main/java/com/example/smsmasivo/MainActivity.kt:739-740 | a lone double quote is removed entirely |
| CsvInput.StripQuotesAppend | app/src/main/java/com/example/smsmasivo/MainActivity.kt:739-740 | quote removal distributes over concatenation, keeping order and multiplicity; together with the two rows above it determines the result for every field |
| CsvInput.FromFields | app/src/main/java/com/example/smsmasivo/MainActivity.kt:738 | fewer than two fields yield no record |
| CsvInput.ParseLine | app/src/main/java/com/example/smsmasivo/MainActivity.kt:737-745 | a line without a comma yields nothing; a yielded record has non-empty phone and message with no quote or comma, status "Pendiente" and no timestamp |
| CsvInput.ParseLines | app/src/main/java/com/example/smsmasivo/MainActivity.kt:735-747 | at most one record per line, each well formed |
| CsvInput.ParseLinesAppend | app/src/main/java/com/example/smsmasivo/MainActivity.kt:735-747 | parsing works line by line and keeps input order: the records of xs + ys are those of xs followed by those of ys |
| CsvInput.ParseLineFields | app/src/main/java/com/example/smsmasivo/MainActivity.kt:737-744 | a two-field line yields the record of its cleaned fields if both cleaned fields are non-empty, and nothing otherwise (an empty or quoted-empty phone or message is skipped) |
| CsvInput.QuotedEmptyPhoneSkipped | app/src/main/java/com/example/smsmasivo/MainActivity.kt:739-743 | a line whose phone field is `""` yields nothing, whatever the message |
| CsvInput.TextAfterSecondCommaIgnored | app/src/main/java/com/example/smsmasivo/MainActivity.kt:737-740 | anything after the second comma never changes what a line yields |
| CsvInput.TrimBlank | app/src/main/java/com/example/smsmasivo/MainActivity.kt:739-740 | a whitespace-only field trims to the empty string |
| CsvInput.BlankPhoneSkipped | app/src/main/java/com/example/smsmasivo/MainActivity.kt:739-742 | a line whose phone field is only whitespace yields no record |
| CsvInput.QuotedBlankKept | app/src/main/java/com/example/smsmasivo/MainActivity.kt:739-743 | because quotes are removed after trimming, the line `" ",hola` yields the phone number " " |
| CsvInput.HelpSampleMessageCut | app/src/main/java/com/example/smsmasivo/MainActivity.kt:451 | the help screen's sample line `+5521888888888,"Mensaje con, comas"` loads with the message cut at the quoted comma, as "Mensaje con" |
| Report.Escape | app/src/main/java/com/example/smsmasivo/MainActivity.kt:878 | doubling quotes never shortens the message (what the escaping means is stated by `Report.ReadQuotedEscape`) |
| Report.EscapeLength | app/src/main/java/com/example/smsmasivo/MainActivity.kt:878 | the escaped message is longer by exactly its number of double quotes, each of which appears twice |
| Report.ReadQuotedEscape | app/src/main/java/com/example/smsmasivo/MainActivity.kt:878 | undoubling the quoted message field gives back the message and stops at its closing quote |
| Report.ReadTrailerOk | app/src/main/java/com/example/smsmasivo/MainActivity.kt:879 | the status and the timestamp after the message field read back exactly |
| Report.ReadFromMessageOk | app/src/main/java/com/example/smsmasivo/MainActivity.kt:878-879 | the quoted message and the rest of its line read back exactly |
| Report.ReadRowRow | app/src/main/java/com/example/smsmasivo/MainActivity.kt:878-879 | one report line of a reportable record (no comma in the phone or timestamp, no line break in the status or timestamp) reads back as that record |
| Report.ReadRowsRows | app/src/main/java/com/example/smsmasivo/MainActivity.kt:877-880 | the body of a list of reportable records reads back as that list, one line per record, in order |
| Report.LineBreakInErrorNotReportable | app/src/main/java/com/example/smsmasivo/MainActivity.kt:856-860 | an error status whose exception message holds a line break makes the record unreportable: its row spans two report lines |
| Report.ReportRoundTrip | app/src/main/java/com/example/smsmasivo/MainActivity.kt:874-881 | for a list of reportable records (no comma in the phone or timestamp, no line break in the status or timestamp), the header followed by the rows reads back as exactly the record list (phone, message, status, timestamp); the reader takes the timestamp after the line's last comma, because the status is written unquoted and an error status may itself hold commas, which a reader splitting strictly by field position would misread |
| Tally.BucketsExclusive | app/src/main/java/com/example/smsmasivo/MainActivity.kt:393-395 | no status string counts in two of the three tallies |
| Tally.TallyTexts | app/src/main/java/com/example/smsmasivo/MainActivity.kt:393-395 | over any list of status strings the three tallies add up to at most the list length |
| Tally.StatusBucket | app/src/main/java/com/example/smsmasivo/MainActivity.kt:393-395 | sent = "Enviado" or "Entregado", failed = any error or "No entregado", pending = "Pendiente" or "Enviando..." |
| Tally.TallyMatchesStatuses | app/src/main/java/com/example/smsmasivo/MainActivity.kt:393-395 | the string-based tallies equal the counts defined on the status datatype |
| Tally.TallyIsExhaustive | app/src/main/java/com/example/smsmasivo/MainActivity.kt:393-395 | for records in the model's status vocabulary the three tallies add up to exactly the record count |
| Session.AsWrittenNeverAdvances | app/src/main/java/com/example/smsmasivo/MainActivity.kt:564-578 | with two or more batches, every press of "Continuar" as written runs batch 1 again and batch 2 is never sent |
| Session.ResumeAdvances | app/src/main/java/com/example/smsmasivo/MainActivity.kt:564-578 | with the corrected handler, the session runs batches 1, 2, ... in order, one per press, up to the total |
| Session.SessionSendsEveryRecordOnce | app/src/main/java/com/example/smsmasivo/MainActivity.kt:564-578 | a session (started by the start handler at lines 308-325, then resumed by the continue handler corrected to pass the next batch) sends every record in exactly one run |

## Findings

| source | as written | input that shows it | evidently intended | confidence | as-written member | corrected member |
|---|---|---|---|---|---|---|
| app/src/main/java/com/example/smsmasivo/MainActivity.kt:569 | "Continuar" calls `sendSMSInBatches` with `currentBatch`, the batch just reported as completed, so the same batch is sent again | 25 records, batch size 10: Start sends batch 1; each "Continuar" sends batch 1 again; records 10..24 are never sent | start from `currentBatch + 1`, as the dialog's "continuar con el siguiente lote" says | high (not executed) | Session.AsWrittenNeverAdvances | Session.ResumeAdvances |

## Left out

- Jetpack Compose UI, the dialogs and the slider conversions: presentation and floating-point code. Of the UI, only the tally expressions, the start handler and the continue handler are modelled.
- Android platform calls are abstracted. `SmsManager.divideMessage` appears only as the segment count carried by `Dispatch.Attempt`. `sendTextMessage` / `sendMultipartTextMessage` become the accepted/rejected oracle. Only the token each `PendingIntent` carries is modelled. Receiver registration is not modelled.
- File and content I/O: `getFileName`, the `.csv` extension check, the stream reading and line splitting of `useLines`, the file write, `FileProvider`, the share intent and the Toasts. The model takes a list of lines in and gives the report string out.
- Wall-clock time and `SimpleDateFormat`: timestamps are opaque strings supplied with each failure or acknowledgement.
- Timing and concurrency: `delay(...)` does nothing in the model. Acknowledgements are applied only at poll delays, as one round of events per delay. Acknowledgements arriving inside the send loop, between two records' send calls, are not interleaved.
- The process-wide `smsRecordsGlobal` and `updateCallback`: the record list is threaded explicitly. The list passed to the scheduler and the global list are taken to be the same list, as the start handler makes them. The change notifications to the screen are not modelled.
- Kotlin's 32-bit `Int`: `records.size + batchSize - 1` could overflow only for lists near 2^31 records, so integers are unbounded.
- Dispatch.SendInBatches: requires `batchSize >= 1` and `startBatch >= 1`. The source would divide by zero or fail in `subList` outside that range, and its callers never pass such values.
- The scheduler (`Dispatch.SendInBatches`) does not return the send calls `Dispatch.SendBatch` records. Acknowledgement events are given by the oracle directly by the index they carry, and `Dispatch.AcknowledgementTargetsItsRecord` shows that this index is the one every intent of the record's call carries.
- Report.ReportRoundTrip: holds only for reportable records. The application itself can store an unreportable one: the send loop writes "Error: " followed by the exception's message, and a message with a line break splits that record's row across two report lines, so the report it writes cannot be read back row by row (`Report.LineBreakInErrorNotReportable`).
- Session.SessionSendsEveryRecordOnce: a session assumes the record list and the batch size stay fixed between presses. In the application the settings dialog and the CSV loader remain usable while the continue dialog is open; the scheduler recomputes its batches from the current batch size, while the screen keeps the batch total it computed at start.
- Tally.TallyIsExhaustive: exact only for statuses of the model's vocabulary. For arbitrary strings `Tally.TallyTexts` gives the weaker bound "at most the list length".
- The report-button visibility condition and the report file name are presentation details and are not modelled.

# Bank statements into a CRM: a verified model

The repository takes a bank's statement, turns it into operations, decides which invoice or deal each
operation pays, and keeps a ledger of what was distributed where. This project models the parts of it that
carry real guarantees and proves those guarantees for every input, every run and every interleaving.
`dafny verify dfyconfig.toml` checks it.

## Where to find what

| modules | what they model | main results |
|---|---|---|
| `CsvLine`, `AlfaCsv` | the quote-aware splitter and the Alfa-Bank section machine | splitting undoes RFC 4180 printing; a statement that loses an operation is refused; which lines give the printed totals, and that those are conserved down to the emitted operations |
| `ClientBankText`, `ClientBankStatement`, `ClientBankReading` | the `***** ^Type=` export and its normalizer | printing and parsing round trip; rows against DocDate lines; money never taken in the wrong currency; each field of an operation by the keys it comes from |
| `DayValue`, `Money` | one calendar day as text; cents | exactly the Gregorian days of 0100 to 9999; doubles recover exact cents |
| `Feedback`, `FeedbackReport`, `FeedbackRetention` | the issue writer and the sweep that cuts statements out again | the body limit; the comment, the context and the file are in the body and read back; nothing of a statement survives the sweep, whatever else the body holds |
| `DistributionSp`, `SpSettings` | field names of the two smart processes, provisioning, their stored ids | one normal form; provisioning resumes; forms never lose ids |
| `ItemStore`, `DistributionLedger`, `LedgerWrite`, `LedgerRuns`, `LedgerSafety`, `LedgerRecovery`, `LedgerRedelivery`, `LedgerOverlap`, `LedgerInterleaving`, `LedgerFacts` | a store of portal items, the ledger's calls run against it, and its operations | after every run: one item per marker, totals as the bank gave them, every remainder exactly right; the first two under interleavings of single calls, exactly as long as no writer is overtaken; redelivery, crashes, overlapping recomputes, and exactly what recovery reaches; automatic rows read back as automatic, and no payment is ever flagged |
| `AutoErase` | erasing old activities against the poll window | no poll revives an erased operation, with the exact condition |
| `RemoteSearch`, `RemoteListing`, `ImportBatches` | two client-side controllers with requests in flight | their invariants in every interleaving, at most one live chain, termination of paging; polling ends exactly when every upload is settled |
| `Allocation` | which target a payment closes | the decision, characterized by currency and cents, and what it does not depend on |
| `B24Events` | bracket-encoded event forms | decoding undoes encoding, in any order of pairs |
| `BankToken`, `BankHealthOverview` | the life and death of a bank connection, and the operator's overview | why a connection expired, over every run; the overview adds up, holds exactly the rows it should, and does not depend on their order |
| `ImportStats` | totals shown after an import | every operation counted once; rounding loses nothing |

`Text`, `Numerals`, `Ordering`, `Statement` and `Outcome` hold string operations of ECMAScript, decimal digits, sorting, the
normalized operation, and an option and a result type.

Loops and controllers are written as the source writes them, as methods and classes over mutable state, and
each is proved equal to a function of its input or its old state; the theorems are about those functions.

## How things are modelled

- A `char` stands for one UTF-16 code unit: a character of the basic plane for itself, the halves of surrogate pairs,
  which are no characters, for themselves 0x2800 further on (`Text.CharOf`). So lengths, cuts and the order of strings
  are those of code units. White space is what `String.prototype.trim` takes for it.
- Functions the model has no business defining are parameters, and a lemma that needs something of one says so:
  upper-casing and the reading of the account header in the Alfa parser, the reading of a money text in the
  client-bank normalizer, `Number` on identifiers and upper-casing of currency codes in the allocation, the key of a
  search result.
- Field names of the smart processes are ASCII, and so is the mapping of case on them.
- The labels of portals are lower-case hexadecimal digits, which every collation sorts by code unit.
- Money is `real`. Where binary rounding is the point, `Money` works with the standard rounding-error model
  (IEEE 754-2019, section 4.3.1): any double within the relative error of the exact value. `Allocation` and
  `ImportStats` are then stated over exact amounts.
- Absent optional texts are empty strings where the source treats both alike.
- Requests in flight are a multiset or set, and an event of a run may answer, fail or abort any of them at any
  time. A change of the search term and the restart it causes are one step.
- Remainders are proved right where one ledger operation runs to its end before the next begins. Taken apart into
  single calls, operations interleave. Elements and rows are added by crm-sync, one job at a time in each worker process, and
  elements also by the queue that writes the registry again (`server/queue/worker.ts:1020-1025`), so the interleavings are of any number of writers.
  Everything but the remainders holds in them exactly as long as no writer is overtaken
  (`LedgerInterleaving.InterleavingKeepsCore`). What a remainder shows after an overlap is `LedgerOverlap.LateWriteExactly`,
  and what a crash in the middle of freeing a target leaves behind is `LedgerSafety.CrashKeepsCore`.
- Clocks never run backwards.

## What the code turned out to do

Where the code and what is said of it differ, the model follows the code.

- **Auto-erase.** The comment on the cap of 400 days calls it a guard against typing errors
  (`app/utils/autoEraseActivities.ts:46-62`); it is also what limits safety. Polls never revive an erased operation exactly for a
  lookback of at most 399 days, or 398 when a job may slip past midnight (`AutoErase.SafeExactly`).
- **Alfa turnovers.** Rows are rounded one by one and the check rounds their sum, so the two agree exactly for
  whole-cent amounts, and differ by up to half a cent a row otherwise (`AlfaCsv.HalfCentsInflate`). For the same reason a
  lost operation of less than a cent can go unnoticed, and one of nothing always does (`AlfaCsv.DeletionExactly`,
  `AlfaCsv.ThousandthUnnoticed`).
- **The CSV tail.** Blank segments at the end of an unquoted last text are lost with the blank cells after it
  (`CsvLine.TailRestores`, `CsvLine.BlankSegmentLost`).
- **Client-bank rows.** The row counter starts again at every output tag, so a repeated tag writes over the rows
  of the first (`ClientBankText.RowsMatchDatesExactly`, `ClientBankText.RepeatedTagOverwrites`).
- **Client-bank credits.** Where the plain fields hold the account currency, the side of a row is still read from the
  debit quantity when both plain debit fields are blank; a credit is then lost (`ClientBankStatement.CreditLostExactly`, `ClientBankStatement.CreditLost`).
- **Camel names** are not one to one once a word begins with a digit: `A_1` and `A1` meet (`DistributionSp.DigitsBreakCamel`),
  and every such postfix meets some other (`DistributionSp.DigitBeginsMeets`). No field in use is affected.
- **Redaction** always removes the statement, but a context value that spells out the opening of a block drags
  a part of the report along, since context values are not escaped (`FeedbackRetention.ReportKeptIntact`, `FeedbackRetention.NameDragsReport`).
- **Markers.** Finding before adding protects every non-blank marker; a row with a blank one is written again each
  time (`LedgerRedelivery.WrittenTwice`).
- **Recomputing all** is described as doing so for every payment of the portal and as the recovery from a crash
  (`server/utils/distributionLedgerWrite.ts:411-417`); it takes in the newest two hundred, so an older payment that a
  crash left wrong stays wrong (`LedgerRecovery.RecoveryExactly`, `LedgerRecovery.TwoHundredAndOne`).
- **Shared keys.** Operations without a bank id are told apart by number and date, which different operations may share.
  The second one to be allocated has the first one's payment recomputed from its own amount, and the remainder is then
  right exactly when the two amounts leave the same (`LedgerRedelivery.SharedKeyExactly`, `LedgerRedelivery.SixtyOfAHundred`).
- **Overlapping recomputes.** Recomputing all, allocating and freeing write one column from queues of their own, as
  `server/api/distribution/recompute.post.ts:39-44` says. A remainder written late is right exactly when the rows read still
  come to the same (`LedgerOverlap.LateWriteExactly`, `LedgerOverlap.FreedInBetween`).
- **Two queues, one payment.** Adding after looking is called safe because crm-sync is serial (`server/queue/worker.ts:776-798`),
  and the retry of a registry write because its writer goes by the marker (`server/utils/deferredWriteJobs.ts:57`). The retry
  runs beside crm-sync, which goes on to allocate the same operation (`server/queue/handlers.ts:744-756`), so both can look
  before either adds, and the payment is then there twice (`LedgerInterleaving.RegistryWriteDoubles`); exactly the adds of
  overtaken writers do that (`LedgerInterleaving.MoveKeeps`).
- **Pages.** A hundred pages are read and no more. What a deletion frees, what it leaves active, and when the remainders
  are right all the same, is known for any number of rows (`LedgerRuns.FreedExactly`, `LedgerRuns.FreeingRightExactly`).
- **The new element's remainder** is the amount itself, not clamped at zero as a recompute would; runs are
  therefore over non-negative amounts, which is what every normalizer emits.
- **Identifiers.** The comparison is circular on some mixed ids, and exactly when is known (`Allocation.CompareIsOrder`).
  Past the exact numbers two ids can read alike, and the greater one is then allocated (`Allocation.SixteenDigitsConfused`).
  Where the least id names two targets, an invoice and a deal payment, the order of the search decides between them
  (`Allocation.TargetFixedExactly`).
- **Remote search.** Rows of a first page are not checked for repeated keys, so they repeat exactly when the page does
  (`RemoteSearch.DistinctExactly`, `RemoteSearch.RepeatedKeyShown`); a load-more at a cursor that is not
  positive can repeat for ever (`RemoteSearch.LoopsAtZero`); after disposal a load-more can mix two terms, exactly when
  a first page was on its way under another term's list (`RemoteSearch.DisposalMixesExactly`, `RemoteSearch.DisposalMixesTerms`).
- **Import batches.** Disposal stops the timer but not the run: a request in the air with time left arms a new one, and
  nothing else does (`ImportBatches.DisposalSilencesExactly`, `ImportBatches.DisposalLeavesTimer`).
- **The attention list** is described as showing first what needs reconnecting and then what has expired
  (`app/utils/bankHealthOverview.ts:243`); it is the other way round (`BankHealthOverview.ExpiredFirst`).
- **Document dates** are described as given only when they differ from the acceptance date; one with a time is given
  on the same day too (`ClientBankStatement.OperDateExactly`).
- **Bank connections.** A refresh the bank refused makes a connection expired with neither a reason nor a date
  (`BankToken.DeathsAgree`).
- **Days.** Years 0 to 99 are refused as an accident of `Date.UTC` (`DayValue.EarlyYears`).

## Model

| member | source | states |
|---|---|---|
| CsvLine.SplitCsvLine | app/utils/csvLine.ts:24-60 | The index loop over the line returns exactly the cells of the specification scanner, for every line and separator. |
| CsvLine.SplitInvertsPrint | app/utils/csvLine.ts:24-60 | Splitting undoes printing: any non-empty list of cells, each quoted as section 2 of RFC 4180 asks or left plain where that is safe (quotes in mid-cell included), joined with any separator other than the quote, splits into the original texts. |
| CsvLine.PlainExactly | app/utils/csvLine.ts:44-59 | A text may be left unquoted exactly when it holds no separator and does not begin with a quote: only then does it split into itself alone. |
| CsvLine.TailCell | app/utils/csvLine.ts:70-74 | The popping loop computes the specified tail for every list of cells and every start. |
| CsvLine.TailRestores | app/utils/csvLine.ts:62-74 | An unquoted last-column text with separators in it comes back from the tail, followed by blank cells or not, exactly unless its own last segment is blank; what comes back in that case is stated too. |
| CsvLine.BlankSegmentLost | app/utils/csvLine.ts:70-74 | A text it does not hold for: a trailing separator is lost. |
| AlfaCsv.ParseAlfaCsv | app/utils/alfaCsvStatement.ts:110-202 | The file loop (header, columns, section machine, turnover check, each refusal) returns what the specification returns, error by error. |
| AlfaCsv.ScanBody | app/utils/alfaCsvStatement.ts:131-198 | The line loop over section, totals and rows equals the machine run over the read lines. |
| AlfaCsv.AssertTurnovers | app/utils/alfaCsvStatement.ts:205-229 | The summing loop refuses exactly as the specified check does. |
| AlfaCsv.DoublesDecideExactly | app/utils/alfaCsvStatement.ts:205-229 | Computed in doubles, under the standard rounding-error model, the check decides as it does over exact amounts: for whole-cent rows and totals with at most 10^13 units of currency as the product of their number and total magnitude. |
| AlfaCsv.AcceptedExactly | app/utils/alfaCsvStatement.ts:177-184 | The machine accepts a file if and only if every operation line stands in an open debit or credit section. |
| AlfaCsv.RowDirections | app/utils/alfaCsvStatement.ts:132-198 | Rows correspond one to one with operation lines, in order, and each has the direction of the section open at its line, where openness is defined on the lines alone. |
| AlfaCsv.HeaderExactly | app/utils/alfaCsvStatement.ts:76-82 | The header is the first line that holds both titles, each with a separator behind it. |
| AlfaCsv.FirstMissing | app/utils/alfaCsvStatement.ts:118-130 | A header is refused exactly when one of the eight titles is not in it, naming the first such. |
| AlfaCsv.RefusedExactly | app/utils/alfaCsvStatement.ts:113-209 | When each refusal is given: no header, a missing title, an operation outside a section, no totals. |
| AlfaCsv.OperationUnderTitles | app/utils/alfaCsvStatement.ts:138-198 | A line is an operation exactly when its first cell is a date; each of its fields is then the cell under the title of that field, and the purpose runs from there to the end. |
| AlfaCsv.DottedReads | app/utils/alfaCsvStatement.ts:141-145 | A real day with dots, padded or not, reads as that day in the order of ISO 8601. |
| AlfaCsv.OnlyDottedReads | app/utils/alfaCsvStatement.ts:141-145 | Nothing else reads as a day. |
| AlfaCsv.TotalUnderTitle | app/utils/alfaCsvStatement.ts:154-166 | A line is a total of a side exactly when it has no date, the words of a turnover and the word of that side (the debit first), and a readable amount under the title of amounts; that amount is its figure. |
| AlfaCsv.OtherLines | app/utils/alfaCsvStatement.ts:154-175 | What every other line is: a balance closes the section, the word of a side opens that side's, anything else is passed over. |
| AlfaCsv.TotalsExactly | app/utils/alfaCsvStatement.ts:158-166 | Each printed total is the value of the last total line of its own side, and is missing exactly when there is no such line. |
| AlfaCsv.DeletionExactly | app/utils/alfaCsvStatement.ts:205-229 | Taking any operation line out of an accepted file is refused as a turnover mismatch unless its amount is unreadable or stays within what the rounding of its direction's turnover takes up; the file is otherwise accepted without that row. |
| AlfaCsv.LostOperationCaught | app/utils/alfaCsvStatement.ts:110-202 | The same at the level of the text, for every operation line of an accepted file; a readable amount of a cent or more, whatever its decimals, is always caught. |
| AlfaCsv.LossByAmount | app/utils/alfaCsvStatement.ts:212-229 | What the loss comes to by the amount alone: a cent or more is always noticed, an unreadable or zero amount never, and a whole-cent amount exactly when it is not zero. |
| AlfaCsv.ThousandthUnnoticed | app/utils/alfaCsvStatement.ts:219-220 | A lost operation that goes unnoticed: a file with one amount of 0.001 and printed turnovers of zero is accepted with it and without it. |
| AlfaCsv.NormalizeAlfaCsvRows | app/utils/alfaCsvStatement.ts:238-288 | The normalizing loop emits items and counters as the row-by-row verdicts say. |
| AlfaCsv.NormalizePartitions | app/utils/alfaCsvStatement.ts:246-287 | Every row becomes exactly one item, one non-payment or one unreadable row. |
| AlfaCsv.TurnoversConserved | app/utils/alfaCsvStatement.ts:205-288 | With no unreadable row, the emitted operations of a direction sum to the bank's printed turnover: exactly for whole-cent amounts, within half a cent a row otherwise. |
| AlfaCsv.TurnoverLinesConserved | app/utils/alfaCsvStatement.ts:158-288 | The same from the lines: the emitted operations of a side sum to what its last total line prints. |
| AlfaCsv.AcceptedFile | app/utils/alfaCsvStatement.ts:110-288 | And from the text of an accepted file: the operations of a side sum to the figure under the title of amounts in the last line below the header that prints a total of that side. |
| AlfaCsv.NoTotalRefused | app/utils/alfaCsvStatement.ts:205-211 | A file without such a line of either side is refused. |
| AlfaCsv.JudgedExactly | app/utils/alfaCsvStatement.ts:246-270 | A row is an operation exactly when it has a date, a readable amount of a cent or more, and a known currency; it is no payment exactly when the amount rounds to nothing; amount and currency of the operation are stated. |
| AlfaCsv.LineEmits | app/utils/alfaCsvStatement.ts:138-284 | From a line to its operation: each field from under its own title, the id of date and number, the account of the caller before that of the file. |
| AlfaCsv.CopiesConserved | app/utils/alfaCsvStatement.ts:219-248 | Why whole cents: every number of copies of a row is emitted for what its turnover rounds to if and only if the amount is of whole cents. |
| AlfaCsv.HalfCentsInflate | app/utils/alfaCsvStatement.ts:212-253 | Why the exact form needs whole cents: two printed half cents pass the check at one cent and are emitted as two. |
| ClientBankText.ParseClientBankText | app/utils/clientBankText.ts:91-179 | The line loop with its mutable sections and row index returns what the specification returns, refusals included. |
| ClientBankText.PairReads | app/utils/clientBankText.ts:64-69 | A printed key line reads back as its key and value; only the first equals sign separates. |
| ClientBankText.ParsePrinted | app/utils/clientBankText.ts:91-179 | Printing any well-formed sectioned statement, with either line break, and parsing it gives back its header line and its sections. |
| ClientBankText.FieldsClosure | app/utils/clientBankText.ts:144-174 | Header, footer and the catch-all hold, under every key, what was last written to it directly or through an alias, and nothing else. |
| ClientBankText.RowsClosure | app/utils/clientBankText.ts:152-171 | Rows correspond one to one with DocDate lines, and each holds exactly what the lines from its own DocDate to the next wrote. |
| ClientBankText.RowsMatchDatesExactly | app/utils/clientBankText.ts:126-171 | For any text: rows and DocDate lines of the output section agree in number if and only if those lines stand under one tag; a repeated tag starts again at the first row. |
| ClientBankText.RepeatedTagOverwrites | app/utils/clientBankText.ts:126-171 | Two output tags with a DocDate each leave one row, holding the second document. |
| ClientBankStatement.NormalizeClientBankRows | app/utils/clientBankStatement.ts:292-310 | Every row becomes exactly one positive-amount operation, in file order, with its counterparty, purpose and dates, or one counted non-payment. |
| ClientBankText.LongHeaderReads | app/utils/clientBankText.ts:112-124 | A header line with one more mark in it has its title behind that. |
| ClientBankReading.RowSays | app/utils/clientBankText.ts:152-171 | Each row holds, under each key, what the last of its own lines wrote there, and nothing under the others; which lines write where is told without the tables of the parser. |
| ClientBankReading.FieldsSay | app/utils/clientBankText.ts:144-174 | The same for header, footer and the catch-all. |
| ClientBankReading.OperationSays | app/utils/clientBankStatement.ts:228-264 | Each descriptive field of an operation comes from its own key of the row. |
| ClientBankReading.IdsSay | app/utils/clientBankStatement.ts:122-135 | The id is the first of two keys that is not blank, or number and date; the bank's code the first of two, if it looks like one. |
| ClientBankReading.BankCodeExactly | app/utils/clientBankStatement.ts:137-141 | A bank's code is six letters and two or five letters or digits. |
| ClientBankReading.CurrencyExactly | app/utils/clientBankStatement.ts:88-113 | The currency is what the first of seven places says that says anything. |
| ClientBankReading.RowCurrencyExactly | app/utils/clientBankStatement.ts:213 | A row's own mark goes before the statement's currency. |
| ClientBankReading.BelarusianExactly | app/utils/clientBankStatement.ts:60-63 | An account is Belarusian by two letters in front, in either case, or by thirteen digits. |
| ClientBankReading.PlainFieldsExactly | app/utils/clientBankStatement.ts:189-197 | The plain fields hold the account's currency exactly for type 6 where the first of four places of the mark that is there is blank, or none is. |
| ClientBankReading.NationalAmount | app/utils/clientBankStatement.ts:153-227 | In a national statement side and amount come from the first of three fields of a side that is not blank. |
| ClientBankReading.ShapesExactly | app/utils/clientBankStatement.ts:19-26 | Which texts are days and which are times. |
| ClientBankReading.DayTurned | app/utils/clientBankStatement.ts:19-26 | A day is read day first and written year first. |
| ClientBankStatement.DateExactly | app/utils/clientBankStatement.ts:19-26 | A date is read from exactly the texts of a day, alone or with white space and a time behind it, padded or not, and for what they spell. |
| ClientBankStatement.OperDateExactly | app/utils/clientBankStatement.ts:248-262 | The date of the document is given if and only if it names another day than the acceptance, or a time. |
| ClientBankStatement.PaymentsExactly | app/utils/clientBankStatement.ts:292-310 | The rows turned into operations are exactly those of non-zero amount, in increasing position. |
| ClientBankStatement.ForeignAmountFromQ | app/utils/clientBankStatement.ts:143-227 | A foreign statement never takes a national-currency figure: the amount is exactly the quantity field of the side that the debit fields show, and the plain fields decide nothing but that side. |
| ClientBankStatement.AccountAmountFromPlain | app/utils/clientBankStatement.ts:157-227 | Where the plain fields hold the account currency the amount is theirs; the debit quantity counts only while both plain debit fields are blank, and then makes the row a debit of nothing. |
| ClientBankStatement.CreditLostExactly | app/utils/clientBankStatement.ts:157-227 | There a row with a positive plain credit is lost if and only if both plain debit fields are blank and its debit quantity is positive. |
| ClientBankStatement.CreditLost | app/utils/clientBankStatement.ts:153-227 | Such a row: a credit with a debit quantity beside it is counted as no payment. |
| DayValue.IsoDayExactly | app/utils/dayValue.ts:17-22 | A string is accepted exactly when it spells a real Gregorian day of the years 0100 to 9999, by the date arithmetic of ECMA-262, section 21.4.1. |
| DayValue.EarlyYears | app/utils/dayValue.ts:19-21 | Years 0 to 99 are rejected because the UTC constructor takes them for years from 1898 on. |
| DayValue.StringOrderIsDayOrder | app/utils/dayValue.ts:4-8 | On accepted strings, string order and equality are day order and equality. |
| DayValue.IsoTextRoundTrip | app/utils/dayValue.ts:24-28 | Calendar parts and accepted strings are in bijection. |
| DayValue.IsoDayFromMsNames | app/utils/dayValue.ts:30-33 | The day named for an instant is the UTC day that contains it. |
| DayValue.PollDayExactly | app/utils/dayValue.ts:43-48 | A day may be fetched if and only if it is real and 0 to 730 days old; the two refusals by age are characterized the same way. |
| Money.PrintedAmountReads | app/utils/money.ts:40-60 | An amount printed with spaces or the other sign between thousands and either decimal sign reads as the number it spells. |
| Money.WholeAmountReads | app/utils/money.ts:40-60 | A whole amount, with spaces between thousands or none, reads as the number it spells, and with a minus in front as its negative. |
| Money.ToMinorUnitsExact | app/utils/allocation.ts:105-109 | Under the standard rounding-error model (IEEE 754-2019, section 4.3.1), minor units of the nearest double to any amount below 2^50 cents are its exact cents. |
| Money.MinorUnitsCompareExactly | app/utils/allocation.ts:116-122 | So two such amounts compare equal exactly when their cents are equal. |
| Money.AccumulateThenRound | app/utils/importStats.ts:91-111 | Accumulating n doubles of total magnitude S cents, with n times S at most 10^15 (10^13 in units of currency), and rounding once gives the exact sum of cents. |
| Text.TextsApart | app/utils/feedback.ts:31-35 | Sequences of 16-bit code units and the strings that stand for them correspond one to one and have the same lengths: every length here counts code units. |
| Feedback.EscapeIsPerCharacter | app/utils/feedback.ts:37-40 | The three replacements, one after the other, equal a per-character map, on every text. |
| Feedback.EscapeInert | app/utils/feedback.ts:37-40 | Escaped text holds no angle bracket and is at most five times as long. |
| Feedback.CutIsEscapedPrefix | app/utils/feedback.ts:167-172 | Truncating escaped text anywhere and dropping the torn entity gives the escape of a prefix of the raw text, and the longest one that fits. |
| Feedback.FileContentInert | app/utils/feedback.ts:161-172 | What lands in the block is the escape of a prefix of the capped file, whole or followed by the truncation note, and stays under the cap. |
| Feedback.ContextInert | app/utils/feedback.ts:147-150 | A context value brings no backtick and no line break of its own, and at most 300 characters. |
| Feedback.BodyWithinLimit | app/utils/feedback.ts:193-217 | The issue body stays below 65536 code units for every comment, context and file, with 1500 to spare. |
| FeedbackReport.EscapeReads | app/utils/feedback.ts:37-40 | Escaping loses nothing: read as HTML, the text is what it was. |
| FeedbackReport.StripExactly | app/utils/feedback.ts:19-28 | A hostile character goes wherever it stands, and every other one stays where it is. |
| FeedbackReport.HostileExactly | app/utils/feedback.ts:19-24 | Of the characters below the space all but tab, line feed and carriage return are hostile, and of the others exactly the direction controls and invisible ones. |
| FeedbackReport.CommentShown | app/utils/feedback.ts:193-215 | The body begins with the rating and, between the two tags, the comment as sanitized and trimmed: read as HTML it is that comment, and the placeholder stands there exactly when it is blank. |
| FeedbackReport.CommentReadsBack | app/utils/feedback.ts:30-35 | A comment with nothing hostile in it, not too long and not padded, is read as it was written. |
| FeedbackReport.ContextExactly | app/utils/feedback.ts:199-205 | The context holds a line for each value that is not blank, under its own title and in order, and no other. |
| FeedbackReport.ContextShown | app/utils/feedback.ts:206-216 | It stands below the comment, under its heading; without a value there is no heading. |
| FeedbackReport.FlatPlain | app/utils/feedback.ts:147-150 | A plain context value is shown as it was given, as far as its first three hundred characters. |
| FeedbackReport.BreaksBecomeSpace | app/utils/feedback.ts:147-149 | A run of line breaks and tabs in one becomes a single space. |
| FeedbackReport.FileShown | app/utils/feedback.ts:161-172 | A statement that fits both caps is shown whole, and otherwise as much of it as fits, with the note that says so. |
| FeedbackReport.EmbedShown | app/utils/feedback.ts:161-185 | A file with any text in it is embedded between the tags, and no other is. |
| FeedbackRetention.RedactionComplete | app/utils/feedbackRetention.ts:45-61 | On every body: no statement block is left, a second sweep changes nothing, and a sweep changes the body exactly when it held a block. |
| FeedbackRetention.FirstBlock | app/utils/feedbackRetention.ts:40-54 | Up to the first block text is copied; the block, to its nearest closing, becomes the marker; scanning goes on after it. |
| FeedbackRetention.QuickTestHarmless | app/utils/feedbackRetention.ts:50-54 | The early return on a missing summary tag never hides a block. |
| FeedbackRetention.StatementLeavesNoTrace | app/utils/feedbackRetention.ts:40-54 | Whatever the comment and the context fields hold, a body built with a file is found and cleaned, and two bodies that differ only in the file become the same text: nothing of the statement survives. |
| FeedbackRetention.ReportKeptIntact | app/utils/feedbackRetention.ts:5-9 | The rest of the report is kept to the letter, with the marker in place of the block, if and only if no context value spells out the opening of a block. |
| FeedbackRetention.NameDragsReport | app/utils/feedbackRetention.ts:40-54 | A report that is not kept: a file named like the opening of a block takes everything after its name with it, the line of the version included. |
| FeedbackRetention.PlanRetention | app/utils/feedbackRetention.ts:91-103 | The planning loop lists one redaction per purgeable issue, in order. |
| FeedbackRetention.SweptExactly | app/utils/feedbackRetention.ts:80-103 | Writing the plan back redacts exactly the issues that are closed and have been for the window, takes every statement out of them, and leaves none for a later sweep or a longer window. |
| DistributionSp.OneNormalForm | app/config/distributionSp.ts:129-147 | The name a field is created under, the stored name and the camel name compare as one, for every id and every postfix. |
| DistributionSp.CamelInjective | app/config/distributionSp.ts:290-296 | Over upper-case letters, digits and underscores with no digit where a word begins, two camel names are equal if and only if the ids are and the postfixes have the same words. |
| DistributionSp.CamelNamesApart | app/config/distributionSp.ts:290-296 | For postfixes of non-empty words the camel name determines id and postfix. |
| DistributionSp.DigitWordsMerge | app/config/distributionSp.ts:290-296 | A later word that does begin with a digit never shows: the name is that of the two words run together, whatever stands before and after. |
| DistributionSp.FirstDigitMoves | app/config/distributionSp.ts:290-296 | A first word that begins with a digit moves into the id: the name is also that of the id without its last digit. |
| DistributionSp.DigitBeginsMeets | app/config/distributionSp.ts:290-296 | So every postfix with a digit where a word begins shares its camel name with another id or with other words: the condition of the injectivity cannot be widened. |
| DistributionSp.DigitsBreakCamel | app/config/distributionSp.ts:290-296 | Such a pair: two postfixes, one camel name. |
| DistributionSp.PaymentFieldsApart | app/config/distributionSp.ts:54-103 | The thirteen payment fields have thirteen normal forms. |
| DistributionSp.RowFieldsApart | app/config/distributionSp.ts:106-128 | The eight ledger row fields have eight normal forms. |
| DistributionSp.PlanExactly | app/config/distributionSp.ts:347-356 | From a listing that spells the present fields in any of the three forms, the plan creates exactly the absent ones, in table order. |
| DistributionSp.PlannedFor | app/config/distributionSp.ts:309-356 | A planned call is for a field listed in no form, under its long name at the type, with two digits behind the point exactly if it is an amount. |
| DistributionSp.PlanResumes | app/config/distributionSp.ts:340-356 | Stopped after any number of calls, the next plan is exactly the rest; after all of them it is empty and every field is there. |
| SpSettings.KeepStoredSpIds | app/config/distributionSp.ts:499-513 | The two loops produce managed keys as stored and all other keys as sent. |
| SpSettings.FormsNeverTouchIds | app/config/distributionSp.ts:487-513 | Over every run of provisioning and form saves, the managed ids are those of the run without the forms. |
| SpSettings.RefsSurviveForms | app/config/distributionSp.ts:452-479 | Once provisioned, both process references are found after any number of stale saves, and every other key is what the last form sent. |
| DistributionLedger.RowReadsBack | app/utils/distributionLedger.ts:77-102 | A written distribution row parses back as it was meant: target, cents, currency, source, active, parent. |
| DistributionLedger.PaymentCells | app/utils/distributionLedger.ts:383-410 | A new payment element holds total, currency, the whole total still to distribute and the marker, whatever registry and outer fields add. |
| DistributionLedger.BuildRegistryFieldPayload | app/utils/distributionLedger.ts:442-450 | The registry loop writes each non-blank fact, trimmed, to its own column. |
| DistributionLedger.RegistryTouchesOnlyItsColumns | app/utils/distributionLedger.ts:423-450 | No registry fact lands in a money, state, marker or built-in column. |
| DistributionLedger.FiltersMean | app/utils/distributionLedger.ts:119-142 | The equality filters of the active-row and target-row lists mean what their names say, column by column. |
| DistributionLedger.SummaryExact | app/utils/manualAllocation.ts:62-69 | The remainder is exactly the total less the active rows of its currency, never below zero; the tolerance never matters; and nothing is lost between distributed and remaining. |
| LedgerWrite.LoadAll | server/utils/distributionLedgerWrite.ts:133-148 | The page loop brings back every match, up to a hundred pages. |
| LedgerWrite.EnsurePaymentElement | server/utils/distributionLedgerWrite.ts:117-130 | Find or create, by marker: the resulting store, id and flag. |
| LedgerWrite.WriteDistributionRow | server/utils/distributionLedgerWrite.ts:90-102 | The same for a row. |
| LedgerWrite.RecomputeNeedDistribution | server/utils/distributionLedgerWrite.ts:155-168 | Reads the active rows, writes the remainder and returns it. |
| LedgerWrite.ReconcileTargetDeletion | server/utils/distributionLedgerWrite.ts:222-259 | The three loops deactivate the rows, group the parents and recompute each: the whole new store, and the three counts reported. |
| LedgerWrite.WriteLedgerAllocation | server/utils/distributionLedgerWrite.ts:279-311 | Element, row and remainder of one allocation: the whole new store, both ids, the remainder, and whether the row is new. |
| LedgerWrite.WriteTriggerLedgerFact | server/utils/distributionLedgerWrite.ts:327-357 | Element and zero-amount row of a trigger: the whole new store. |
| LedgerFacts.AllocationRow | server/utils/distributionLedgerWrite.ts:279-311 | A new allocation leaves its row, last, which reads back as an active automatic row of the whole amount, its currency, its target and its payment, under the marker of the fact. |
| LedgerFacts.TriggerRow | server/utils/distributionLedgerWrite.ts:327-357 | A new trigger leaves such a row of no money. |
| LedgerFacts.FactWrittenExactly | server/utils/distributionLedgerWrite.ts:90-102 | A fact that is new adds that row behind everything else, and one that is not adds nothing. |
| LedgerFacts.RegistryPlaced | app/utils/distributionLedger.ts:412-450 | Each of the eight facts of a statement is in its own column of a new element, trimmed, and a blank one in none. |
| LedgerFacts.OuterPlaced | app/utils/distributionLedger.ts:383-410 | Title, outer key, company and responsible are there exactly if they are given. |
| LedgerFacts.CarrierHolds | server/utils/distributionLedgerWrite.ts:288-293 | The element a fact brings with it has the operation's money and key, and nothing of the registry. |
| LedgerFacts.CarrierReads | app/utils/distributionLedger.ts:195-208 | A new element is read back with its total and currency, and unflagged. |
| LedgerFacts.RowAssigned | app/utils/distributionLedger.ts:77-101 | A row names its responsible exactly when one is given. |
| LedgerFacts.FillExactly | app/utils/distributionLedger.ts:463-476 | Filling registry columns later updates this element in exactly the facts that are not blank, and asks nothing without any. |
| LedgerFacts.NeverFlagged | server/utils/distributionLedgerWrite.ts:236-258 | Over every run no row is a manual one and no payment is ever marked as requiring redistribution. |
| LedgerRuns.RemainingIsDue | app/utils/distributionLedger.ts:225-227 | What a recompute writes is the total less the active rows it read, never below zero; it is what is due on the payment if and only if the rows past the page cap carry nothing on balance or both sums use the total up, and so whenever the rows fit. |
| LedgerRuns.FreeingTouches | server/utils/distributionLedgerWrite.ts:222-259 | Freeing a target deletes no row and no element and touches no column but the rows' status and the payments' two computed columns. |
| LedgerRuns.FreedExactly | app/utils/distributionLedger.ts:250-288 | The rows freed are exactly the target's active rows that name a parent and have fewer of the target's active rows listed ahead of them than the page loop reads. |
| LedgerRuns.FreeingLowers | server/utils/distributionLedgerWrite.ts:203-214 | Freeing lowers each payment's distributed sum, in each currency, by what the target's rows that were read carry; that is by all of the target's own exactly when its rows past the cap carry nothing on balance, and so whenever they fit. |
| LedgerRuns.FreedPayment | server/utils/distributionLedgerWrite.ts:236-258 | Afterwards what is due on a payment is less its share of the rows read; it shows what a recompute makes it show if one of its rows was freed, which is what is due if and only if its own rows past the cap do not matter, and what it showed otherwise; the redistribution flag went up on exactly those that lost a manual row. |
| LedgerRuns.FreeingRightExactly | server/utils/distributionLedgerWrite.ts:222-259 | A right ledger is right after a deletion if and only if on no freed payment the rows past the cap matter. |
| LedgerRuns.FindOrAddKeepsMarkers | server/utils/distributionLedgerWrite.ts:90-130 | Finding before adding keeps at most one item per non-blank marker. |
| LedgerSafety.StepKeeps | server/utils/distributionLedgerWrite.ts:90-357 | Every recording, allocation, trigger, registry fill, target deletion or removal of an element keeps: one element and one row per marker, totals as the bank gave them, no row of an unknown element, and on every payment exactly what is due. |
| LedgerSafety.LedgerAlwaysRight | server/utils/distributionLedgerWrite.ts:90-357 | Hence all of that after every run from an empty portal. |
| LedgerSafety.CrashKeepsCore | server/utils/distributionLedgerWrite.ts:217-220 | A crash between deactivating rows and recomputing spoils only remainders, wherever it strikes. |
| LedgerWrite.LoadCarriers | server/utils/distributionLedgerWrite.ts:419-430 | The listing loop brings back the newest payments, up to two hundred or what a hundred pages hold. |
| LedgerWrite.RecomputeAllPayments | server/utils/distributionLedgerWrite.ts:418-438 | Lists, then recomputes each listed payment from the total its listing showed: the whole new store, and the count. |
| LedgerRecovery.RecomputedExactly | server/utils/distributionLedgerWrite.ts:411-438 | After recomputing all, exactly the payments with fewer newer ones than the listing takes in show what is due after the rows that are read, which is what is due on them if and only if those past the cap do not matter; the others show what they showed. |
| LedgerRecovery.RecoveryExactly | server/utils/distributionLedgerWrite.ts:411-438 | Recomputing all makes the ledger right if and only if each payment is among the newest that the listing takes in and its rows past the cap do not matter, or it is not and was right; where all rows are read, if and only if every payment with a wrong remainder is among the newest. |
| LedgerRecovery.OldestNotRecovered | server/utils/distributionLedgerWrite.ts:358-360 | For every such number there is a run it does not recover: an allocation, as many later payments, the target deleted, and a crash before the recompute. |
| LedgerRecovery.TwoHundredAndOne | server/utils/distributionLedgerWrite.ts:358-360 | With two hundred and one payments, whatever the page size, the oldest is left wrong. |
| LedgerRedelivery.RedeliveryChangesNothing | server/utils/distributionLedgerWrite.ts:271-311 | A redelivered allocation changes nothing at all, in any store, and creates no row. |
| LedgerRedelivery.FactKeysApart | app/utils/allocation.ts:337-342 | Two allocation facts share a marker only if they are one target of operations with one key. |
| LedgerRedelivery.WrittenTwice | server/utils/distributionLedgerWrite.ts:77-102 | Writing a row twice adds it twice exactly when its marker is blank. |
| LedgerRedelivery.OtherAmountDelivered | server/utils/distributionLedgerWrite.ts:279-311 | An operation that shares its key with an earlier one lands on the earlier payment: total and currency there stay, and the remainder becomes what is due of the delivered amount after the rows that are read. |
| LedgerRedelivery.SharedKeyExactly | server/utils/distributionLedgerWrite.ts:279-311 | Told from the rows before the delivery and whether its own row is new: that remainder is what is due on the payment if and only if the delivered amount and the payment's own leave the same, each against its rows, or both leave nothing; in one currency, where all rows are read, if and only if they are the same money or both are used up. |
| LedgerRedelivery.SharedKeyElsewhere | server/utils/distributionLedgerWrite.ts:279-311 | Every other payment stays right, so the ledger is right afterwards if and only if that payment is. |
| LedgerRedelivery.SixtyOfAHundred | server/utils/distributionLedgerWrite.ts:289-308 | A delivery for which it is not: a hundred is recorded, sixty allocated under the same number and date, and the payment shows nothing left while forty is due. |
| LedgerRedelivery.InterleavedWritersDuplicate | server/queue/worker.ts:777-784 | Two writers that both look before either adds leave two elements with one marker. |
| LedgerInterleaving.AddExactly | server/utils/distributionLedgerWrite.ts:90-130 | An add keeps one element and one row for each marker, totals as the bank gave them, and no row of an unknown element, if and only if what it adds is not there. |
| LedgerInterleaving.MoveKeeps | server/utils/distributionLedgerWrite.ts:90-130 | With any number of writers that look and add, and any other call between (remainders of any amount, rows deactivated, flags, registry columns, items deleted by hand, a writer giving up), a call keeps all of that if and only if it is not the add of a writer that was overtaken. |
| LedgerInterleaving.OvertakenBy | server/utils/distributionLedgerWrite.ts:90-130 | A writer that waits is overtaken by nothing but another one's add of the same thing, and stays so until something is deleted. |
| LedgerInterleaving.OvertakenSince | server/utils/distributionLedgerWrite.ts:90-130 | Over any run between its look and its add: overtaken only if another has added the same thing since, and where nothing is deleted, exactly then. |
| LedgerInterleaving.InterleavingKeepsCore | server/utils/distributionLedgerWrite.ts:90-130 | Every interleaving of the calls of any number of writers, from an empty portal, keeps all of that throughout if and only if no writer adds after it was overtaken. |
| LedgerInterleaving.ClearExactly | server/utils/distributionLedgerWrite.ts:90-130 | From any right state, all that can follow before another look stays right if and only if nobody waits to add what is there and no two wait to add one thing. |
| LedgerInterleaving.OwnersKeepCore | server/queue/worker.ts:966-971 | Where each thing is looked for by one writer only, as with a single crm-sync and nothing else, every interleaving keeps all of that. |
| LedgerInterleaving.RegistryWriteDoubles | server/utils/deferredWriteJobs.ts:66-76 | A run that does not: the registry-write queue takes an operation up again while crm-sync allocates it, both look before either adds, and the payment is there twice. |
| LedgerInterleaving.AllocationAsMoves | server/utils/distributionLedgerWrite.ts:279-311 | Writing an allocation is a run of five such calls (look, add, look, add, write the remainder), whatever the other writers wait for and whatever the remainders show. |
| LedgerInterleaving.OthersOnlyUpdate | server/utils/distributionLedgerWrite.ts:222-259 | Freeing a target and recomputing all payments are runs of updates alone, whatever the writers are at. |
| LedgerOverlap.LateWriteExactly | server/api/distribution/recompute.post.ts:36-54 | A recompute that read its rows in one store and writes the remainder in a later one: the payment shows what is due if and only if the rows it read and the active rows now come to the same, or both use the total up. |
| LedgerOverlap.FreedInBetween | server/api/distribution/recompute.post.ts:39-44 | Such a write gone wrong: a target freed between the read and the write of its allocation, and the payment shows nothing left while all of it is due. |
| AutoErase.ThresholdExactly | app/utils/autoEraseActivities.ts:46-62 | The threshold: two more than the whole days of the lookback, five at least and four hundred at most. |
| AutoErase.CutoffExactly | app/utils/autoEraseActivities.ts:64-93 | The boundary is the last midnight of the portal, three hours ahead of Greenwich, that lies the whole threshold behind now. |
| AutoErase.OursExactly | app/utils/autoEraseActivities.ts:136-144 | Which activities are ours and old enough. |
| AutoErase.CutoffThroughText | app/utils/autoEraseActivities.ts:64-93 | The boundary named as a portal day and read back is midnight, portal time, that many days ago. |
| AutoErase.SelectedExactly | app/utils/autoEraseActivities.ts:136-144 | An activity is selected if and only if it is ours, named, of known age and created on a portal day more than the whole threshold ago; it is then older than the threshold in hours. |
| AutoErase.NothingRevived | app/utils/autoEraseActivities.ts:18-23 | In every interleaving of polls, uploads, erases and clock, no poll brings back an operation whose activity auto-erase removed, as long as window and delay lie inside the threshold. |
| AutoErase.SafeExactly | app/utils/autoEraseActivities.ts:46-62 | That condition is exact: outside it a run that revives an operation exists. With polls run on the day they were planned it means a lookback of at most 399 days, with one midnight of delay at most 398. |
| RemoteSearch.MergePages | app/utils/remoteSearch.ts:65-75 | The merging loop equals the specified merge. |
| RemoteSearch.MergedExactly | app/utils/remoteSearch.ts:60-75 | Merging keeps the list in front, adds only incoming items, misses no key and repeats none. |
| RemoteSearch.ReadyExactly | app/utils/remoteSearch.ts:54-58 | A term is searched for exactly when it is empty or long enough. |
| RemoteSearch.MoreExactly | app/utils/remoteSearch.ts:77-91 | Whether more is expected: the flag decides where there is one, else the total, else nothing is. |
| RemoteListing.BrowsedExactly | app/composables/useRemoteSearch.ts:80-139 | Undisturbed, a fresh search and any number of load-mores show that many pages of the server's list, in order, and offer more exactly while there is more, whichever way the server says so; enough of them show all. |
| RemoteListing.FailureShown | app/composables/useRemoteSearch.ts:113-122 | A failed first page empties the list, a failed load-more leaves it; the message, or a standing one, is shown until the next request. |
| RemoteListing.TooShortEmpties | app/composables/useRemoteSearch.ts:80-91 | A term that is too short asks nothing and empties the list at once. |
| RemoteSearch.Search.Run | app/composables/useRemoteSearch.ts:80-98 | A run up to its request: the whole new state, too-short terms included. |
| RemoteSearch.Search.Answer | app/composables/useRemoteSearch.ts:99-122 | The rest of a run when its page comes: the whole new state, stale answers included. |
| RemoteSearch.Search.Fail | app/composables/useRemoteSearch.ts:112-122 | The rest of a run that failed or was aborted: the whole new state. |
| RemoteSearch.OnlyNewestWrites | app/composables/useRemoteSearch.ts:71-76 | Dropping every answer of a superseded run from any interleaving leaves everything but the requests in flight as it was. |
| RemoteSearch.OneTermExactly | app/composables/useRemoteSearch.ts:80-139 | A step keeps the list to rows of one term, the current one once nothing is loading, if and only if it is not the abort of the newest run's first page while the list is another term's. |
| RemoteSearch.DistinctExactly | app/composables/useRemoteSearch.ts:99-111 | A step leaves no key repeated if and only if it empties the list, or the first page it shows repeats none, or, showing none, the list repeated none; merging keeps repeats and adds none. |
| RemoteSearch.EveryRun | app/composables/useRemoteSearch.ts:80-139 | In every interleaving, disposal included: loading holds exactly while the newest run is on its way; the list is of one term throughout if and only if no such abort ever strikes, and none can before disposal; no key is ever repeated if and only if no first page shown repeats one. |
| RemoteSearch.LoadMoreProgress | app/composables/useRemoteSearch.ts:104-111 | Each answered load-more at a positive cursor adds a row or ends paging. |
| RemoteSearch.PagingEnds | app/composables/useRemoteSearch.ts:104-128 | Over a finite result set there are no more effective load-mores than keys not yet shown, and one. |
| RemoteSearch.LoopsAtZero | app/composables/useRemoteSearch.ts:102-111 | At a cursor of zero or below nothing bounds it: one and the same round can repeat for ever. |
| RemoteSearch.DisposalMixesExactly | app/composables/useRemoteSearch.ts:112-139 | Disposing keeps the list to one term in every continuation if and only if no first page is on its way under another term's list. |
| RemoteSearch.DisposalMixesTerms | app/composables/useRemoteSearch.ts:112-139 | A run in which one is: after disposal a load-more adds the new term's rows to the old term's list. |
| RemoteSearch.RepeatedKeyShown | app/composables/useRemoteSearch.ts:103 | A first page that holds one key twice is shown as it is. |
| ImportBatches.Batches.TrackUploads | app/composables/useImportBatches.ts:90-99 | Starting to follow uploads: the whole new state. |
| ImportBatches.Batches.TimerFired | app/composables/useImportBatches.ts:70-72 | A timer firing: the whole new state. |
| ImportBatches.Batches.Answer | app/composables/useImportBatches.ts:55-87 | What follows a request, answered or not: results, next timer or finish. |
| ImportBatches.Batches.ForgetUploads | app/composables/useImportBatches.ts:118-125 | A reset: the whole new state. |
| ImportBatches.UniqueExactly | app/composables/useImportBatches.ts:93 | The tracked ids are those tracked before and the new ones, each once. |
| ImportBatches.StepKeeps | app/composables/useImportBatches.ts:43-125 | Every step keeps: at most one armed timer or live request of the current run, at most 36 firings in a run, polling only while that chain lives, storage equal to what is tracked while the outcome is awaited; and, but for disposal, polling exactly while it lives. |
| ImportBatches.EveryRun | app/composables/useImportBatches.ts:35-130 | The same over every interleaving from a fresh page. |
| ImportBatches.OnlyCurrentWrites | app/composables/useImportBatches.ts:43-47 | Dropping every answer of an earlier run from any interleaving leaves everything but the requests in flight as it was. |
| ImportBatches.AnswerExactly | app/composables/useImportBatches.ts:55-87 | What an answer of the current run leads to, told from the uploads it lists and the clock: the next request is due in five seconds and everything is kept, unless every tracked upload is listed last as done or failed, or three minutes are over and this was not the first; then the run ends, the stored keys go exactly in the first case, and it has timed out exactly in the other. |
| ImportBatches.NoAnswerExactly | app/composables/useImportBatches.ts:55-87 | The same where no answer comes, from what was listed before. |
| ImportBatches.TrackExactly | app/composables/useImportBatches.ts:90-104 | Following more uploads puts each new one once behind those already followed, stores them all, calls off the earlier run and sends a request. |
| ImportBatches.FollowedOnce | app/composables/useImportBatches.ts:90-127 | No upload is ever followed twice. |
| ImportBatches.ResetExactly | app/composables/useImportBatches.ts:117-125 | After a reset nothing is followed, shown, stored or armed, and no answer still on its way belongs to the current run. |
| ImportBatches.OnlyQueued | app/utils/importBatchView.ts:24-34 | An upload with nothing but queued entries, or none, is still awaited. |
| ImportBatches.StoredDropped | app/composables/useImportBatches.ts:80-87 | Stored keys go only on a reset, or at the end of a run in which every tracked upload is listed last as done or failed. |
| ImportBatches.DisposalSilencesExactly | app/composables/useImportBatches.ts:49-127 | Disposing ends all polling, whatever happens next short of a new run, if and only if no request of the current run is in the air with time left for it. |
| ImportBatches.DisposalLeavesTimer | app/composables/useImportBatches.ts:127 | Such a request: answered after disposal, it arms a timer. |
| ImportBatches.TotalsExactly | app/utils/importBatchView.ts:49-62 | Each total is the sum of its own counter over the finished results. |
| ImportBatches.TotalsOfRest | app/utils/importBatchView.ts:49-62 | The totals are sums over finished results in any order; an unfinished one changes nothing. |
| Allocation.CollapseTargets | app/utils/allocation.ts:136-150 | The loop over candidates equals the specified collapse. |
| Allocation.CollapsedExactly | app/utils/allocation.ts:124-150 | Collapsing keeps one candidate for each distinct target that no invoice covers, and nothing else. |
| Allocation.KeptExactly | app/utils/allocation.ts:124-150 | A target stays exactly when some candidate naming it is no payment of a given deal that one of the invoices belongs to. |
| Allocation.SomethingSurvives | app/utils/allocation.ts:136-150 | A non-empty list never collapses to nothing. |
| Allocation.CompareIsOrder | app/utils/allocation.ts:260-265 | On any ids the comparison is a total order if and only if no id that is no number stands, as text, between two numbers that are in the other order as texts. |
| Allocation.UniformComparable | app/utils/allocation.ts:260-265 | Ids that are all finite numbers, or all none, are so ordered, whatever their length. |
| Allocation.MixedIdsCircle | app/utils/allocation.ts:260-265 | Three ids for which it is not. |
| Allocation.NumberOrderExactly | app/utils/allocation.ts:258-265 | Two ids of digits are in the order of the numbers they spell if and only if they do not read alike while their texts are in the other order. |
| Allocation.SixteenDigitsConfused | app/utils/allocation.ts:258-287 | Two ids past the exact numbers that do: the greater one is allocated. |
| Allocation.ResolvedExactly | app/utils/allocation.ts:274-287 | For any ids: no candidates, no exact match, or one of the distinct eligible targets, flagged if and only if there are two or more, the alternatives being the rest; it is one of least id whenever their ids are comparable. |
| Allocation.EligibleMatches | app/utils/allocation.ts:105-122 | A candidate is eligible exactly when its currency is the payment's, however padded and cased, and both amounts round to the same cents. |
| Allocation.MatchesNear | app/utils/allocation.ts:105-122 | Such amounts are less than a cent apart, and equal if they are of whole cents. |
| Allocation.DecidedByMoney | app/utils/allocation.ts:274-287 | By currency and cents alone: a payment is allocated if and only if some candidate has both, and only to such; without one it is left to a person. |
| Allocation.LeastNumber | app/utils/allocation.ts:268-287 | With ids read for exactly what they spell, the target has the least number of all. |
| Allocation.OrderIrrelevant | app/utils/allocation.ts:274-287 | Permuting or repeating candidates changes neither the kind of decision, nor the flag, nor the targets named, nor, when their ids are comparable, the allocated id. |
| Allocation.TargetFixedExactly | app/utils/allocation.ts:274-287 | Which target is allocated does not depend on the order or repetition of the candidates if and only if the least id names one target; when it names two, some permutation allocates another. |
| Allocation.TieFollowsOrder | app/utils/allocation.ts:283-286 | Such a pair: an invoice and a deal payment of one id. |
| Allocation.CoveredPaymentInvisible | app/utils/allocation.ts:124-150 | A deal payment of a deal that an eligible invoice stands for changes nothing in the decision, wherever it is listed. |
| Allocation.OutcomeExactly | app/utils/allocation.ts:309-328 | Each of the four outcomes is characterized by the candidates alone, for any ids. |
| Allocation.OutcomeByMoney | app/utils/allocation.ts:309-328 | The outcome by kind, currency and cents alone. |
| Allocation.SummaryOrderIrrelevant | app/utils/allocation.ts:309-328 | Outcome and number of trigger targets do not depend on the order of the candidates, for any ids. |
| Allocation.TriggerNamesApart | app/utils/allocation.ts:312-316 | Counting trigger names counts trigger targets. |
| Allocation.TriggersCounted | app/utils/allocation.ts:312-316 | The count of triggers is that of the distinct deals and smart-process items found, however often each was. |
| Allocation.OrderFilterExactly | app/utils/allocation.ts:192-221 | A payment belongs to an order if and only if its number is the order's, a slash, and a last part without one. |
| B24Events.ParseBracketForm | app/utils/b24Events.ts:82-102 | The loop over pairs builds the specified tree. |
| B24Events.PathRoundTrip | app/utils/b24Events.ts:85-86 | Reading an encoded path gives the path. |
| B24Events.ParsedLeaf | app/utils/b24Events.ts:82-102 | For every list of pairs, leaf by leaf: the last pair that has to do with a path decides, its value standing there if it names that very path. |
| B24Events.DecodeEncode | app/utils/b24Events.ts:71-102 | The pairs of any tree with allowed keys and no empty subtree, in any order, decode to the tree. |
| B24Events.ParsedClean | app/utils/b24Events.ts:67-87 | Whatever is posted, no polluting key occurs at any depth. |
| B24Events.PollutingExactly | app/utils/b24Events.ts:67-87 | The polluting keys are these three and no others. |
| B24Events.SafeEqual | app/utils/b24Events.ts:117-124 | The walk over both strings without early exit tells exactly whether they are equal. |
| B24Events.VerifyApplicationToken | app/utils/b24Events.ts:131-134 | A token authenticates exactly when it is stored, not blank, and the same. |
| BankToken.CauseExact | app/utils/bankTokenLifetime.ts:237-281 | Over every run of a stored connection, the bank is named as the cause exactly when something was tried or refused after the last good pair. |
| BankToken.KeepAliveKeepsAlive | app/utils/bankTokenLifetime.ts:108-124 | With ticks at most half a lifetime apart and no consent lapsed, a connection is never expired at any moment. |
| BankToken.DeathSince | app/utils/bankReaper.ts:46-61 | The collected marks give the specified date. |
| BankToken.DeathDateFixed | app/utils/bankReaper.ts:46-61 | The death date is a date known beforehand, once it has come; it never moves. |
| BankToken.DeathsAgree | app/utils/bankDisconnectNotice.ts:35-43 | A dated death is an expiry with a reason; an expiry without a date, or without a reason, is exactly the bank's own refusal and nothing else. |
| BankToken.ReasonExactly | app/utils/bankDisconnectNotice.ts:35-43 | Which reason is given, by the marks and the clock. |
| BankToken.ReasonAgrees | app/utils/bankDisconnectNotice.ts:27-43 | A missing token is a state of its own; the other two reasons are the dated deaths, with their dates. |
| BankToken.HealthByAge | app/utils/bankTokenLifetime.ts:211-235 | The state of a connection with nothing against it, by provider and age. |
| BankToken.HealthByMarks | app/utils/bankTokenLifetime.ts:211-235 | What goes before the age: the consent, the token, the bank's refusal. |
| BankToken.DeadDaysExactly | app/utils/bankReaper.ts:64-67 | Whole days since the death, none before it. |
| BankToken.AbandonedExactly | app/utils/bankTokenLifetime.ts:378-395 | When a waiting connection is abandoned. |
| BankToken.AbandonedStays | app/utils/bankTokenLifetime.ts:378-395 | Abandonment is lasting, spares for a day what is not proven dead, and never touches a connection with an account. |
| BankHealthOverview.SummarizeBankHealth | app/utils/bankHealthOverview.ts:141-255 | One pass over the rows gives the specified counts, labels and lists, each sorted. |
| BankHealthOverview.OverviewOrderIrrelevant | app/utils/bankHealthOverview.ts:237-253 | The overview does not depend on the order in which rows of distinct ids come in. |
| BankHealthOverview.OverviewAddsUp | app/utils/bankHealthOverview.ts:311-323 | The five states and the waiting rows partition all rows; the attention list has exactly as many entries as there are unhealthy connections, and as many labels as portals need someone. |
| BankHealthOverview.LabelsExactly | app/utils/bankHealthOverview.ts:219-242 | The labels are those of the portals on the attention list and of no others. |
| BankHealthOverview.ExpiredFirst | app/utils/bankHealthOverview.ts:243-247 | The attention list shows what has expired ahead of what has no refresh token. |
| BankHealthOverview.ListsShareNoRow | app/utils/bankHealthOverview.ts:193-227 | No row is in both lists. |
| BankHealthOverview.PendingExactly | app/utils/bankHealthOverview.ts:172-187 | Rows waiting for an account are counted by the prefix of their key alone, their portals once each. |
| BankHealthOverview.StatesExactly | app/utils/bankHealthOverview.ts:188-192 | Every other row is counted in the state it is in, its portal once for each state. |
| BankHealthOverview.TotalsExactly | app/utils/bankHealthOverview.ts:215-237 | All rows, all portals, and the portals with an expired connection or one without a refresh token. |
| BankHealthOverview.AttentionExactly | app/utils/bankHealthOverview.ts:215-227 | The attention list holds exactly the connections that have an account and are expired or without a refresh token, each with its label, bank, state and days since its death. |
| BankHealthOverview.SubscriptionsExactly | app/utils/bankHealthOverview.ts:171-214 | The other list holds exactly the rest of the connections of portals whose subscription is over, one without an account shown with no state of its own. |
| BankHealthOverview.LongestSilentFirst | app/utils/bankHealthOverview.ts:248-252 | That list goes by days of silence downwards, then by label, then by id. |
| Ordering.OneSorting | app/utils/bankHealthOverview.ts:242-253 | A list has one permutation in ascending order of a total order: what is sorted does not depend on the sorting algorithm. |
| ImportStats.CollectTotals | app/utils/importStats.ts:92-107 | The loop over items leaves, for each currency there is, its exact sums and counts. |
| ImportStats.CollectDays | app/utils/importStats.ts:74-85 | The loop leaves, for each usable day of the currency, its exact sums. |
| ImportStats.DayExactly | app/utils/importStats.ts:59-63 | The day of an operation is the document's, else the posting's: the first ten characters if they are spelled as a day. |
| ImportStats.AmountExactly | app/utils/importStats.ts:68-70 | A negative amount counts as nothing, any other as it is. |
| ImportStats.ComputeImportStats | app/utils/importStats.ts:92-132 | Every currency once and in order; the dominant one has the most operations and is the first of its equals; its days once and in order. |
| ImportStats.OperationsAddUp | app/utils/importStats.ts:92-111 | Every operation is counted in exactly one currency. |
| ImportStats.RoundingLosesNothing | app/utils/importStats.ts:108-111 | Of whole-cent amounts the rounding takes nothing away. |

## Left out

Weaker than one might expect:

- LedgerSafety.LedgerAlwaysRight: one operation key means one amount and one currency (a shared key is LedgerRedelivery.SharedKeyExactly); operations run one after another (LedgerInterleaving.InterleavingKeepsCore takes them apart, LedgerOverlap.LateWriteExactly says what becomes of a remainder); rows deleted by hand and manual distribution plans are not events of a run; no payment has more active rows than a hundred pages hold (past that, LedgerRuns.RemainingIsDue and LedgerRuns.FreeingRightExactly); amounts are not negative.
- LedgerSafety.StepKeeps: as above.
- Money.ToMinorUnitsExact: a double is any real within the relative error of the standard model, not a bit pattern.
- Money.AccumulateThenRound: the same, and underflow and overflow are outside that model.
- Allocation.ResolvedExactly: which id is allocated is claimed for comparable ids only; on circular ones it depends on the sorting algorithm of the engine.
- RemoteSearch.PagingEnds: for positive cursors only; below, it is false (see RemoteSearch.LoopsAtZero).
- ImportBatches.EveryRun: that polling holds exactly while the chain lives is claimed until disposal only; what may follow a disposal is ImportBatches.DisposalSilencesExactly.
- LedgerInterleaving.InterleavingKeepsCore: of remainders it says nothing; manual distribution plans are no calls of an interleaving.
- AlfaCsv.DoublesDecideExactly: a double is any real within the relative error of the standard model.
- DayValue.PollDayExactly: today's day is given as accepted text.
- B24Events.ParseBracketForm: the descent into a mutable tree is modelled on values, so sharing of nodes is not captured.
- B24Events.SafeEqual: that its duration tells nothing is not modelled, and its 32-bit exclusive-or is over unbounded numbers.
- FeedbackRetention.SweptExactly: dates of closing are numbers or absent; reading them from text is not modelled.
- BankToken.KeepAliveKeepsAlive: every due renewal succeeds, and ticks reach every connection that is due; how a tick selects its batch is left out.
- SpSettings.RefsSurviveForms: of `Number` only that it reads back what `String` printed.
- LedgerWrite.ReconcileTargetDeletion: ids come back as numbers; numeric columns that come back as text are left out.
- ImportStats.ComputeImportStats: amounts are finite; one that is not counts as zero in the source.
- Allocation.SixteenDigitsConfused: that `Number` reads both texts as 10^16 is taken from IEEE 754 as a hypothesis.

Not modelled at all:

- REST and OAuth transport, queues, databases, retries, and everything under `server/` but the ledger's writing operations and the planning day of a poll.
- The portal's card layouts, list columns and their order, and the interface's reading side of the ledger.
- Manual allocation plans: their validation and reconciliation.
- The fingerprint of an operation without a document id.
- Number parsing (`Number`, `parseFloat`) beyond printed bank amounts, non-finite numbers, and the regular expressions that read the account header.
- Title and labels of a feedback issue, its kinds, attached binary files.
- Unicode case tables, locale collation, `Intl` formatting, and the sorting of other lists for display.
- Debouncing, Vue reactivity, and failures of session storage; the loss of the portal session while polling counts as no answer.
- Auto-erase: caps by portal, its settings switch, the server-side prefilter, and days outside the years 0100 to 9999.
- Bank connections: grants, retry intervals, warnings of a consent about to end.
- Percent-decoding of posted forms.
- The PDF statement, which depends on a layout extractor.
- Texts, badges, hints and other small tables.

# Receipt reimbursement pipeline: a Dafny model

This project models the core of a meal-receipt reimbursement service. Employees upload photos of meal receipts to per-month folders. For a month, the service works in these steps:

- It reads every receipt with OCR.
- It extracts the date, the employee code, the amount, the company and the meal type, and stages them in a CSV file.
- It reconciles the rows with two employee rosters:
  - fills missing amounts with the meal type's most frequent amount;
  - repairs misread codes;
  - decides eligibility and the reimbursement amount;
  - fills in names and dates;
  - sorts every receipt into one of five categories.
- It appends the result to an archive worksheet and removes duplicate (Date, UserID) rows.

A web API starts such a run as a background job, and a client polls the job's progress entry. Three dashboard queries read the archive back: the filtered rows, the approval counts and the per-employee totals.

The model follows the Python sources file by file:

| file | module | what it holds |
|---|---|---|
| `common.dfy` | `Common` | Text helpers over `seq<char>`: case mapping (the ASCII letters, plus the title case of 'ſ' and 'ı' for `str.capitalize`), `startswith`/`endswith`/`in`, `str.replace`, `str.split()`, integer rendering and parsing, filtering. |
| `values.dfy` | `Frames` | DataFrames as values: a `Frame` is a column order plus rows that map names to cells. It also holds worksheets read back as text (`Table`) and the outcome of reading a worksheet. |
| `ocr_engine.dfy` | `OcrEngine` | Field extraction from one image's words. The staging CSV is a class with the file's existence and lines as fields. |
| `post_processing.dfy` | `PostProcessing` | The reconciliation stages, the matching loop and `remove_duplicates`. The archive worksheet is a class updated in place. |
| `progress_store.dfy` | `ProgressStore` | The job dictionary shared by the API and the service. It is a class whose methods are the dictionary writes, and its ghost `log` records every progress update. |
| `utils.dfy` | `Utils` | The recursive file listing with its extension filter, and the month prompt. |
| `hr_service.dfy` | `HrService` | `process_month_data_with_progress`: batching, progress updates, the OCR loop with its count, the stage order, and the ledger update. |
| `hr_dashboard.dfy` | `HrDashboard` | `_get_filtered_data`, `get_dashboard_metrics` and `get_employee_reimbursements`. |
| `app.dfy` | `App` | The job lifecycle: `process_month`, `get_progress` and `process_month_background`. |

Anything foreign to the repository is a parameter of the model:

- the OCR model, the sentence-embedding similarity and image decoding (the `Models` datatype);
- the date regular expression's search, dateutil's fuzzy parser and `pd.to_datetime`;
- `pd.to_numeric`, `str()` of a float and `astype(str)`;
- `os.path.join` and `os.walk`;
- the contents of the Drive folders and of the worksheets.

A run is a method that takes these parameters. It is proved equal to a function of them (`HrService.RunOf`), which gives its result, its progress log and the archive afterwards. The lemmas state what the source promises about that function.

Where the repository's documentation and the code disagree, the model follows the code:

- Batch progress is not capped. Batch k reports 35 + 10(k-1), so a run with seven batches reports 95 before the 90 of post-processing, and a run with eight or more batches reports more than 100 (`HrService.ProgressOrder`).
- Two different rosters are read. `fill_employee_names` looks up codes in the 'Grazitti Data' worksheet by 'Emp ID'. The matching step merges the 'Employee Data' worksheet on 'UserID'.
- `identify_company` never returns its third branch's joined words (`OcrEngine.IdentifyCompany`).

## Model

| member | source | states |
|---|---|---|
| OcrEngine.ExtractAmount | backend/modules/ocr_engine.py:105-114 | The loop collects the numbers of every token in order, and the result is their maximum. |
| OcrEngine.AmountIsLargestNumber | backend/modules/ocr_engine.py:105-114 | The amount is None exactly when no token holds a digit. Otherwise it is one of the numbers found and no number found exceeds it. |
| OcrEngine.MatchesIffDigit | backend/modules/ocr_engine.py:107-111 | `re.findall` of the amount pattern finds a match in a token exactly when the token holds a digit. |
| OcrEngine.AllNumbersIffDigit | backend/modules/ocr_engine.py:110-112 | The collected list is empty exactly when no token holds a digit. |
| OcrEngine.SignNeedsDecimalPoint | backend/modules/ocr_engine.py:107-112 | In every string, every match that starts with '+' or '-' holds a decimal point: the sign belongs only to the decimal alternative. |
| OcrEngine.SignExamples | backend/modules/ocr_engine.py:107-112 | Two instances: "-5" yields the match "5" (value 5), while "-5.5" yields -5.5. |
| OcrEngine.MaxOf | backend/modules/ocr_engine.py:114 | `max(default=None)`: None iff the list is empty; otherwise an element that no element exceeds. |
| OcrEngine.CodeMatch | backend/modules/ocr_engine.py:118-121 | A token matches iff it starts, ignoring case, with one of TGLP/TGZM/GZM/GLP/TGM/TGP and its leading word run is longer than that prefix. The match is the whole leading word run. |
| OcrEngine.ExtractEmpCode | backend/modules/ocr_engine.py:116-124 | The early-return scan returns the match of the first matching token, or "". |
| OcrEngine.FirstCodeIsFirstMatch | backend/modules/ocr_engine.py:120-124 | The code is "" iff no token matches. Otherwise it is the match of a token that no earlier token precedes as a match. |
| OcrEngine.ExtractDate | backend/modules/ocr_engine.py:126-141 | The candidates are searched in the tokens joined by single spaces, and each is fixed (0ct, 0ec, 0ov) before parsing. The first that parses is returned formatted as %d-%b-%Y. A ValueError skips a candidate, and any other exception leaves the loop. |
| OcrEngine.FirstParsedIsFirstSuccess | backend/modules/ocr_engine.py:132-141 | The date is None iff every fixed candidate raises ValueError. A date is found when a candidate parses after only rejected ones, and it is that candidate formatted. The search raises iff a candidate raises anything else after only rejected ones. |
| OcrEngine.FirstParsedNotFound | backend/modules/ocr_engine.py:132-141 | None iff every fixed candidate raises ValueError. |
| OcrEngine.FirstParsedFound | backend/modules/ocr_engine.py:132-137 | A found date is the formatted first candidate that parses, after only rejected ones. |
| OcrEngine.FirstParsedEscaped | backend/modules/ocr_engine.py:132-139 | An exception other than ValueError escapes iff a candidate raises one after only rejected ones. |
| OcrEngine.FixMonthMisreadsFacts | backend/modules/ocr_engine.py:135 | The fixes keep a candidate's length and leave a candidate holding none of the three misreads unchanged. |
| OcrEngine.FirstMaxIndex | backend/modules/ocr_engine.py:97-98 | `similarities.index(max(similarities))`: a position holding the maximum, with every earlier score strictly smaller. |
| OcrEngine.FindSimilarWords | backend/modules/ocr_engine.py:92-103 | The answer is a word and its own score. No word scores higher, and every earlier word scores strictly lower. With no words the search raises (None). |
| OcrEngine.IdentifyMealType | backend/modules/ocr_engine.py:143-166 | The result is one of the three meal names or "". A meal name needs Special > 0.90, and a thali needs Thali > 0.80. |
| OcrEngine.MealTypeCascade | backend/modules/ocr_engine.py:150-166 | Each label is returned iff its own strict-threshold condition holds and no earlier condition does. "" is returned iff none holds. |
| OcrEngine.IdentifyCompany | backend/modules/ocr_engine.py:168-180 | With no words the search raises (None). Otherwise the result is 'Grazitti Intractive' or "", never the joined words, and it is the company iff grazitti > 0.90, or intractive > 0.95 and grazitti > 0.80. |
| OcrEngine.LowerHalf | backend/modules/ocr_engine.py:44-46 | The half is rows [height // 2, height): it has height - height // 2 rows, each the original row. |
| OcrEngine.LowerHalfKeepsWidth | backend/modules/ocr_engine.py:198-200 | The half keeps the full width, and the rows above the midpoint followed by the half are the image. |
| OcrEngine.ProcessImage | backend/modules/ocr_engine.py:182-242 | Decoding or OCR that fails gives None, and so does a date-parser exception other than ValueError. Otherwise the record holds the five extracted fields, with the amount taken from the lower half's words. |
| OcrEngine.ImageRecordNone | backend/modules/ocr_engine.py:182-242 | An image yields no record iff it cannot be read, OCR raises on it or on its lower half, its text has no word, or the date parser raises something other than ValueError before any candidate parses. |
| OcrEngine.ImageRecordFields | backend/modules/ocr_engine.py:215-237 | A record names its own image and holds the date found, or None when every candidate was rejected. Its meal and company come from the closed label sets. |
| OcrEngine.CsvRow | backend/modules/ocr_engine.py:249-255 | One data row has a cell per header column. |
| OcrEngine.StagingLines | backend/modules/ocr_engine.py:244-255 | A file written from scratch with n records holds the header once followed by n rows, or nothing when n = 0. |
| OcrEngine.StagingFile.SaveToCsv | backend/modules/ocr_engine.py:244-255 | The file exists afterwards. It gains the header only when it did not exist before the call, then exactly one row. |
| OcrEngine.StagingFile.Remove | backend/services/hr_service.py:235-236 | `os.remove`: the file no longer exists and holds nothing. |
| OcrEngine.StagingLinesSnoc | backend/modules/ocr_engine.py:246-255 | Saving one more record to a file written from scratch gives the file written from scratch with that record added. |
| PostProcessing.Worksheet.GetAllValues | backend/modules/post_processing.py:85 | Returns the sheet's cells. |
| PostProcessing.Worksheet.Clear | backend/modules/post_processing.py:108 | The sheet is left empty. |
| PostProcessing.Worksheet.AppendRows | backend/modules/post_processing.py:89-92 | The rows are added after the last row. |
| PostProcessing.PushToSheet | backend/modules/post_processing.py:77-116 | The three cases: an empty sheet gets the header and the rows. A matching header with `append` gets the rows appended. Anything else is cleared and rewritten. A missing spreadsheet changes nothing. |
| PostProcessing.PushedSheetShape | backend/modules/post_processing.py:85-113 | In every case the first row is the columns and the sheet ends with the pushed rows. An append keeps the earlier content as a prefix, and every other case is exactly the header plus the rows. |
| PostProcessing.OverwriteIdempotent | backend/modules/post_processing.py:107-113 | An overwrite does not depend on the earlier content, and overwriting twice equals overwriting once. |
| PostProcessing.NumericAmount | backend/modules/post_processing.py:121 | `pd.to_numeric(errors='coerce')` leaves a number or a missing value, and keeps numbers as they are. |
| PostProcessing.MealAmounts | backend/modules/post_processing.py:129-131 | Every amount collected for a meal type is the non-missing amount of a row with that lower-cased meal. |
| PostProcessing.SmallestMode | backend/modules/post_processing.py:129-137 | `mode().iloc[0]`: None iff there is no amount. Otherwise the result is a most frequent amount, and the smallest of the equally frequent ones. |
| PostProcessing.FilledStep | backend/modules/post_processing.py:135-138 | A meal type's fill keeps every row's meal, so the fills commute into one pass per type. |
| PostProcessing.FillModes | backend/modules/post_processing.py:134-138 | The loop over the three meal types writes each type's mode into the masked rows of that type. |
| PostProcessing.FillMissingAmountWithMode | backend/modules/post_processing.py:119-140 | The mask and the modes are computed before any fill, then applied per meal type. |
| PostProcessing.ModeFillChanges | backend/modules/post_processing.py:124-138 | A row's amount changes only when the row is masked, its lower-cased meal is one of the three types and that type has a mode. It then becomes the smallest mode of the amounts before any fill. All other cells keep their converted values. |
| PostProcessing.RepairCodeCharacters | backend/modules/post_processing.py:144-148 | The repair keeps the length. With a prefix, every 'o' becomes '0' and every 's' becomes '5'; every other character, and every code without a prefix, is unchanged. |
| PostProcessing.PrefixLetters | backend/modules/post_processing.py:146 | None of tglp/tgzm/gzm/glp holds an 'o' or an 's'. |
| PostProcessing.RepairKeepsPrefix | backend/modules/post_processing.py:144-148 | A repaired code still starts with its prefix. |
| PostProcessing.RepairCodeIdempotent | backend/modules/post_processing.py:142-149 | Repairing twice equals repairing once. |
| PostProcessing.ReplaceCharactersInCode | backend/modules/post_processing.py:142-149 | The frame gets a Code column and keeps its row count. |
| PostProcessing.EligibilityAndAmount | backend/modules/post_processing.py:151-166 | Eligibility is 'Yes' iff the meal is present and configured, and 'No' otherwise. The amount is the rate exactly for 'Yes' rows and 0 otherwise. |
| PostProcessing.Lookup | backend/modules/post_processing.py:175 | A roster row found for a key is on the roster and holds that key in its key column. |
| PostProcessing.FirstWithCell | backend/modules/post_processing.py:175 | The row found holds the key. None means that no row holds it. |
| PostProcessing.FillEmployeeNames | backend/modules/post_processing.py:168-181 | The frame always has an 'Emp Name' column afterwards and keeps its rows. |
| PostProcessing.EmployeeNameFill | backend/modules/post_processing.py:171-176 | While no earlier code is held by two roster rows, a code on the roster gets "First Last" of its first roster row, and any other row keeps its name, or "" for a new column. Whatever the roster, the name is a roster name or the row's own. No other cell changes. |
| PostProcessing.FilledName | backend/modules/post_processing.py:175-176 | Row i takes the name of merged row i, written back by position, or keeps its own name when that one is missing. |
| PostProcessing.MergedNamesAligned | backend/modules/post_processing.py:175 | Merged row i is frame row i with its code's first roster name, as long as no earlier code is held by two roster rows. |
| PostProcessing.MergedNamesShift | backend/modules/post_processing.py:175-176 | A code held by two roster rows repeats its frame row in the merge, so the next position carries the second roster row's name. |
| PostProcessing.MergedNamesFromRoster | backend/modules/post_processing.py:174-175 | Every name in the merged column is some roster row's "First Last". |
| PostProcessing.MergedNamesOfCodes | backend/modules/post_processing.py:175 | The merged names depend on the frames' codes alone. |
| PostProcessing.DuplicateEmpIdShiftsNames | backend/modules/post_processing.py:174-176 | With E1 on two roster rows (A X, B Y) and E2 on one (C Z), the frame's second row, coded E2, is named "B Y", not "C Z". |
| PostProcessing.ConvertDates | backend/modules/post_processing.py:186-187 | The conversion fails iff some date cell does not parse. Otherwise every date becomes a timestamp or a missing value. |
| PostProcessing.ExtractDaySpec | backend/modules/post_processing.py:183-192 | Without a Date column the frame comes back unchanged. Otherwise "0" dates are cleared first. When every date then parses, Date is the parsed date and 'day' its day of the month, missing for a cleared "0". When some other date does not parse, the cleared frame comes back with its columns and no 'day' written. No other cell changes, and the row count is kept. |
| PostProcessing.ExtractDayParsed | backend/modules/post_processing.py:186-189 | When every date is "0" or parses, the 'day' column is added and holds the day of each row's parsed date; the other cells but Date are kept. |
| PostProcessing.ExtractDayUnparsed | backend/modules/post_processing.py:186-192 | When some date other than "0" does not parse, the result is the frame with its "0" dates replaced by missing: same columns, same rows, nothing else changed. |
| PostProcessing.MonthYearReshape | backend/modules/post_processing.py:194-213 | When every date is "0" or parses, the frame has exactly the old-format columns. 'Amount Paid' and 'Meal type' are read from 'Amount' and 'Meal', and 'Month Year' is the parsed date's %Y-%b. A "0" date leaves Date and 'Month Year' missing. |
| PostProcessing.ClearedDatesConverted | backend/modules/post_processing.py:197-199 | When every date is "0" or parses, the conversion after clearing the "0" dates succeeds, keeps every column and replaces only each row's Date, with missing for a "0". |
| PostProcessing.SegmentLength | backend/modules/post_processing.py:222 | The captured segment is the maximal run without '/' or '\\'. |
| PostProcessing.UserIdFromSpec | backend/modules/post_processing.py:222 | The search from a position finds a match iff one exists at or after it, and returns the leftmost. |
| PostProcessing.UserIdIsLeftmostMatch | backend/modules/post_processing.py:222 | UserID is the non-empty, separator-free segment after the leftmost match, and is missing iff there is no match. |
| PostProcessing.CategorizeRows | backend/modules/post_processing.py:235-266 | The in-place loop writes each row's outcome. It raises when a backfill meets a frame without 'Emp ID'. |
| PostProcessing.CategorizeRow | backend/modules/post_processing.py:235-266 | One pass of the loop writes row i's outcome and keeps the earlier rows. It raises only when the frame has a backfill and no 'Emp ID'. |
| PostProcessing.ProcessEmployeeMatching | backend/modules/post_processing.py:215-268 | The merge, the "nan" clean-up and the loop together. A missing roster, or one without a 'UserID' column, raises. |
| PostProcessing.CategoryAssignment | backend/modules/post_processing.py:239-264 | The categories in priority order: 2 without a meal type. With a code and an Emp ID: 1 above the threshold, 4 below it (with 'No' and 0), and no change at all when equal. 3 without a code, taking the Emp ID even when it is missing. Only a comment without an Emp ID. Eligibility and amount change only in the mismatch branch. |
| PostProcessing.KeepLastSpec | backend/modules/post_processing.py:270-272 | `drop_duplicates(keep='last')`: the kept rows are an ordered subsequence with distinct keys. Every input key survives, and each kept row is the last row with its key. |
| PostProcessing.KeepLastDistinct | backend/modules/post_processing.py:270-272 | Rows with distinct keys are all kept. |
| PostProcessing.KeepLastIdempotent | backend/modules/post_processing.py:270-272 | Removing duplicates twice equals removing them once. |
| PostProcessing.RemoveDuplicates | backend/modules/post_processing.py:270-272 | The deduplication raises iff 'Date' or 'UserID' is not a column, and otherwise keeps the header. |
| ProgressStore.WithProgress | backend/services/hr_service.py:196-200 | `update_progress` changes only 'progress' and 'status' of its own job. |
| ProgressStore.WithCompletion | backend/app.py:192-197 | The completion writes 100, 'Completed', True and the result, and leaves the error as it was. |
| ProgressStore.WithFailure | backend/app.py:200-205 | The failure writes 0, 'Error: ' + message, True and the message. |
| ProgressStore.Replay | backend/services/hr_service.py:196-200 | A sequence of updates keeps the set of jobs. |
| ProgressStore.ReplayTouchesOnlyProgress | backend/services/hr_service.py:196-200 | Updates never change a job's completion, error or result, and leave jobs they do not name exactly as they were. |
| ProgressStore.ReplaySnoc | backend/services/hr_service.py:196-200 | One more update of a known job is one more `update_progress`. |
| ProgressStore.ReplayAppend | backend/services/hr_service.py:196-200 | Replaying two runs of updates one after the other equals replaying them together. |
| ProgressStore.Store.constructor | backend/app.py:20 | The store starts empty. |
| ProgressStore.Store.Create | backend/app.py:172-177 | The id's entry becomes the starting entry, replacing any earlier one. |
| ProgressStore.Store.Update | backend/services/hr_service.py:196-200 | The job's progress and status are set, and the update is logged. |
| ProgressStore.Store.Complete | backend/app.py:192-197 | The completion write. |
| ProgressStore.Store.Fail | backend/app.py:200-205 | The failure write. |
| ProgressStore.Store.Lookup | backend/app.py:185-187 | The entry is returned unchanged when the id is present, and None otherwise. |
| Utils.ListFilesRecursive | backend/modules/utils.py:41-55 | The nested loops over the walk return the joined paths of the kept files, directory by directory, in order. The default extensions apply when none are given. |
| Utils.KeptPathsSpec | backend/modules/utils.py:49-51 | A path is kept from a directory iff it is the join of a file there whose lower-cased name ends with an extension. |
| Utils.WalkedPathSnoc | backend/modules/utils.py:48-51 | A path comes from a walk iff it comes from the walk without its last directory, or is kept from that directory. |
| Utils.ListedSpec | backend/modules/utils.py:48-51 | The listing holds exactly the joined paths of the walked files whose lower-cased names end with one of the extensions. |
| Utils.ListedTruncated | backend/modules/utils.py:52-55 | A walk that fails part way returns a prefix of the full listing, never an error. |
| Utils.GetMonthInput | backend/modules/utils.py:57-77 | The retry loop returns the first accepted answer, where an empty answer stands for the default. It gives None when the answers run out. |
| Utils.FirstAcceptedFound | backend/modules/utils.py:61-76 | The returned month is accepted and is the first accepted answer, verbatim. |
| Utils.FirstAcceptedNone | backend/modules/utils.py:61-77 | The prompt runs out exactly when no answer is accepted. |
| Utils.MonthYearAccepted | backend/modules/utils.py:66-76 | A month word and a four-digit year joined by one space are accepted whenever the capitalised month is an English month name. |
| Utils.LongSMonthAccepted | backend/modules/utils.py:66-76 | "ſeptember 2024" is accepted, because `str.capitalize` turns 'ſ' into 'S', and the prompt returns it as typed. |
| Common.WordsOfTwo | backend/modules/utils.py:66 | `str.split()` of two non-empty words joined by one space gives back those two words. |
| Utils.FirstAcceptedSpec | backend/modules/utils.py:67-76 | Acceptance requires exactly two words, a four-digit year and a capitalised English month name. The string is returned as typed, and every earlier answer was rejected. |
| HrService.Batches | backend/services/hr_service.py:238-240 | Every batch is non-empty and holds at most `size` items. |
| HrService.BatchesSpec | backend/services/hr_service.py:238-240 | The batches put together are the items, and every batch but the last is full. There are ceil(n/size) batches, and none iff there are no items. |
| HrService.BatchesFlatten | backend/services/hr_service.py:238-240 | The batches put together are the items. |
| HrService.BatchesFull | backend/services/hr_service.py:238-240 | Every batch but the last holds `size` items. |
| HrService.BatchesCount | backend/services/hr_service.py:238-240 | (count - 1) * size < n <= count * size, and the count is 0 iff n = 0. |
| HrService.BatchLog | backend/services/hr_service.py:265-267 | Batch k reports 35 + 10(k-1) with the status "Processing OCR batch k/total...". |
| HrService.StartLog | backend/services/hr_service.py:202-221 | The updates before the loop are 5, 15 and 25 with their statuses, in order. |
| HrService.PostLog | backend/services/hr_service.py:285-310 | The updates after the loop are 90, 95 and 98 with their statuses, in order. |
| HrService.CompletedProgress | backend/services/hr_service.py:202-310 | A completed run with `total` batches reports total + 6 progress values. |
| HrService.ProgressOrder | backend/services/hr_service.py:266 | A completed run's progress strictly increases iff it has at most six batches, and exceeds 100 from eight batches on. |
| HrService.CollectImages | backend/services/hr_service.py:224-229 | The images are the listings of the employees' existing month folders, in order. |
| HrService.Saved | backend/services/hr_service.py:251-260 | At most one record is saved per image. |
| HrService.SavedAppend | backend/services/hr_service.py:251-260 | The records of two runs of images are the records of each, in order. |
| HrService.SavedStep | backend/services/hr_service.py:251-260 | One more image adds its record, if it yields one. |
| HrService.SavedBatches | backend/services/hr_service.py:262-281 | The records of the first b + 1 batches are those of the first b followed by those of batch b. |
| HrService.SavedSpec | backend/services/hr_service.py:251-260 | A record is saved iff some image yields it, and nothing is saved when no image yields a record. |
| HrService.SaveRecord | backend/services/hr_service.py:253-257 | A saved record is appended to the staging file, which then exists. |
| HrService.SaveBatch | backend/services/hr_service.py:269-281 | The batch's images are processed in order. Each one that yields a record has it saved and is counted. |
| HrService.Advance | backend/services/hr_service.py:196-200 | One progress update is the next entry of the run's log. |
| HrService.AnnounceBatch | backend/services/hr_service.py:265-267 | Batch b + 1 is announced with its progress. |
| HrService.RunBatch | backend/services/hr_service.py:265-281 | One batch is announced, then its images are saved. |
| HrService.RunOcr | backend/services/hr_service.py:262-283 | After the loop, the count equals the number of saved records. The staging file holds exactly those records after one header, and exists iff the count is positive. One update is logged per batch. |
| HrService.StagedRow | backend/services/hr_service.py:288 | A staged record read back has every staging column. |
| HrService.StagedFrame | backend/services/hr_service.py:288 | `pd.read_csv` gives the staging columns and one row per record. |
| HrService.Reconcile | backend/services/hr_service.py:285-308 | Steps 4 and 5 produce a frame iff they produce no failure, and produce a frame iff all three post-loop updates were made. |
| HrService.PrepareFrame | backend/services/hr_service.py:291-300 | The stages run in the fixed order: mode fill, code repair, eligibility, amount, names, day, month-year. |
| HrService.UpdateLedger | backend/services/hr_service.py:312-319 | Step 6 on the worksheet: the append push, the read back, the deduplication and the overwrite push. Nothing happens without the spreadsheet. |
| HrService.LedgerDistinctKeys | backend/services/hr_service.py:313-319 | The deduplication raises iff the frame lacks 'Date' or 'UserID'. Otherwise the archive has the frame's columns as its header and one row per (Date, UserID), namely the last one appended. |
| HrService.HeaderMismatchDropsHistory | backend/services/hr_service.py:313 | When the archive's header differs from the frame's columns, the append push rewrites the sheet and the earlier rows are lost. |
| HrService.FailedIsNotCompleted | backend/services/hr_service.py:321-328 | An error message never reads as the completion or the no-images message. |
| HrService.Finish | backend/services/hr_service.py:285-325 | After the loop, a run logs between one and three of the post-loop updates, in order. |
| HrService.ReconcileRecords | backend/services/hr_service.py:285-310 | Steps 4 and 5 with their updates, each failure stopping the run where it occurs. |
| HrService.FinishRun | backend/services/hr_service.py:285-325 | Steps 4 to 6: the result, the updates and the archive are those of `Finish`. |
| HrService.ScanAndFinish | backend/services/hr_service.py:234-325 | The staging file is deleted first, then the OCR loop runs, then steps 4 to 6. Afterwards the staging file holds exactly the saved records. |
| HrService.ProcessMonthDataWithProgress | backend/services/hr_service.py:194-328 | The result, the progress log and the archive afterwards are those of `RunOf`. Without images the staging file and the archive are untouched. |
| HrService.LogFollowsProgress | backend/services/hr_service.py:202-310 | Every update names the job and follows 5, 15, 25, one value per batch, then 90, 95, 98. |
| HrService.RunLogShape | backend/services/hr_service.py:202-310 | A run that reaches the OCR loop logs the three start updates, one update per batch, then one to three post-loop updates, with all three on completion. |
| HrService.FinishOutcome | backend/services/hr_service.py:285-325 | A completion has at least one record, counts every saved record, names the month and makes all three post-loop updates. With an archive, it leaves distinct (Date, UserID) keys. Any other end counts 0. |
| HrService.RunProgress | backend/services/hr_service.py:202-310 | A run that reaches the OCR loop reports a prefix of the completed run's progress: at least total + 4 updates, and total + 6 on completion. |
| HrService.RunIds | backend/services/hr_service.py:196-200 | Every update of a run names its own job. |
| HrService.RunCount | backend/services/hr_service.py:247-281 | On completion, `processed_count` is the number of saved records: positive and at most the number of images. Every other end reports 0. |
| HrService.RunLedger | backend/services/hr_service.py:313-319 | A completed run with an archive leaves distinct (Date, UserID) keys under a header. |
| HrDashboard.FixPathIsReplace | backend/services/hr_service.py:31-33 | The guarded repair equals an unconditional `str.replace`. |
| HrDashboard.MapColumn | backend/services/hr_service.py:31-33 | Only the cells of the mapped column change. |
| HrDashboard.RepairImagePaths | backend/services/hr_service.py:30-33 | The repair keeps the header and the row count. |
| HrDashboard.FilteredData | backend/services/hr_service.py:24-43 | The result is None iff the read raises. A missing sheet or empty data gives the empty frame. Otherwise the header is kept and no row is added. |
| HrDashboard.FilteredRows | backend/services/hr_service.py:35-41 | With a year and a month, the rows kept are those whose Month Year contains "year-month" ignoring case. With a year only, those containing the year. With a month only, every row. |
| HrDashboard.RepairSpec | backend/services/hr_service.py:30-33 | Image_name cells are rewritten by `str.replace`. Every other cell, and every path without the doubled folder, stays as it was. |
| HrDashboard.CountWhere | backend/services/hr_service.py:86-88 | The count is the number of rows whose cell equals the value. |
| HrDashboard.YesNoBounded | backend/services/hr_service.py:86-87 | Approvals plus rejections never exceed the rows. |
| HrDashboard.DashboardMetrics | backend/services/hr_service.py:74-95 | Every count is at most the number of rows. A failed read gives None. |
| HrDashboard.MetricsSpec | backend/services/hr_service.py:77-95 | No data gives zeros. Otherwise the result is the row count and the rows with 'Yes', with 'No' and with Category '3', and it is None iff a needed column is missing. |
| HrDashboard.StrLessTotal | backend/services/hr_service.py:125 | The order of group keys is a strict total order (with StrLessIrreflexive and StrLessTransitive). |
| HrDashboard.KeyLessTransitive | backend/services/hr_service.py:125 | The order on (Emp ID, Emp Name) pairs is transitive (with KeyLessIrreflexive and KeyLessTotal). |
| HrDashboard.AddToKeys | backend/services/hr_service.py:125-127 | Adding a row adds its key to the groups' keys. |
| HrDashboard.AddToSorted | backend/services/hr_service.py:125-127 | Adding a row keeps the groups sorted by key. |
| HrDashboard.AddToTotals | backend/services/hr_service.py:125-127 | Adding a row adds its amount to its own group's total and to the sum. No other total moves. |
| HrDashboard.Grouped | backend/services/hr_service.py:125-127 | The groups come out sorted by (Emp ID, Emp Name), as `groupby` sorts them. |
| HrDashboard.GroupedSpec | backend/services/hr_service.py:123-127 | There is one group per distinct key of the rows. Each total is the sum of that key's amounts, with non-numeric amounts counted as 0, and the totals add up to all the amounts. |
| HrDashboard.TotalForAt | backend/services/hr_service.py:125-127 | In sorted groups, a key's total is its own group's total. |
| HrDashboard.SortedCount | backend/services/hr_service.py:132 | Sorted groups have distinct keys, so there are as many groups as keys. |
| HrDashboard.EmployeeReimbursements | backend/services/hr_service.py:117-134 | `total_employees` is the number of groups, and the groups are sorted. A failed read gives None. |
| HrDashboard.ReimbursementsSpec | backend/services/hr_service.py:117-134 | No data gives no employee. Otherwise there is one employee per distinct (Emp ID, Emp Name) pair with that pair's summed amounts, and the result is None iff a needed column is missing. |
| App.TrailingDigitsOfId | backend/app.py:171 | The seconds are exactly the digits at the end of a job id. |
| App.JobIdInjective | backend/app.py:171 | Two ids are equal only for the same month in the same second. |
| App.ProcessMonth | backend/app.py:167-181 | The entry under month_year + '_' + seconds becomes the starting entry, overwriting a same-second resubmission. |
| App.GetProgress | backend/app.py:183-187 | Not-found iff the id is unknown. Otherwise the stored entry, unchanged. |
| App.Finished | backend/app.py:189-205 | Either way the job ends completed and no other job changes. |
| App.FinishJob | backend/app.py:189-205 | The two branches after the service call. |
| App.FinishedEntry | backend/app.py:192-205 | After any progress updates, a return gives exactly 100 / 'Completed' / completed / no error / the result. A raise gives 0 / 'Error: msg' / completed / msg / no result. |
| App.ProcessMonthBackground | backend/app.py:189-205 | The service runs, its updates are logged, and its return completes the entry. |
| App.RequestLifecycle | backend/app.py:171-197 | A request followed by its run adds only its own job. That job ends completed at 100 with the run's result and no error, even when the result reports an error, and no other job changes. |

## Left out

- OCR inference, image decoding (HEIC included), sentence embeddings and their cosine similarity are parameters of the model: the OCR returns a word list or fails, and the similarity is any real-valued function.
- The date regular expression's search, dateutil's fuzzy parser and `pd.to_datetime(format='mixed')` are parameters. Only their use is modelled. The parser's outcome on a candidate is a date, a ValueError, or any other exception.
- `strftime('%d-%b-%Y')` is modelled as `OcrEngine.FormatDate`: a two-digit day, the English month abbreviation and the year as a plain number, as CPython before 3.12.5 prints it on Linux (through the C library's `%Y`). CPython 3.12.5 and later zero-pad `%Y` to four digits there, so for a year below 1000 the model's text is the older one; for the years 1000 to 9999 both agree.
- The regular expression semantics of `str.contains` in `_get_filtered_data` are taken as a literal substring test. Case folding is ASCII only.
- `pd.to_numeric`, `str()` of a float and `astype(str)` are parameters. Amounts are exact reals, not IEEE doubles.
- gspread, Drive downloads, `_get_users_from_drive` and every network client are left out. A worksheet is its cells; a missing spreadsheet is a null worksheet or `NoSheet`.
- Zip and CSV export, `get_monthly_summary`, `get_all_records` and the FastAPI routes other than the three job endpoints are left out, since they are not part of this model.
- Logging, `print` and `gc.collect` are left out.
- The thread pool, its lock and `as_completed` are left out: each batch is processed sequentially in list order, so the order of rows in the staging file is the image order. The 30-second timeout never fires on completed futures and is not modelled.
- OcrEngine.CodeMatch: `\w` is taken as the ASCII word characters. Python's Unicode letters and digits (a code such as "TGLP12é") are not modelled.
- OcrEngine.NumericMatches: `\d` is taken as the ASCII digits. Python's other Unicode decimal digits (a token such as "٥٠") are not modelled.
- Utils.AcceptedMonthInput: `str.isdigit` is taken as the ASCII digits, so a year typed in other Unicode digits (such as "２０２４") is accepted by the source and rejected by the model. `str.capitalize` is modelled by `Common.Capitalize`: the first character is title-cased for the ASCII letters and for 'ſ' (U+017F, to 'S') and 'ı' (U+0131, to 'I'), the only other letters whose title case is a single ASCII letter, and the rest is lower-cased for the ASCII letters only. Python's other Unicode case mappings (multi-character ones such as 'ß' to "Ss", the Kelvin sign to 'k') are left as the unchanged character. Whitespace for `str.split()` is Python's full set.
- Utils.FirstAcceptedSpec: acceptance is `Utils.AcceptedMonthInput`, so the contract is weaker than the source exactly where that line says: an answer whose year uses non-ASCII digits, or whose month is spelled with a Unicode case mapping other than those of 'ſ' and 'ı', is rejected by the model. "ſeptember 2024" is accepted and returned as typed, as in the source (`Utils.LongSMonthAccepted`).
- PostProcessing.Worksheet.AppendRows: the sheet stores the pushed strings verbatim. Sheets' `USER_ENTERED` parsing of each cell (numbers, dates, leading zeros, formulas) is not modelled, and neither is the formatted text `get_all_values` then returns. HrService.LedgerDistinctKeys and HrService.HeaderMismatchDropsHistory therefore compare the pushed text.
- HrService.ProcessMonthDataWithProgress: building the Drive downloader and the OCR engine (backend/services/hr_service.py:205-206) is taken never to raise. In the source such a failure ends the run after the 5% update alone, a log that HrService.RunOf does not produce.
- HrService.ReadImage: an exception inside `process_single_image` is taken as the record's absence, as the source catches it.
- HrService.StagedFrame: `pd.read_csv` of the staging file is assumed to give back exactly the saved records (an empty text cell reads as missing). CSV quoting and type inference are not modelled.
- PostProcessing.MergedRow: the roster is assumed to hold one row per UserID, and the names of merged columns never collide with the frame's. pandas' duplicate-key row multiplication and `_x`/`_y` suffixes are not modelled.
- HrService.Reconcile: the model does not prove whether the `ArchiveColumnsMissing` failure of the deduplication is reachable.
- App.ProcessMonthBackground: the service catches every failure of its own, so in this model it always returns and the raising branch of FinishJob is never taken. That branch is still modelled and specified (`App.FinishedEntry`).
- Utils.GetMonthInput: the answers typed at the prompt are a finite sequence and the default month (`datetime.now() - 30 days`) is a parameter. Running out of answers stands for `input()` raising.
- The interactive `input()` loop's printing is left out.
- The frontend's polling and display are left out.

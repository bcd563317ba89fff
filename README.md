# tarsync in Dafny

tarsync is a Deno command-line tool that backs up a Linux root file system
into a store of dated work directories. Each backup holds:

- one `tarsync.tar.gz` archive;
- a `meta.ts` record of the planned size, the exclusion list and the date;
- an optional `log.md` written in `vi`.

This project models three parts of the tool and proves properties about them.

1. **The capacity planner.** It starts from the used KB of the disk being
   backed up. It then walks the configured exclusion list in order. A path is
   subtracted, with its `du --one-file-system` size, only when three things
   hold: the path exists, `df` places it on the same device, and `du` reports
   a positive size. Every other path is reported and skipped. A query that
   throws skips the path too. The result is returned as it is, even when it
   is negative.

   Around the planner sit these supporting pieces:
   - the exclusion list and its `--exclude=` flags;
   - the store, work-directory and archive paths;
   - the `convertSize` unit tiers;
   - the `df` line parsers of `getDiskinfo` and of the `DiskFree` class;
   - the store capacity gate of `Tarsync`.

2. **The catalog of backups.** `paginateFiles` has these rules:
   - the page count is `ceil(n / pageSize)`;
   - a negative page counts from the end;
   - the page is clamped into range;
   - the last page is right-aligned.

   On top of pagination sit:
   - the selection rule: positive is 1-based from the front, negative counts
     from the back of the page, 0 selects nothing;
   - the zero-padded numbering;
   - the per-page byte total;
   - the `log.md` section.

   The listing exists twice, in `ArchiveManager.printBackups` and in the
   older `BackupList.printBackups`. Both are modelled.

3. **The backup workflow.** `Tarsync.backup` runs nine steps in order and
   stops at the first that fails:
   1. plan the size;
   2. check the store's capacity;
   3. check for pv, rsync and tar;
   4. create the store directory;
   5. create the work directory;
   6. write the metadata;
   7. ask whether to write a log;
   8. write the archive;
   9. list the last page of the store.

   The capacity check and the tool check end the process with status 1
   (the tool check only when `command -v` writes to standard error).
   Every other failure is rethrown unchanged. The `Logger` is built while
   the work directory is still the empty string. The path it opens is
   therefore always `/log.md`, whatever `backup` later passes to
   `choiceWirte`.

The machine is an oracle, `Util.Host`. For each command line it gives what the
process writes to its two output streams, and for each path it says whether
the path exists. The oracle is fixed for a whole run: what the run itself
creates does not change its later answers.

`Outcomes.Effect` records how a step ends, in one of three ways:
- it returns a value;
- it throws: an `Error`, or the raw standard-error text from `$$`;
- it calls `Deno.exit(code)`.

`Tarsync.Env` holds the inputs `backup` takes from outside the model:
- the clock readings;
- the two disk queries that src/util/util.ts does not define;
- the outcome of writing the metadata;
- the reply to the log prompt;
- the outcome of the archive command.

## How each file is modelled

- `calculateFinalDiskUsage`, both `printBackups` loops and `backup` become
  methods with loops or step sequences. Each method is proved equal to a
  specification function: `TotalDeduction`/`PlanEvents`, `Listed` and
  `BackupSpec`. The properties are then proved about those functions.
- `DiskFree`, `Logger`, `ArchiveManager` and `Tarsync` are classes. Their
  fields are updated by methods that carry `modifies` clauses.
- The path builders, parsers, pagination and the selection rule are
  functions.

In these places the code does something a reader may not expect; the model
follows the code:

- **Negative projected size.** It is returned unclamped, not clamped to zero.
- **Order of the first steps.** `backup` plans the size and checks capacity
  before it checks the tools.
- **Units.** Sizes are in KB (`df -k`, `du -sk`), not bytes. The root's used
  size comes from `getDiskFreeWithPathByte`, which is not defined anywhere;
  the model takes it as KB (see `Tarsync.Env` under "## Left out").
- **Loading disk figures.** `DiskFree` is loaded in place, not built fresh.
- **The tool check.** `ensureCommandExists` ends the process only when
  `command -v` writes to standard error. An absent tool makes `command -v`
  print nothing and fail with a non-zero status, which `$$` does not look
  at, so the check lets it pass.
- **A missing store directory.**
  - `ArchiveManager` ends the process with status 1.
  - `BackupList` throws an error.
- **The log section.** It is always printed. With no selection it looks for
  `/log.md`.

## Model

| member | source | states |
|---|---|---|
| Util.Capture | src/util/util.ts:48-56 | `$$` succeeds exactly when standard error is empty. It then gives the trimmed standard output; otherwise it throws the standard-error text. |
| Util.Sh | src/util/util.ts:38-57 | `$$(...args)` runs the arguments, joined by spaces, under `/bin/sh -c`. It never ends the process; its result follows the rule of `Util.Capture`. |
| Util.ExcludeList | src/util/util.ts:77-83 | The exclusion list is the backup path, then the default list, then the custom list (empty when absent). Its length is 1 + default + custom. |
| Util.ExcludeFlagsSplit | src/util/util.ts:84-88 | For paths without spaces, the `getExclude` string splits back into one `--exclude=<path>` flag per path, in order. |
| Util.GetExclude | src/util/util.ts:84-88 | Definition: one `--exclude=<path>` flag per path of `getExcludeList()`, joined by single spaces. `Util.ExcludeFlagsSplit` reads it back. |
| Util.StoreDirPath | src/util/util.ts:66-68 | Definition: the store is `store` under the base path. |
| Util.WorkDirPath | src/util/util.ts:70-72 | The work directory is the store path, a slash, then the date string. |
| Util.WorkDirPathInjective | src/util/util.ts:70-72 | Two work directories coincide exactly when their dates do. |
| Util.TarFileInWorkDir | src/util/util.ts:74-76 | `getTarFile(date)` is `tarsync.tar.gz` inside the work directory of that date. |
| Util.ConvertSize | src/util/util.ts:110-120 | Below 1024, and for NaN, the result is the exact "n Bytes" text. Otherwise it picks the largest of KB, MB, GB the size reaches. The amount is at least 1 and, below GB, under 1024. |
| Util.ConvertSizeBoundaries | src/util/util.ts:110-120 | The tier bounds 1024, 1024² and 1024³ are inclusive. |
| Util.ParseDiskInfoOfFields | src/util/util.ts:133-146 | A `df` line of space-free fields gives the first field as the device and the second as the mount (absent when there is no second field). |
| Util.ParseDiskInfo | src/util/util.ts:136-142 | Definition: the first `split(/\s+/)` field is the device, and the second, when there is one, is the mount. |
| Util.GetDiskinfo | src/util/util.ts:130-152 | The `df --output=source,target` query through `$$`, parsed by `ParseDiskInfo`. It never ends the process; a failed query is rethrown. |
| Util.GetDiskUsageWithPathKb | src/util/util.ts:172-176 | The `du -sk --one-file-system` query through `$$`, read with `parseInt`. It never ends the process. |
| Util.IsPathExists | src/util/util.ts:203-206 | Definition: the host's answer for the path. |
| Util.GetPathDevice | src/util/util.ts:214-218 | The `df --output=source` query through `$$`, trimmed. It never ends the process. |
| Util.Mkdir | src/util/util.ts:90-92 | `mkdir -p <path>` through `$$`. It never ends the process. |
| Util.EnsureCommandExists | src/util/util.ts:186-195 | The process exits with status 1 exactly when `command -v` writes to standard error; otherwise the call returns normally. |
| Util.CheckInstalledProgram | src/util/util.ts:103-108 | Exit 1 exactly when `which` writes nothing to standard error and only white space to standard output; a query that writes to standard error throws that text. |
| Util.PathEvent | src/util/util.ts:231-259 | Definition, in the loop's branch order: the path is missing; its device query failed; it is on another device; its `du` query failed; it has a positive size and is excluded; or it has no space. |
| Util.TotalDeduction | src/util/util.ts:230-260 | Definition: the sum of the paths' deductions, in list order. |
| Util.DeductionMeaning | src/util/util.ts:231-259 | A path deducts something only when it exists, is on the backed-up device and has a positive `du` size. It then deducts exactly that size. |
| Util.TotalDeductionAppend | src/util/util.ts:230-260 | The deductions of two lists, one after the other, add up. |
| Util.SkippedPathIrrelevant | src/util/util.ts:233-259 | Removing an exclusion that deducts nothing never changes the projected size. Such a path is absent, on another device, empty, unparsable or failing. |
| Util.CrossDevicePathIrrelevant | src/util/util.ts:239-242 | Removing an exclusion that `df` places on another device never changes the projected size. |
| Util.PlanEventsAt | src/util/util.ts:230-259 | Each exclusion's report sits at the exclusion's own position. |
| Util.ClassifyExclusion | src/util/util.ts:231-259 | One pass of the loop reports the path's event. It subtracts a positive amount exactly when it reports an exclusion. |
| Util.CalculateFinalDiskUsage | src/util/util.ts:226-274 | The result is the used KB minus the total deduction, so it is at most the used KB. There is one report per exclusion, in order. The final report is the totals, or the negative-total warning when the result is below 0. |
| RootUtil.GetExcludeDirs | src/util.ts:55-76 | The result is sixteen `--exclude=<path>` flags for the listed paths, in order, joined by single spaces. |
| RootUtil.Run | src/util.ts:15-34 | `$$(cmd, ...args)` spawns `cmd` with `args` directly. It never ends the process; its result follows the rule of `Util.Capture`. |
| RootUtil.Mkdir | src/util.ts:78-80 | `mkdir -p path` spawned directly. It never ends the process. |
| RootUtil.CheckInstalledProgram | src/util.ts:91-96 | Exit 1 exactly when `which` writes nothing to standard error and only white space to standard output. A query that writes to standard error throws that text. |
| DiskFree.ParseDfLineOfColumns | src/util/DiskFree.ts:42-50 | A six-column `df` line gives back device, mount, total, used and available, whatever the file-system type. |
| DiskFree.ParseDfLine | src/util/DiskFree.ts:42-50 | Definition: of the trimmed line's `split(/\s+/)` fields, 0 and 5 are text and 2 to 4 are numbers, each "" or 0 when missing or unparsable. |
| DiskFree.ParseDfLineBlank | src/util/DiskFree.ts:46-50 | A blank line leaves every field at "" or 0. |
| DiskFree.DiskFree.constructor | src/util/DiskFree.ts:16-30 | Before `load`, device and mount are "" and the three sizes are 0. |
| DiskFree.DiskFree.Load | src/util/DiskFree.ts:39-56 | `load` succeeds exactly when the `df` query does, and then holds the parsed line. A failed query is rethrown and every field is unchanged. |
| DiskFree.DiskFree.UsagePercentage | src/util/DiskFree.ts:63-66 | The result is 0 when the total is 0. Otherwise it is floor(used / total × 100), which lies in 0..100 when 0 ≤ used ≤ total. |
| DiskFree.DiskFree.ToString | src/util/DiskFree.ts:73-75 | The text splits into six lines: device, mount, the three sizes with a KB suffix, and the percentage. |
| Js.Trim | src/util/util.ts:52 | `trim` gives the slice left after cutting white space from both ends. The result is trimmed, and it is empty exactly when the input is all white space. |
| Js.TrimIdempotent | src/util/DiskFree.ts:44 | Trimming twice is trimming once. |
| Js.TrimPadded | src/compo/Logger.ts:15 | `trim` of a trimmed word with white space around it gives back the word. |
| Js.SplitWsJoin | src/util/util.ts:136 | `split(/\s+/)` undoes joining non-empty, space-free tokens with single spaces. |
| Js.SplitWsTokens | src/util/DiskFree.ts:44 | A trimmed, non-empty line splits into non-empty, space-free tokens. |
| Js.SplitOnJoin | src/compo/ArchiveManager.ts:64 | `split(c)` undoes joining pieces that do not contain `c`. |
| Js.JoinSplitOn | src/compo/ArchiveManager.ts:64 | Joining with `c` undoes `split(c)`. |
| Js.ParseInt | src/util/util.ts:175 | `parseInt(s, 10)` is NaN exactly when no digit follows the leading white space and an optional sign. |
| Js.ParseIntOfIntToString | src/util/DiskFree.ts:48-50 | `parseInt` reads back what `String` prints. |
| Js.PadStart | src/compo/ArchiveManager.ts:46-47 | `padStart` never truncates. It keeps the string at the end and fills only the front. |
| Js.ParseIntZeroPadded | src/compo/ArchiveManager.ts:46-47 | Leading zeros do not change the number `parseInt` reads. |
| Js.NatToStringLengthMonotone | src/compo/ArchiveManager.ts:47 | A larger number never has fewer digits. |
| Catalog.NonBlankLinesMeans | src/compo/ArchiveManager.ts:64 | Every line the filter keeps is a line of the input that is not blank. |
| Catalog.NonBlankLines | src/compo/ArchiveManager.ts:64 | The filter never makes the list longer. `Catalog.NonBlankLinesMeans` states what it keeps. |
| Catalog.NonBlankLinesAppend | src/compo/ArchiveManager.ts:64 | The filter of two lists, one after the other, is the two filters one after the other. |
| Catalog.BlankLineDropped | src/compo/ArchiveManager.ts:64 | A blank line is dropped, and nothing else changes. |
| Catalog.ListingRoundTrip | src/compo/ArchiveManager.ts:60-64 | Non-blank lines joined by line breaks are read back one entry per line. |
| Catalog.ListedFiles | src/compo/ArchiveManager.ts:60-64 | The listing succeeds exactly when the `ls` query does, and is then its non-blank lines. A failing query's text is rethrown. |
| Catalog.CeilDiv | src/compo/ArchiveManager.ts:107 | The page count is the least q with n ≤ q × pageSize. It is 0 only for an empty list. |
| Catalog.ClampPage | src/compo/ArchiveManager.ts:113-114 | The corrected page lies in 1..totalPages. An in-range page is kept, and −k means page totalPages − k + 1. Past the end the last page is used; 0 and anything before the start give page 1. |
| Catalog.PageStart | src/compo/ArchiveManager.ts:117-118 | The start index leaves room for a full page inside the list. |
| Catalog.Paginate | src/compo/ArchiveManager.ts:97-127 | An empty list gives ([], 1, 0). Otherwise the page number is the corrected request `ClampPage(totalPages, pageNum)`, and the items are a contiguous slice of min(pageSize, n) entries starting at that page's start. |
| Catalog.NegativePageCountsFromEnd | src/compo/ArchiveManager.ts:113 | A page −k in range gives the same page as totalPages − k + 1. |
| Catalog.OutOfRangePagesClamp | src/compo/ArchiveManager.ts:114 | A page past either end gives the last or the first page. |
| Catalog.FullPage | src/compo/ArchiveManager.ts:117-122 | A page before the last shows exactly entries (p − 1) × pageSize to p × pageSize. |
| Catalog.LastPageRightAligned | src/compo/ArchiveManager.ts:118-122 | Page −1 is the last page and shows the last min(pageSize, n) entries. |
| Catalog.EveryEntryOnItsPage | src/compo/ArchiveManager.ts:106-122 | Entry k is shown on page k / pageSize + 1: that page is valid, is reported under that number, and holds files[k] at position k − PageStart. |
| Catalog.DocumentedExample | src/compo/ArchiveManager.ts:85-94 | The documented example: four files, two to a page; page 1 and page −1. |
| Catalog.NineEntriesFiveToAPage | src/compo/BackupList.ts:99-110 | Nine entries, five to a page. Page 1 is entries 1-5. Page −1, page 2 and page 7 are all entries 5-9 on page 2 of 2. |
| Catalog.Selection | src/compo/ArchiveManager.ts:191-196 | Position i is marked exactly when the rule selects it. Nothing is selected for 0 or for a value outside the page. |
| Catalog.AtMostOneMarked | src/compo/ArchiveManager.ts:191-196 | At most one position of a page is marked. |
| Catalog.FileNameOfListingLine | src/compo/ArchiveManager.ts:176 | `split(" ")[3]` of a month-day-time-name line is the name. |
| Catalog.FileName | src/compo/ArchiveManager.ts:176 | Definition: field 3 of `split(" ")`, absent when the line has fewer than four fields. |
| Catalog.ProbeEntry | src/compo/ArchiveManager.ts:177-188 | An entry's probe never ends the process. `Catalog.ProbeEntryMeaning` states its result. |
| Catalog.ProbeAll | src/compo/ArchiveManager.ts:174-188 | The page's probes never end the process, and on success there is one per entry. |
| Catalog.ProbeEntryMeaning | src/compo/ArchiveManager.ts:177-188 | An entry's probe names its directory and log flag. A missing directory gives "0B" and 0 bytes. An existing one succeeds exactly when both `du` queries do, and then has their results. |
| Catalog.ProbeLine | src/compo/ArchiveManager.ts:175-188 | The loop body's queries compute the entry's probe. |
| Catalog.ProbeAllOk | src/compo/ArchiveManager.ts:174-188 | The page's probes succeed exactly when every entry's probe does, and then are those probes' results. |
| Catalog.ProbeAllFirstFailure | src/compo/ArchiveManager.ts:174-188 | A failing page fails with the error of its earliest failing entry. |
| Catalog.SumBytes | src/compo/ArchiveManager.ts:199 | The page total is a number exactly when every entry's byte size is. |
| Catalog.SumBytesAppend | src/compo/ArchiveManager.ts:199 | The totals of two lists, one after the other, add up. |
| Catalog.ZeroEntryAddsNothing | src/compo/ArchiveManager.ts:180-185 | An entry of 0 bytes, such as one whose directory is missing, leaves the page total unchanged. |
| ArchiveManager.PadIndex | src/compo/ArchiveManager.ts:44-48 | The padded index is at least as wide as the reference, and at least as long as the index itself. It ends with the index and is all zeros in front. |
| ArchiveManager.PadIndexValue | src/compo/ArchiveManager.ts:44-48 | Padding keeps the index's value. |
| ArchiveManager.PadIndexCommonWidth | src/compo/ArchiveManager.ts:44-48 | Every index up to the reference gets the reference's width. |
| ArchiveManager.ShownPage | src/compo/ArchiveManager.ts:163 | Definition: `paginateFiles` with page size 0 replaced by the list length, and NaN page numbers for the 0 / 0 of an empty list. `ArchiveManager.PageSizeZeroListsAll` states its meaning. |
| ArchiveManager.PageSizeZeroListsAll | src/compo/ArchiveManager.ts:163 | Page size 0 lists a non-empty store whole, as page 1 of 1, and shows an empty store with NaN page numbers. |
| ArchiveManager.RowText | src/compo/ArchiveManager.ts:202-203 | Definition: the padded number, ". ", the selection icon, the log icon, the size and the listing line. |
| ArchiveManager.Rows | src/compo/ArchiveManager.ts:174-210 | Definition: the lines of the probed entries, in page order. |
| ArchiveManager.RowsPrefix | src/compo/ArchiveManager.ts:174-210 | The lines of the first k entries begin the lines of the page. |
| ArchiveManager.RowsLine | src/compo/ArchiveManager.ts:202-203 | Line k comes right after the first k lines. It is numbered start + k, padded to the width of the file count, and carries entry k's selection mark, log mark, size and listing line. |
| ArchiveManager.SelectedSoFarStep | src/compo/ArchiveManager.ts:206-209 | The remembered entry changes exactly at the marked position. |
| ArchiveManager.SelectedEntry | src/compo/ArchiveManager.ts:206-209 | The dir and name handed to `#printLog` are the selected entry's, or "" and "" when nothing is selected. |
| ArchiveManager.PrintLog | src/compo/ArchiveManager.ts:136-147 | With a `log.md`, its trimmed text between two rules, failing exactly when `cat` fails. Without one, the warning naming the backup. |
| ArchiveManager.NoSelectionLooksAtRootLog | src/compo/ArchiveManager.ts:167-168 | With no selection the log looked up is `/log.md` at the root, and the warning names no backup. |
| ArchiveManager.GetFiles | src/compo/ArchiveManager.ts:55-69 | Exit 1 exactly when the store directory is missing. Otherwise the non-blank lines of the listing. |
| ArchiveManager.Listed | src/compo/ArchiveManager.ts:156-223 | Definition: the file list, the shown page, the loop's scan, the store total and the log, in the source's order of queries. The first failure ends it. |
| ArchiveManager.ArchiveManager.constructor | src/compo/ArchiveManager.ts:21-23 | The manager keeps the store path it is given. |
| ArchiveManager.ArchiveManager.ScanPage | src/compo/ArchiveManager.ts:174-210 | The loop gives the page's lines, byte total and selected entry as defined over the page's probes, or the first failing probe's error. |
| ArchiveManager.ArchiveManager.PrintBackups | src/compo/ArchiveManager.ts:156-223 | `printBackups` gives the listing defined by `Listed`, failing as that does. |
| ArchiveManager.ShiftedLastPageNumbering | src/compo/ArchiveManager.ts:171 | Nine entries, five to a page, page −1 shows entries 5-9 but numbers them from 6. The numbering follows the requested page, not the shifted start. |
| ArchiveManager.ListedExit | src/compo/ArchiveManager.ts:30-35 | The listing ends the process exactly when the store directory is missing, and then with status 1. |
| BackupList.GetFiles | src/compo/BackupList.ts:27-46 | A missing store directory throws an error naming it. Otherwise the non-blank lines of the listing. |
| BackupList.RowText | src/compo/BackupList.ts:165 | Definition: the selection icon, the log icon, the size, the listing line and " - " with the 1-based position. |
| BackupList.Rows | src/compo/BackupList.ts:137-166 | Definition: the lines of the probed entries, in page order. |
| BackupList.RowsPrefix | src/compo/BackupList.ts:137-166 | The lines of the first k entries begin the lines of the page. |
| BackupList.RowsLine | src/compo/BackupList.ts:165 | Line k comes right after the first k lines. It carries entry k's selection mark, log mark, size and listing line, and the position k + 1. |
| BackupList.Listed | src/compo/BackupList.ts:124-181 | Definition: the file list, the page, the entry probes and the store total, in the source's order of queries. The first failure ends it. |
| BackupList.PrintBackups | src/compo/BackupList.ts:124-181 | The loop gives the listing defined by `Listed`: lines numbered by page position, the byte total, the page numbers and the file count. A failure is the first failing query's. |
| BackupList.LastPageThirdSelected | src/compo/BackupList.ts:187-195 | The script's call, on nine backups, lists entries 5-9 and marks the seventh. |
| Logger.SetIsWrite | src/compo/Logger.ts:10-12 | Only the exact answer "Y" means write. |
| Logger.EffectiveAnswer | src/compo/Logger.ts:15 | No reply, or a blank one, means "Y". Any other reply is taken trimmed. |
| Logger.WriteChosenIff | src/compo/Logger.ts:14-17 | The log is written exactly when the reply is missing, blank, or "Y" once trimmed. |
| Logger.PaddedYesWrites | src/compo/Logger.ts:15-16 | "Y" with white space around it still means write. |
| Logger.OtherWordsSkip | src/compo/Logger.ts:10-16 | Any other word, trimmed or not, means no log. |
| Logger.LowerCaseYSkips | src/compo/Logger.ts:10-12 | The comparison is case-sensitive: "y" means no log. |
| Logger.DefaultIsWrite | src/compo/Logger.ts:15 | Closed input, an empty reply and a blank reply all write. |
| Logger.Logger.constructor | src/compo/Logger.ts:5-9 | A new logger is set to write, with the directory it is given. |
| Logger.Logger.LogPath | src/compo/Logger.ts:18-20 | The file opened is `log.md` in the directory fixed at construction. |
| Logger.Logger.SelectChoice | src/compo/Logger.ts:14-17 | The flag becomes the answer's meaning. |
| Logger.Logger.Write | src/compo/Logger.ts:18-20 | `write` spawns `vi` on the log file. |
| Logger.Logger.ChoiceWrite | src/compo/Logger.ts:21-24 | The flag is the answer's meaning, and the editor is spawned exactly when the flag is set. |
| Logger.ChosenEditor | src/compo/Logger.ts:21-24 | An editor is spawned exactly when the reply means write. |
| Tarsync.ToolsOutcome | src/Tarsync.ts:26-30 | The tool check either passes or exits with status 1. |
| Tarsync.ToolsOutcomeIff | src/Tarsync.ts:26-30 | The tool check passes exactly when the `command -v` query of each of pv, rsync and tar writes nothing to standard error. |
| Tarsync.CheckBackupStoreSize | src/Tarsync.ts:70-76 | Exit 1 exactly when the available space is below the backup size; equal space passes. |
| Tarsync.StoreCapacity | src/Tarsync.ts:97-107 | A failed store `df` query is thrown. Otherwise the check runs on the parsed available space. |
| Tarsync.PlannedSize | src/Tarsync.ts:43-47 | Definition: the root's used KB less the deductions of every path of `getExcludeList()`. |
| Tarsync.GetMetaInfo | src/Tarsync.ts:79-85 | Definition: the given size, the paths of `getExcludeList()` and the creation date. |
| Tarsync.BackupSpec | src/Tarsync.ts:112-148 | Definition: the nine steps in order, each run only when the one before succeeded. The first failure is the outcome. |
| Tarsync.Tarsync.constructor | src/Tarsync.ts:14-21 | The disk is "/", the store is under the base, both paths are "", and the logger is built for "". |
| Tarsync.Tarsync.ValidateRequiredTools | src/Tarsync.ts:26-30 | pv, rsync, then tar are queried. The first whose `command -v` writes to standard error ends the process, so later tools are never queried. Success means all three checks passed. |
| Tarsync.Tarsync.InitializePaths | src/Tarsync.ts:35-38 | The work directory is named after the date, and the archive is `tarsync.tar.gz` inside it. A failing clock leaves both unchanged. |
| Tarsync.Tarsync.CheckDiskSize | src/Tarsync.ts:97-107 | The paths are set before the store is queried. The outcome and the room found are those of the capacity check. |
| Tarsync.Tarsync.CreateMetaData | src/Tarsync.ts:79-91 | The record is the size, `getExcludeList()` and the date, written to `meta.ts` in the work directory. |
| Tarsync.Tarsync.CalculateDiskUsage | src/Tarsync.ts:43-47 | A failed disk query is rethrown. Otherwise the result is the planner's result over the configured exclusions. |
| Tarsync.Tarsync.Backup | src/Tarsync.ts:112-148 | The outcome, the steps taken and the new fields are those of `BackupSpec`. |
| Tarsync.Tarsync.BackupFromCapacity | src/Tarsync.ts:116-143 | From the capacity check on, the run follows `FromCapacity`. |
| Tarsync.Tarsync.BackupFromTools | src/Tarsync.ts:119-143 | From the tool check on, the run follows `FromTools`. |
| Tarsync.Tarsync.BackupFromLog | src/Tarsync.ts:132-143 | From the log choice on, the run follows `FromLog`. |
| Tarsync.StepsInOrder | src/Tarsync.ts:112-148 | A run records at most nine steps, each at its own position in the workflow. It succeeds exactly when all nine completed. |
| Tarsync.RunRecords | src/Tarsync.ts:114-143 | The steps record several things: the planned size; the metadata (planned size, exclusion list, date) in `meta.ts` of the dated work directory; the log choice; the archive of that directory written from "/" with the configured flags; and the listing `printBackups(5, -1, -1)`. |
| Tarsync.RunState | src/Tarsync.ts:35-38 | Once the date is read, the work directory and archive are set, even when the capacity check then fails. The logger's flag changes only once the log is chosen. |
| Tarsync.CapacityGuardsTheWork | src/Tarsync.ts:114-119 | No step past the capacity check runs unless the store has at least the planned room. |
| Tarsync.ToolsGuardTheWork | src/Tarsync.ts:119-123 | No step past the tool check runs unless every tool's `command -v` query wrote nothing to standard error. |
| Tarsync.CapacityShortExits | src/Tarsync.ts:70-76 | Too little room ends the process with status 1 right after the size is planned. |
| Tarsync.ToolCheckFailureExits | src/Tarsync.ts:26-30 | A tool whose `command -v` query writes to standard error ends the process with status 1 after the capacity check, before any directory is made. |
| Tarsync.ExitOnlyAtChecks | src/Tarsync.ts:112-147 | If the outside inputs only return or throw, the process ends only at three points, always with status 1: the capacity check, the tool check, or the final listing when the host reports the store missing. The host does not see the run's own `mkdir -p`, so the third point stands for a store that is gone by the time of the listing. |
| Tarsync.ExitOnlyAtTwoChecksWithStore | src/Tarsync.ts:112-147 | When the host reports the store directory present, the process ends only at the capacity check or the tool check, always with status 1. |

## Left out

- **Process and file-system plumbing** is the `Util.Host` oracle:
  - spawning through `Deno.Command`;
  - `Deno.stat` and `existsSync`;
  - `Deno.writeTextFile` and `Deno.exit`.

  A spawn that itself fails is not modelled.
- **The run's own writes.** `Util.Host` and `Tarsync.Probe` answer from one
  fixed machine state. The successful `mkdir -p` of the store and of the work
  directory, the `meta.ts` write and the archive change no later
  `pathExists`, `ls` or `du` answer. Two things follow:
  - `Tarsync.ExitOnlyAtChecks` keeps a third exit point, a store reported
    missing at the final listing, which the program reaches only if the store
    disappears after step 4. `Tarsync.ExitOnlyAtTwoChecksWithStore` states the
    case where the store is present.
  - No lemma says that the listing printed at the end of `backup` contains
    the backup just made.
- Util.EnsureCommandExists: the exit status of a command is not part of
  `Util.Output`, and the code does not read it either. The model, like the
  code, cannot tell an absent tool from a present one when `command -v`
  writes nothing to standard error.
- Tarsync.Env: `rootUsedKb` is an integer number of KB. The source reads
  it through `util.getDiskFreeWithPathByte`, which is not defined anywhere,
  names it `rootTotalUsedByte` (src/Tarsync.ts:45), and `#checkDiskSize`
  calls its argument a byte count (src/Tarsync.ts:95). The model assumes two
  things the code does not guarantee:
  - the reading is in KB, the unit of every `df -k` and `du -sk` figure it
    is compared with;
  - the reading is a number. A `parseInt`-style reading can be NaN. The real
    gate `available < NaN` is false, so a NaN size would pass the capacity
    check, and the metadata would record it. `Tarsync.CapacityGuardsTheWork`
    holds only for a numeric reading.
- **Inputs in `Tarsync.Env`.** These are not computed by the model:
  - the clock of `getDate`;
  - `util.getDiskFree` and `util.getDiskFreeWithPathByte`, which
    src/util/util.ts does not define;
  - the outcome of `util.createTarFile`;
  - the metadata write;
  - the user's reply to `prompt`.

  The clock is read twice, once for the work directory and once for the
  metadata, and the two readings are independent inputs.
- **`getBasePath`.** It derives the root from `import.meta.url`; the model
  takes it as the parameter `base`.
- **Console output.** Only the planner's reports are kept, as `Util.PlanEvent`
  values. Every other console message is left out.
- **`vi`.** `Logger.write` gives the command line it spawns; the editor
  session is not modelled.
- **`JSON.stringify`.** `#createMetaData` writes the record as JSON. The model
  has the record's fields, not the text.
- **`(error as Error).message`** in the catch blocks is only logged, so it is
  not modelled. The rethrown error is kept unchanged.
- Util.ConvertSize: the amount is an exact real. The `toFixed(2)` rounding of
  the KB, MB and GB texts is a floating-point format and is not modelled.
- DiskFree.DiskFree.UsagePercentage: computed on exact rationals, not on
  floating-point numbers, so rounding of `used / total * 100` is not
  captured.
- Js.IntToString: JavaScript numbers are modelled as integers or NaN.
  Fractions, infinities and exponent notation do not arise in the modelled
  paths.
- Catalog.Paginate: requires a page size of at least 1. `ArchiveManager`
  maps 0 to the list length before the call. Negative page sizes are not
  modelled anywhere: the page size is a `nat`.
- BackupList.PrintBackups: requires a page size of at least 1. With page
  size 0, `paginateFiles` does not fail: `n / 0` is Infinity (NaN for an empty
  store), so it returns an empty page with Infinity (or NaN) pages. That case
  is not modelled; the only caller passes 5.
- Tarsync.CheckBackupStoreSize: the failure report calls
  `diskFree.showAll()`, which `DiskFree` does not define. The model follows
  the evident intent (report, then exit 1), not the `TypeError` the call
  would raise.
- Tarsync.Tarsync.Backup: `#checkDiskSize` is called at src/Tarsync.ts:116
  without `await`. The model runs it to completion before the tool check,
  which is the evident intent. The interleaving is not modelled.
- Tarsync.Tarsync.Backup: the body is split into three phase methods
  (`BackupFromCapacity`, `BackupFromTools`, `BackupFromLog`), each proved
  against its part of `BackupSpec`, which keeps each proof small.
- Util.CalculateFinalDiskUsage: the exclusion list is a parameter. `Tarsync`
  passes `Util.ExcludeList(Util.SourceConfig)`, which is `getExcludeList()`.
- Logger.LowerCaseYSkips: covers only "y". `Logger.OtherWordsSkip` states the
  general rule.
- **`restore`.** src/main.ts calls it, but `Tarsync` does not define it, so
  there is nothing to model.
- **src/compo/Tar.ts and src/compo/Rsync.ts** are wrappers around external
  tools and are not part of this model.
- **`getEditorList`** and **`getDiskFreeWithPathKb`** are never called by the
  core and are not modelled. The same goes for `util.$` of src/util/util.ts.
- **The top-level script of src/compo/BackupList.ts, lines 182-196,** runs on
  import and only prints. `isStoreDir` is used only there. The script's
  listing call is stated by `BackupList.LastPageThirdSelected`.
- **The path builders of src/util.ts** (`getStoreDirPath`, `getWorkDirPath`,
  `getTarFile`) are the same expressions as those of src/util/util.ts and
  are modelled once, in `Util`.
- **config.ts** is constant data: `Util.SourceConfig`.

# Airfoil polar pipeline — a Dafny model

This project models the decision logic of an airfoil data pipeline.

- `calculate_aerodynamics.py` runs the XFOIL panel solver over every `.dat` geometry file in `airfoil_data`. It rejects polar tables that fail a data-quality gate, quarantines the geometry of every failed job into `strange_data`, and saves the accepted tables, with `Airfoil` and `CL/CD` columns added, to `xfoil_data.csv`.
- `AirfoilData_Get.py` downloads the geometry files from a web catalogue. It counts each unique link as downloaded, skipped or failed, and then summarises the `.dat` files of a directory in a histogram of 500-byte size ranges.

Modules:

- `Wrappers` holds `Option`.
- `Text` holds the pieces of `str` and `os.path` the code relies on: `lower`, `endswith`, list filters, `join`, `basename`, `splitext`, and the lines of a text.
- `Anomaly` is `is_abnormal`. The polar table is a `seq<Row>` of exact reals, and a missing cell is `None`.
- `Job` is `process_airfoil`:
  - the function `Process` is the specification of one job over a file map;
  - the class `Workspace` is the working directory that the method `ProcessAirfoil` changes in place;
  - the solver run is an oracle value `SolverRun`, which says how the run ended, what polar report it left and what reading that report gives.
- `Multisets` holds facts about sequences and their multisets, used for the completion-order results.
- `Batch` is `main`. The jobs run one after another in their completion order, which is any permutation of the `.dat` names.
- `Download` is the per-link accounting of `download_all_airfoils`. The fetch of a link is an oracle `fetch(link)`.
- `Validation` is `validate_downloaded_files`, whose three exits form the datatype `Report`. The size lookup is an oracle `size(name)`, which is `None` where `getsize` raises `OSError`.

Behaviour of the code that the model keeps:

- A failure exit calls `shutil.move` on the geometry file before it removes the temporary command script. When the geometry file is missing, the move raises, so `temp_<stem>.inp` stays on disk, and `main` only logs the exception. The model gives such a job the outcome `Crashed` (`Job.MissingGeometryLeavesScript`).
- `is_abnormal` returns a boolean and gives no reason for its verdict.
- The jobs of one batch only interfere through shared paths. When no two `.dat` names share an airfoil name, the order in which the pool returns them leaves the outcomes, the collected tables and the dataset rows the same as multisets (`Batch.CompletionOrderIndependent`). The order of the `records` list, and so of the CSV rows, still follows completion order.

## Model

| member | source | states |
|---|---|---|
| Anomaly.SumAbsCl | calculate_aerodynamics.py:33 | the absolute CL sum is never negative |
| Anomaly.SumAbsCd | calculate_aerodynamics.py:33 | the absolute CD sum `df["CD"].abs().sum()` is never negative; `Anomaly.DragSumPositive` states when it is positive |
| Anomaly.IsAbnormal | calculate_aerodynamics.py:26-37 | the five tests in source order; what the verdict means is stated by `Anomaly.AbnormalIffNotAcceptable` and `Anomaly.AbnormalWhen` |
| Anomaly.MaxAbsRatio | calculate_aerodynamics.py:35 | the maximum of abs(CL/CD) bounds every row and is attained by some row |
| Anomaly.SumAbsClZero | calculate_aerodynamics.py:33 | the absolute CL sum is zero exactly when every CL is zero |
| Anomaly.DragSumPositive | calculate_aerodynamics.py:31-33 | once every CD is positive, the absolute CD sum of a non-empty table is positive, so the `CD.abs().sum() == 0` half of the fourth test never fires |
| Anomaly.AbnormalIffNotAcceptable | calculate_aerodynamics.py:26-37 | the table is abnormal exactly when it is not true that it is non-empty, has every cell, has every CD > 0, has some CL non-zero and has no abs(CL/CD) above 500 (both directions) |
| Anomaly.AbnormalWhen | calculate_aerodynamics.py:26-32 | an empty table, a missing cell in any row, and a CD <= 0 in any row each make the table abnormal |
| Anomaly.NormalTableHasRatios | calculate_aerodynamics.py:31-35 | a table that passes the gate has every cell and every CD positive, so CL/CD is defined on every row and bounded by 500 |
| Text.Lower | calculate_aerodynamics.py:41 | the result has the same length and no upper-case ASCII letter; each upper-case letter becomes its lower-case form and every other character is kept |
| Text.LowerIdempotent | calculate_aerodynamics.py:41 | lower-casing a lower-cased name changes nothing |
| Text.Filter | calculate_aerodynamics.py:133 | the filtered names are exactly the names the test accepts, and form a sub-multiset of the listing |
| Text.LastIndexOf | calculate_aerodynamics.py:45 | the index found holds the character and no later index does; -1 means the character is absent |
| Text.Basename | AirfoilData_Get.py:49 | a base name holds no separator |
| Text.BasenameIsLastComponent | AirfoilData_Get.py:49 | the base name is a suffix of the path, and it is either the whole path or preceded by a separator, so it is the last path component |
| Text.SplitExtRoot | calculate_aerodynamics.py:45 | the root is a prefix of the path; when it is shorter, the path continues with a dot followed by no dot and no separator |
| Text.SplitExtRootShortens | calculate_aerodynamics.py:45 | a '.' in the base name with a non-dot character before it starts an extension, so the root is shorter than the path |
| Text.SplitLinesOfUnlines | calculate_aerodynamics.py:65-71 | reading back, line by line, a text written line by line gives the same lines |
| Text.SplitLinesCons | calculate_aerodynamics.py:65-71 | a line without a newline, then a newline, then a text splits into that line followed by the lines of the text |
| Batch.DatFiles | calculate_aerodynamics.py:133 | the names kept are exactly the listing names whose lower-case form ends in ".dat" |
| Job.IsDatName | calculate_aerodynamics.py:41 | the `.dat` test on the lower-cased name; stated character by character by `Job.DatNameIgnoresCase` |
| Job.Stem | calculate_aerodynamics.py:45 | `os.path.splitext(file)[0]`; for a `.dat` name stated by `Job.StemOfDatName` |
| Job.DatNameIgnoresCase | calculate_aerodynamics.py:41 | a name passes the filter exactly when its last four characters are '.', d or D, a or A, t or T |
| Job.StemOfDatName | calculate_aerodynamics.py:45 | the airfoil name of a .dat entry is the entry without its last four characters, or the whole entry when only dots precede them |
| Job.CommandLines | calculate_aerodynamics.py:50-63 | the thirteen lines of the command text; stated literally by `Job.ScriptLines` |
| Job.CommandScript | calculate_aerodynamics.py:50-63 | the command text written to the temp script; `Job.ScriptLines` states that it reads back as `Job.CommandLines` |
| Job.ScriptLines | calculate_aerodynamics.py:50-63 | the command script reads back as: blank, LOAD airfoil_data/<file>, PANE, OPER, VISC 1000000.0, MACH 0.15, ITER 200, PACC, xfoil_results/<stem>_polar.txt, blank, ASEQ -5 15 1, PACC, QUIT |
| Job.JobPathsDistinct | calculate_aerodynamics.py:44-48 | the geometry, quarantine, polar and temp paths of a job are pairwise different |
| Job.GeometryPath | calculate_aerodynamics.py:44 | `os.path.join(airfoil_folder, file)`; `Job.JobPathsDistinct` and `Batch.JoinCancel` state that it differs from the other job paths and determines the file |
| Job.StrangePath | calculate_aerodynamics.py:78 | `os.path.join(strange_folder, file)`; distinct from the other job paths by `Job.JobPathsDistinct` |
| Job.PolarPath | calculate_aerodynamics.py:46 | `os.path.join(result_folder, f"{airfoil_name}_polar.txt")`; distinct from the other job paths by `Job.JobPathsDistinct`, and it determines the airfoil name by `Batch.PolarPathCancel` |
| Job.TempPath | calculate_aerodynamics.py:48 | `f"temp_{airfoil_name}.inp"`; distinct from the other job paths by `Job.JobPathsDistinct` |
| Job.AddColumns | calculate_aerodynamics.py:122-123 | the table keeps its rows in order and adds Airfoil = stem to each, with every row's CL/CD defined and at most 500 in magnitude |
| Job.Workspace.WriteText | calculate_aerodynamics.py:65-66 | writing a text sets that path and nothing else |
| Job.Workspace.RemoveIfExists | calculate_aerodynamics.py:80-81 | the path is gone afterwards and nothing else changes |
| Job.Workspace.Move | calculate_aerodynamics.py:79 | a present source is moved, not copied, to the destination; a missing one makes the move fail with the files unchanged |
| Job.Workspace.SaveCsv | calculate_aerodynamics.py:154 | the saved dataset becomes the given rows |
| Job.Quarantine | calculate_aerodynamics.py:78-81 | the geometry file is moved to strange_data and the temp script is removed, or the outcome is Crashed with the files unchanged when there was nothing to move |
| Job.ProcessAirfoil | calculate_aerodynamics.py:40-129 | the outcome and the new files are those of the job specification `Process`; XFOIL's input is the command script, and there is no run for a non-.dat name |
| Job.AfterRun | calculate_aerodynamics.py:65-75 | the files once the script is written and the solver has run; stated by `Job.AfterRunChanges` |
| Job.FailureOf | calculate_aerodynamics.py:76-120 | the first failure exit that fires, if any; stated exit by exit by `Job.FailureExits` |
| Job.QuarantineStep | calculate_aerodynamics.py:78-81 | the move to strange_data and the temp script removal of a failure exit (the same code at 85-88, 93-96, 108-111 and 116-119); stated by `Job.QuarantineMoves` and `Job.MissingGeometryLeavesScript` |
| Job.Process | calculate_aerodynamics.py:40-129 | one whole job over the file map; stated by `Job.NonDatUntouched`, `Job.FailureExits`, `Job.SuccessExit`, `Job.MissingGeometryLeavesScript` and `Job.OnlyOwnPathsChange`, and met by `Job.ProcessAirfoil` |
| Job.NonDatUntouched | calculate_aerodynamics.py:40-42 | a non-.dat name returns None and leaves every file as it was |
| Job.AfterRunChanges | calculate_aerodynamics.py:65-75 | writing the script and running the solver changes only the temp script, which holds the command script, and the polar report |
| Job.QuarantineMoves | calculate_aerodynamics.py:78-81 | with the geometry present, a failure exit removes it from airfoil_data, puts its content under strange_data with the same name, removes the temp script and changes nothing else |
| Job.FailureExits | calculate_aerodynamics.py:76-120 | with the geometry present, each of the five exits fires exactly on its own condition, in source order; the outcome is then a quarantine or a success, and a quarantine leaves the geometry moved to strange_data and no temp script |
| Job.UsableOutputAfterRun | calculate_aerodynamics.py:91 | the output is usable when the report the run wrote has at least 200 bytes, or, when the run wrote none, when a large enough report was already there |
| Job.UsableOutput | calculate_aerodynamics.py:91 | the negation of the line-91 test: the polar report exists and has at least 200 bytes; stated after the run by `Job.UsableOutputAfterRun` |
| Job.SuccessExit | calculate_aerodynamics.py:91-129 | a success has a finished run whose polar report exists with at least 200 bytes, and a parsed table that passes the gate; the result keeps every parsed row, adds Airfoil = stem and CL/CD = CL/CD, removes the temp script and leaves the geometry file in place |
| Job.MissingGeometryLeavesScript | calculate_aerodynamics.py:76-120 | with the geometry already gone, a job succeeds exactly when the run finished, its report exists with at least 200 bytes, the report parses and the table passes the gate; otherwise it crashes in `shutil.move`, leaving the temp script holding the command script |
| Job.OnlyOwnPathsChange | calculate_aerodynamics.py:40-129 | a job changes no path other than its geometry, quarantine, temp and polar paths |
| Job.SucceededRowsValid | calculate_aerodynamics.py:114-123 | every row a job returns is complete, has CD > 0 and has CL/CD computed from its own CL and CD with magnitude at most 500 |
| Batch.Successes | calculate_aerodynamics.py:143-148 | the records are exactly the tables the jobs returned, never more than there are jobs |
| Batch.Concat | calculate_aerodynamics.py:153 | a row of the dataset is exactly a row of some record |
| Batch.RunJobs | calculate_aerodynamics.py:140-148 | the jobs run in completion order, one outcome per job; stated by `Batch.RunJobsStep`, `Batch.RunJobsAlone` and `Batch.CompletionOrderIndependent` |
| Batch.RunBatch | calculate_aerodynamics.py:132-158 | the files and outcomes are those of running the jobs in completion order; records are the returned tables; the valid count is their number; the CSV is written, with their concatenation, exactly when there is a record; with no .dat file nothing changes |
| Batch.RunJobsStep | calculate_aerodynamics.py:143-148 | the state after one more completed job is that job run on the state before it |
| Batch.SuccessesAppend | calculate_aerodynamics.py:143-148 | collecting over two runs of outcomes collects the first then the second |
| Batch.ConcatAppend | calculate_aerodynamics.py:153 | concatenation distributes over appending record lists |
| Batch.SuccessesCount | calculate_aerodynamics.py:143-148 | each table is collected as many times as a job returned it |
| Batch.ConcatWithout | calculate_aerodynamics.py:153 | removing one record from the list removes exactly its rows from the dataset's multiset |
| Batch.ConcatThree | calculate_aerodynamics.py:153 | the rows of a record between two lists of records are the rows of the first list, then its own, then those of the second |
| Batch.ConcatPermutation | calculate_aerodynamics.py:153 | the same records in any order give the same multiset of dataset rows |
| Batch.AggregationOrderIndependent | calculate_aerodynamics.py:140-153 | the same job outcomes in any completion order give the same multiset of records and of dataset rows |
| Batch.DatasetRowsValid | calculate_aerodynamics.py:114-123 | every row of the saved dataset passed the quality gate and carries its own CL/CD |
| Batch.WrittenIffSomeSuccess | calculate_aerodynamics.py:152-158 | there is something to save exactly when some job returned a table |
| Batch.ForeignPaths | calculate_aerodynamics.py:44-48 | a job with another airfoil name never owns the geometry path or the polar path of this job |
| Batch.JoinCancel | calculate_aerodynamics.py:44 | two names joined onto the same folder give the same path only when the names are equal |
| Batch.PolarPathCancel | calculate_aerodynamics.py:46 | two airfoil names share a polar report path only when they are equal |
| Batch.SameView | calculate_aerodynamics.py:40-129 | a job's outcome depends on the files only through the presence of its geometry file and the presence and content of its polar report |
| Batch.RunJobsFrame | calculate_aerodynamics.py:140-148 | a path that no job of the batch owns keeps its presence and its content through the whole batch |
| Batch.LastJobAlone | calculate_aerodynamics.py:140-148 | after jobs with other airfoil names, a job ends as it would on the starting files |
| Batch.DistinctStemsPrefix | calculate_aerodynamics.py:141 | a prefix of a batch with distinct airfoil names has distinct names, none equal to the next job's |
| Batch.AloneSnoc | calculate_aerodynamics.py:141-148 | running one more job alone appends its own outcome |
| Batch.RunJobsAlone | calculate_aerodynamics.py:140-148 | with distinct airfoil names, each job in the batch has the outcome it would have alone on the starting files |
| Batch.AlonePermutation | calculate_aerodynamics.py:140-148 | the same jobs in another order, each run alone, give the same multiset of outcomes |
| Batch.CompletionOrderIndependent | calculate_aerodynamics.py:140-153 | with distinct airfoil names, any two completion orders of the same jobs give the same multiset of outcomes, of collected tables and of dataset rows |
| Batch.ListedJobsNeverCrash | calculate_aerodynamics.py:133-150 | when every listed geometry file is present and the airfoil names are distinct, no job crashes in `shutil.move` (the failure exits are at lines 76-120) |
| Download.Dedup | AirfoilData_Get.py:35 | the unique links have no duplicates and hold exactly the scraped links |
| Download.LocalPath | AirfoilData_Get.py:49-50 | the output folder joined with the link's base name; `Text.BasenameIsLastComponent` states that this is the link's last path component |
| Download.FetchLink | AirfoilData_Get.py:46-84 | a link is fetched exactly when it is not skipped; its four cases are stated by `Download.ExistingFileSkipped`, `Download.FailedFetchIsError`, `Download.ShortBodyIsError` and `Download.LargeBodyDownloaded` |
| Download.Store.Write | AirfoilData_Get.py:72-73 | writing a body sets that path and nothing else |
| Download.DownloadAll | AirfoilData_Get.py:31-90 | with no links nothing happens; otherwise the counters, the files and the fetched links are those of the tally `TallyLinks` over the shuffled unique links |
| Download.TallyStep | AirfoilData_Get.py:46-84 | the tally after one more link is that link's outcome added to the tally before it |
| Download.TallyLinks | AirfoilData_Get.py:46-84 | the three counters, the files and the fetched links after the given links in order; stated by `Download.TallyStep`, `Download.EveryLinkCountedOnce`, `Download.FetchedAreDownloadsAndErrors` and `Download.OnlyLargeNewFiles` |
| Download.ShuffledLinksUnique | AirfoilData_Get.py:35-42 | a shuffle of the unique links has no duplicates and holds exactly the scraped links |
| Download.EveryLinkCountedOnce | AirfoilData_Get.py:38-90 | every link lands in exactly one counter, so the counters add up to the number of links |
| Download.AllLinksAccounted | AirfoilData_Get.py:35-90 | over the shuffled unique links, the counters add up to `len(unique_links)` |
| Download.FetchedAreDownloadsAndErrors | AirfoilData_Get.py:52-83 | the links fetched are exactly as many as the downloads and errors together |
| Download.ExistingFileSkipped | AirfoilData_Get.py:52-55 | a link whose local file exists is skipped, never fetched and writes nothing |
| Download.ShortBodyIsError | AirfoilData_Get.py:66-70 | a body under 50 bytes is not written and counts as an error |
| Download.LargeBodyDownloaded | AirfoilData_Get.py:66-75 | a body of 50 or more bytes for a new local path is written there and counts as a download |
| Download.FailedFetchIsError | AirfoilData_Get.py:59-83 | a request failure or any other exception for a new local path writes nothing and counts as an error |
| Download.OnlyLargeNewFiles | AirfoilData_Get.py:66-75 | existing files are never changed, and every new file holds the body of 50 or more bytes fetched for a link with that local path |
| Download.DownloadsAreNewFiles | AirfoilData_Get.py:46-84 | over the whole loop the local files only grow, and `downloaded_count` is exactly the number of local files that were not there before |
| Download.NewFilesStep | AirfoilData_Get.py:52-75 | one more link keeps the download count equal to the number of new local files |
| Download.FetchLinkWrites | AirfoilData_Get.py:52-83 | only a download changes the files, and it writes the body at a local path that was absent |
| Download.OneNewKey | AirfoilData_Get.py:72-75 | writing one path that was absent adds one to the number of new paths |
| Validation.DatFiles | AirfoilData_Get.py:106 | the names kept are exactly those ending in ".dat", case-sensitively |
| Validation.IsDatFile | AirfoilData_Get.py:106 | `f.endswith('.dat')`, case-sensitively; `Validation.DatFiles` states the filter it drives |
| Validation.BucketOf | AirfoilData_Get.py:118 | the lower bound is a multiple of 500 and lower <= size <= lower + 499 |
| Validation.BucketUnique | AirfoilData_Get.py:118 | the only range that holds a size is its own |
| Validation.Found | AirfoilData_Get.py:115-121 | no more names have a size than there are names |
| Validation.CountIn | AirfoilData_Get.py:115-121 | a range counts no more names than have a size |
| Validation.Histogram | AirfoilData_Get.py:114-121 | the counts per 500-byte range; stated by `Validation.HistogramCounts` and `Validation.HistogramTotal` |
| Validation.SampleSize | AirfoilData_Get.py:127 | the sample size is min(10, number of .dat files) |
| Validation.HistogramStep | AirfoilData_Get.py:115-121 | one more name adds one to its range's count when its size is found, and changes nothing when getsize fails |
| Validation.TotalIncrement | AirfoilData_Get.py:119 | `size_stats.get(r, 0) + 1` adds one to the sum of the counts |
| Validation.HistogramTotal | AirfoilData_Get.py:114-121 | the counts add up to the number of files whose size lookup succeeded |
| Validation.HistogramCounts | AirfoilData_Get.py:114-121 | each range present counts exactly the files whose size falls in it, and a range is present exactly when it counts some file |
| Validation.ValidateDownloadedFiles | AirfoilData_Get.py:99-127 | the three exits (no directory, no .dat file, summary); the summary holds the .dat names, their size histogram and the sample size, and its counts add up to the files whose size was found |

## Left out

- Running XFOIL is not modelled: the subprocess, its 10-second timeout, captured output and the solver path are replaced by the oracle value `SolverRun`.
- The model does not capture what a timed-out or faulted run might already have written to the polar file; such a run leaves no report.
- `ProcessPoolExecutor` concurrency is not modelled: jobs run one after another in completion order. Two names with the same stem (`a.dat` and `a.DAT`) share a temp script and a polar report, and their interleaving is outside the model.
- `pd.read_csv` tokenisation (skip 12 lines, whitespace-separated, 7 named columns) is the oracle value `Parse`. A short row is a row with `None` cells.
- The path where `is_abnormal` raises on non-numeric columns, and `main` logs the exception, is not modelled: cells are typed reals.
- IEEE floating point (NaN, infinities, rounding of the sums and of CL/CD) is not modelled: cells are exact reals.
- `AirfoilData_Generate.py` is not part of this model.
- In AirfoilData_Get.py, these are not modelled:
  - the HTTP session, headers, timeouts, `raise_for_status` and `urljoin`;
  - the regex scrape of the catalogue page, and the error paths of that page's fetch;
  - `random.shuffle`, which is modelled as any permutation `order` of the unique links;
  - `time.sleep`;
  - `os.makedirs`.
- The choice made by `random.sample` is not modelled; only its size is.
- Printing is not modelled: the per-range lines sorted by label and the sizes printed for the sample.
- Download.FetchLink: a failure while writing a body after `open` succeeded is folded into the error outcome of the fetch oracle, so a partially written file is not modelled.
- Validation.BucketOf: the histogram key is the pair (lower, upper) rather than the text `"{lower}-{upper} bytes"`, which it determines one to one.
- Job.Workspace.SaveCsv: the dataset is kept as rows, not as CSV text.
- Job.UsableOutputAfterRun: the report size is its length in characters, which equals `os.path.getsize` for the ASCII reports XFOIL writes.
- Text.Lower: lower-casing covers only ASCII letters; `str.lower` also folds other scripts.
- Text.SplitExtRoot: paths use '/' as the only separator, as on POSIX; the Windows separator is not modelled.
- Batch.RunBatch: the listing of `airfoil_data` is an input and is not derived from the file map; that every listed geometry file is present is a hypothesis of `Batch.ListedJobsNeverCrash`.
- Batch.CompletionOrderIndependent: two listed names with the same airfoil name (`a.dat` and `a.DAT`) share a temp script and a polar report, so their order can change the outcome; the lemma requires distinct airfoil names.
- `makedirs` of the result and quarantine folders at import time is not modelled: the folder prefixes are just part of the paths.

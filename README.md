# auto_mega: the logic under the browser automation

auto_mega runs BLASTP searches and ClustalW alignments for every (query × organism) pair by
driving web pages through Selenium, archives each downloaded result under the organism's name
and keeps going when one job fails. This project models, in Dafny, the parts of it that are
list, string, file and control logic:

- **Input loading** (`Loader`): `load_input` tries utf-8, shift-jis and cp932 in this order
  and returns the lines of the first text that decodes; the variant in grab_fastq.py,
  auto_blast.py and auto_clustalw.py first rejects any extension other than `.txt`. Decoding
  is an oracle: a file is the map from each encoding that decodes it to the text it gives.
- **Maintenance** (`Maintenance`, utils.py): `pickup_same` (duplicate report and
  `dict.fromkeys` deduplication), `delete_finished` (`list.remove` of each finished name),
  `get_all_txt` (stems of the result files) and `delete_blank` (header rewriting), each
  with the exact text written back. `Seqs` and `Text` hold the Python list and `str`
  behaviour these depend on: `dict.fromkeys`, `list.remove`, `str.split`, `split()[0]`,
  `splitlines`, `readlines`, `int()`.
- **FASTA parsing and selection** (`Fasta`, `Selection`, `GrabFastq`, grab_fastq.py):
  `parse_fastq` as a loop over an insertion-ordered dictionary; `search_accessions`; the
  accession list; the interpretation of a confirmed line of tokens (`all`, a search
  fragment, `nK`, a trailing `ex`).
- **Download poll, archive and batch** (`Jobs`, `Files`, `AutoBlast`, `AutoClustalw`):
  `wait_download` as a counted loop over an existence oracle; the rename of the raw download;
  the nested query × organism loops with each script's own exception handlers. The
  filesystem is a value `map<string, TextFile>` passed through the methods. A job's browser
  part is an abstract value (`Jobs.Job`): its session either completed or raised an exception
  (ElementNotInteractable, SeleniumTimeout, another one), and its download arrives at a given
  existence check or never.

The batch is specified by recursive functions over the remaining jobs (`Jobs.RunRow`,
`AutoBlast.RunQueries`, `AutoClustalw.RunQueries`). The methods with the source's loops
are proved equal to them. Lemmas then state the order of the jobs, which exception ends a
batch, what is logged, and that no file other than a raw download is ever removed or
shortened.

Points of the code that the model keeps as written:
- auto_blast.py ends its handlers with a bare `except` that reports the job and goes on
  (auto_blast.py:139-141). auto_clustalw.py catches only TimeoutException and
  DownloadTimeoutException (auto_clustalw.py:111-118), so any other exception of a job
  leaves its loops and ends the run (`AutoClustalw.ClustalwJobClassified`);
- a DownloadTimeoutException is only reported with `tqdm.write`; unlike a missing homology
  or a ClustalW timeout, nothing is appended to a log file (auto_blast.py:136-138,
  auto_clustalw.py:116-118);
- when `load_input` gives None, the script prints an error and still enters
  `for ... in query_list`, which raises TypeError (auto_blast.py:118-120,
  auto_clustalw.py:97-99);
- `query, code = query_line.split(",")` requires exactly two comma-separated fields and
  raises ValueError otherwise (auto_blast.py:121).

`os.rename` is modelled with Windows semantics, which the encodings point to: an existing
destination raises FileExistsError.

## Model

| member | source | states |
|---|---|---|
| Loader.FirstDecoding | utils.py:10-16 | the encoding loop returns the text of the first of utf-8, shift-jis, cp932 that decodes the file, None when none does |
| Loader.Decoded | utils.py:10-19 | None exactly when no encoding decodes; otherwise the text of the first encoding in order that does |
| Loader.Load | utils.py:9-23 | a missing file raises FileNotFoundError; None exactly when all three encodings fail; otherwise the lines of the first text that decodes |
| Loader.LoadInput | utils.py:9-23 | the loop-and-early-return implementation equals `Load` |
| Loader.LoadText | grab_fastq.py:24-41 | any extension other than ".txt" gives None without opening the file; a ".txt" path loads as in utils.py |
| Loader.LoadTextInput | auto_blast.py:35-52 | the extension-checking `load_input` (also auto_clustalw.py:30-47) equals `LoadText` |
| Loader.LoadRoundTrip | utils.py:13 | a file whose first decoding is its lines each ending in "\n" loads as exactly those lines |
| Text.SplitLines | utils.py:13 | `splitlines` yields lines without line boundaries, none exactly when the text is empty |
| Text.SplitLinesOfTerminated | utils.py:51-54 | lines written one per line read back as the same lines, followed by the lines of what follows |
| Text.FirstToken | utils.py:32 | `split()[0]` is None (IndexError) exactly when the text is all whitespace; otherwise a non-empty whitespace-free run starting at the first non-space character and ending at whitespace or the end |
| Text.FirstTokenIgnoresNewline | utils.py:32 | the newline added to the last item does not change its first token |
| Text.Split | utils.py:70 | `split(sep)` gives one piece more than separators, no piece holds the separator, and joining gives the input back |
| Text.DigitZero | grab_fastq.py:121 | the characters `int()` reads as digits are the Unicode 15.0 decimal digits, in runs of ten from a zero; a digit's value is its distance from its run's zero |
| Text.Pieces | grab_fastq.py:121 | `int()`'s reading of a text: leading whitespace as `int()` strips it (the `str.isspace` characters except `\x1c` to `\x1f`), a sign that is empty, `+` or `-`, the rest, and trailing whitespace of the same kind |
| Text.PiecesCover | grab_fastq.py:121 | the pieces put back together are the text |
| Text.ParseInt | grab_fastq.py:121 | `int()` succeeds exactly when the part between sign and trailing whitespace is a numeral (Unicode decimal digits with single `_` between them) of at most 4300 digits; the value is the numeral's, negated under `-` |
| Text.ParseIntAccepts | grab_fastq.py:121 | `int()` whitespace, an optional sign, a numeral and `int()` whitespace read as the signed value of the numeral when it has at most 4300 digits, and raise ValueError when it has more; with `Pieces` and `ParseInt` this is the whole set of texts `int()` accepts under Python's default digit limit |
| Text.ParseIntKeepsSeparators | grab_fastq.py:121 | a numeral followed by one of `\x1c` to `\x1f` raises ValueError: `int()` does not strip those separators |
| Text.NumeralStart | grab_fastq.py:121 | a numeral begins with a digit, so it is never taken for whitespace or a sign |
| Text.ParseIntDigit | grab_fastq.py:121 | a single ASCII digit reads as its value |
| Seqs.FromKeys | utils.py:31 | `dict.fromkeys` keeps each value of the input exactly once and contains nothing else |
| Seqs.FromKeysFirstOccurrenceOrder | utils.py:31 | the deduplicated values are in the order of their first occurrence in the input |
| Seqs.RemoveFirst | utils.py:50 | `list.remove` takes out the first occurrence: the elements before the first `x`, then those after it; length minus one, multiset minus that value |
| Seqs.RemoveFirstIsSubsequence | utils.py:50 | after `list.remove` the other elements keep their order |
| Maintenance.SameItemsAreRepeats | utils.py:30 | the "same items" report lists exactly the values counted more than once, each once, in first-occurrence order |
| Maintenance.SavedTextJoins | utils.py:51-52 | the written list is the items joined with "\n", no trailing newline, the last item cut to its first token; an empty or blank last item raises IndexError |
| Maintenance.SavedListReloads | utils.py:51-54 | reading the written list back gives the items with the last one cut to its token |
| Maintenance.CutLast | utils.py:32 | overwriting the last entry with its first token never produces the entry "\n" |
| Maintenance.TerminatedEmpty | utils.py:33 | the write list holds "\n" exactly when the list holds an empty item |
| Maintenance.RemoveTerminatedEmpty | utils.py:33 | `write_list.remove("\n")` removes the entry of the first empty item and no other |
| Maintenance.DedupTextJoins | utils.py:31-35 | with `exclude`, the deduplicated list is written joined by "\n" without its first empty item and with the last cut to its token; ValueError when no item before the last is empty |
| Maintenance.DedupWrite | utils.py:31-33 | overwriting and removing in the write list in place gives `DedupText` |
| Maintenance.PickupSame | utils.py:26-38 | the report is always computed; organism.txt is rewritten only with `exclude` and a successful write, and nothing changes otherwise |
| Maintenance.RemoveEachIsSubsequence | utils.py:48-50 | what `delete_finished` keeps is a subsequence of the pending list |
| Maintenance.RemoveEachCounts | utils.py:48-50 | each finished entry removes one equal pending entry if there is one and nothing otherwise: the multiset difference |
| Maintenance.RemoveEachKeepsUnfinished | utils.py:48-50 | pending entries named in no finished list are all kept, in their original relative order |
| Maintenance.RemoveEachAppend | utils.py:45-50 | the names from `path` are processed after those of finished_organism.txt |
| Maintenance.LoadFinished | utils.py:43-47 | the finished names are those of finished_organism.txt, then those of `path`; a missing file raises its error, `extend` on None AttributeError and iterating over None TypeError |
| Maintenance.RemoveAll | utils.py:48-50 | the loop of `list.remove` calls equals `RemoveEach`, whose properties follow |
| Maintenance.WriteList | utils.py:51-52 | building the write list and cutting its last entry to its first token equals `SavedText` |
| Maintenance.DeleteFinished | utils.py:41-54 | the loop of `list.remove` calls writes organism.txt with `DeleteFinishedOutcome`; on an exception no file changes |
| Maintenance.GetAllTxt | utils.py:57-61 | finished_organism.txt is rewritten with each result file's stem followed by "\n", in the glob's order |
| Maintenance.StemsOfSaved | utils.py:61 | a result saved as `<dir>/<organism>.txt` contributes exactly the name `<organism>` |
| Maintenance.GetAllTxtFeedsDeleteFinished | utils.py:59-61 | the list `get_all_txt` writes is read back by `delete_finished` as exactly those stems |
| Maintenance.ReadLines | utils.py:66 | `readlines` pieces are non-empty and concatenate to the text |
| Maintenance.ReadLinesPieces | utils.py:66 | every piece but the last ends in "\n", and no piece holds a "\n" before its last character |
| Maintenance.RewriteLineMeaning | utils.py:68-73 | a non-header line is copied verbatim; a header with a space has its first space replaced by "_"; a header with none gets "_" appended after its newline |
| Maintenance.DeleteBlank | utils.py:64-73 | the line loop writes each line's rewrite in order |
| Maintenance.DeleteBlankWithoutHeaders | utils.py:72-73 | a file without header lines is written back unchanged |
| Maintenance.DeleteBlankLineByLine | utils.py:68-73 | the output is the first line's rewrite followed by the rewrite of the rest |
| Maintenance.DeleteBlankHeaderWithoutSpace | utils.py:69-71 | the "_" of a header with no space lands at the start of the following line |
| Paths.Basename | auto_clustalw.py:106 | the base name holds no separator and is the text after the last one |
| Paths.SplitExt | grab_fastq.py:25 | root and extension concatenate to the path; a non-empty extension is a dot followed by no dot or separator |
| Paths.StemOfSaved | auto_clustalw.py:106 | the organism name of `<dir>/<name>.<ext>` is `<name>` |
| Fasta.Assign | grab_fastq.py:60 | assigning to a dictionary key updates its value; a new key goes last and an existing one keeps its place |
| Fasta.FirstLineOfLine | grab_fastq.py:60-63 | `line.splitlines()[0]` of a loaded line is the line itself |
| Fasta.ParseFastq | grab_fastq.py:52-64 | the loop over the lines equals `ParseOutcome`: None when loading gives None, else the dictionary or the exception that escaped |
| Fasta.ScanStopsAtError | grab_fastq.py:58-63 | once a line raises, the rest of the file does not matter |
| Fasta.ParseContents | grab_fastq.py:58-63 | the keys are exactly the header lines, each once, in first-appearance order; each value is the concatenation of the lines after the header's last occurrence up to the next header |
| Fasta.ParseErrors | grab_fastq.py:59-63 | the parse succeeds exactly when every line is non-empty and the first is a header; a sequence line first raises KeyError, otherwise an empty line raises IndexError |
| Fasta.AccessionOfHeader | grab_fastq.py:93-94 | the header `>ID description` yields the accession `ID` |
| GrabFastq.QueryId | grab_fastq.py:84 | the query id is the prefix of the line up to, not including, its first comma |
| GrabFastq.CollectAccessions | grab_fastq.py:92-94 | the append loop yields, per key, the first space-separated token without its first character |
| GrabFastq.GrabFile | grab_fastq.py:88-94 | parse, species, accessions and selection of one file equal `FileChoice` |
| GrabFastq.FileAccessions | grab_fastq.py:88-94 | the accessions offered are one per distinct header line, in order, each the header's first token without '>' |
| GrabFastq.FileChoiceErrors | grab_fastq.py:88-91 | a file that loads as None makes `seq_dict.keys()` raise AttributeError; a loaded file is listed exactly when it parses |
| Selection.Matches | grab_fastq.py:69-71 | the matching positions, ascending, are exactly those of the accessions containing the query |
| Selection.UniqueMatch | grab_fastq.py:67-77 | a result `i` is an index whose accession contains the query, and no other accession does |
| Selection.NoUniqueMatch | grab_fastq.py:73-74 | when None is returned, no accession is the only one containing the query |
| Selection.CollectChoices | grab_fastq.py:68-71 | the first loop collects the accessions at the matching positions, in order |
| Selection.SearchAccessions | grab_fastq.py:67-77 | the collect-then-scan loops return `UniqueMatch` |
| Selection.Tokens | grab_fastq.py:101-104 | a first token `all` replaces the tokens by the accessions; otherwise the line split on single spaces |
| Selection.TokensOfWord | grab_fastq.py:101 | a line of one word other than `all` is one token |
| Selection.PickToken | grab_fastq.py:114-127 | one pass of the token loop picks what `TokenPick` says as written: a unique match's position, an in-range listed number, the sentinel, a re-prompt or ValueError |
| Selection.TokenPickRange | grab_fastq.py:114-127 | a number one token picks is at most the number of accessions, or, as written only, the sentinel 10000000 |
| Selection.ChooseNumbers | grab_fastq.py:109-127 | the token loop equals the as-written selection `ChooseTokens` |
| Selection.ChooseMeaning | grab_fastq.py:109-127 | the numbers are picked in token order when every token before a trailing `ex` picks one; after `ex`, the indices in `range(len(accessions))` that no token named; otherwise the first non-picking token asks again or raises ValueError |
| Selection.ExAfterListedNumber | grab_fastq.py:110-122 | `n1 ex` keeps index 0 and drops index 1: the 1-based `nK` and the 0-based complement do not agree |
| Selection.SentinelSlipsThrough | grab_fastq.py:123-127 | with fewer accessions than the digit after `n` (`n5` with one accession) the line picks 10000000 as written, and asks again when corrected |
| Selection.ListedPick | grab_fastq.py:121-127 | `n` and one digit picks that number when it is at most the number of accessions; otherwise the sentinel as written, a re-prompt when corrected |
| Selection.CorrectedNumbersInRange | grab_fastq.py:121-127 | with the re-prompt condition corrected, every picked number is at most the number of accessions |
| Selection.AsWrittenNumbersInRangeOrSentinel | grab_fastq.py:123-127 | as written, a picked number beyond the accessions can only be the sentinel 10000000 |
| Jobs.PollFrom | auto_blast.py:87-91 | the first successful check from `from`, below `limit`, with every check before it failing |
| Jobs.Poll | auto_blast.py:86-92 | found at check k < limit exactly when checks 0..k-1 fail and check k succeeds; None exactly when all `limit` checks fail |
| Jobs.WaitDownload | auto_blast.py:86-92 | returns at the first successful check; a success at check k costs k sleeps and k+1 checks; a timeout costs exactly `limit` checks and `limit` sleeps |
| Jobs.PollArrived | auto_clustalw.py:72-78 | a leftover raw file is found at the first check; otherwise the download is found at its arrival check if that is within the limit |
| Jobs.WaitFinds | auto_clustalw.py:72-78 | the default wait of 120 checks succeeds exactly when the raw file is there or arrives in time |
| Jobs.FetchOutcomes | auto_blast.py:104-107 | the raw file is renamed to `<organism>.<ext>` in the same directory only after the session completed and the wait succeeded; on a timeout the only change is a late download landing under the raw name |
| Jobs.LateDownloadMisfiled | auto_blast.py:104-107 | a download that lands after its wait gave up is archived by the next job under the next organism's name, and that job reports no error |
| Jobs.FetchErrors | auto_clustalw.py:84-87 | a job ends with its session's exception and no change, or, after a completed session, without error, with a timeout or with a name conflict |
| Jobs.Download | auto_blast.py:104-107 | the wait followed by the rename equals `Fetch` |
| Jobs.FetchGrows | auto_clustalw.py:84-87 | a job removes or shortens no file other than the raw download |
| Files.RenameOutcomes | auto_blast.py:107 | a missing source raises FileNotFoundError, an existing destination FileExistsError; otherwise the file moves and nothing else changes |
| Files.AppendContents | auto_blast.py:133-134 | appending creates a missing log holding the text, or extends the existing one by the text; no other file changes |
| Files.AppendGrows | auto_clustalw.py:113-114 | an append only extends the log it writes to |
| Files.SavedLoads | utils.py:34-35 | a written file reads back as the lines of what was written |
| Jobs.RunRowOrder | auto_blast.py:125 | the inner loop appends one event per job, organism by organism in list order |
| Jobs.RunRowEnds | auto_clustalw.py:105-118 | the inner loop completes the row exactly when no job raised, and otherwise stops at the first that did, with its exception |
| Jobs.RunRowCompletes | auto_blast.py:125-141 | a row whose jobs never raise always completes |
| Jobs.RunRowGrows | auto_blast.py:125-135 | a row whose jobs only extend files other than raw downloads does the same |
| AutoBlast.TryJob | auto_blast.py:126-141 | the `try` body and its three handlers equal `BlastJob` |
| AutoBlast.BlastJobClassified | auto_blast.py:126-141 | logged exactly on ElementNotInteractableException, appending exactly `organism + "\n"` to `<id> - no homology.txt`; archived exactly on success; a download timeout and any other exception only reported; no job ends the batch |
| AutoBlast.HandledKinds | auto_blast.py:126-141 | given how the download ended: logged exactly on ElementNotInteractableException, archived exactly without error, every other exception reported with the files the download left; never raised |
| AutoBlast.BlastRowsComplete | auto_blast.py:136-141 | no job of `auto_blastp` raises past the handlers |
| AutoBlast.RunOrganisms | auto_blast.py:125-141 | the inner loop over the organisms equals `RunRow` and always completes |
| AutoBlast.RunBatch | auto_blast.py:120-141 | the outer loop over the query lines equals `RunQueries` |
| AutoBlast.AutoBlastp | auto_blast.py:110-141 | the whole run equals `AutoBlastpRun`; the input check only prints and falls through |
| AutoBlast.RunQueriesOrder | auto_blast.py:120-125 | jobs run query line by query line, each with every organism in order, up to the first malformed line |
| AutoBlast.RunQueriesPlanned | auto_blast.py:120-125 | when no job raises, the outer loop runs exactly the planned jobs: each well-formed line with every organism, up to the first malformed line |
| AutoBlast.PlannedGrid | auto_blast.py:120-125 | the planned jobs are the query-id × organism grid of the lines before the first malformed one |
| AutoBlast.RunQueriesError | auto_blast.py:121 | the batch stops with ValueError at the first line that does not split into two comma fields, and completes when there is none |
| AutoBlast.BatchOrder | auto_blast.py:120-141 | order, error and "no job raised" together for a batch from its first line |
| AutoBlast.AutoBlastpOrder | auto_blast.py:114-141 | on loaded lists the jobs are the query × organism grid up to the first malformed line, completion exactly when all lines are well formed, and no job event ends the batch |
| AutoBlast.MissingOrganismList | auto_blast.py:115-125 | without an organism list no job runs and no file changes; the batch raises TypeError at the first query line when it splits into two fields, ValueError when it does not, and completes when there is no query line |
| AutoBlast.BlastJobGrows | auto_blast.py:131-135 | a job removes or shortens no file but a raw `seqdump.txt`; the log is only appended to |
| AutoBlast.RunQueriesGrows | auto_blast.py:120-141 | across the outer loop, every file other than a raw download stays and keeps its text as a prefix |
| AutoBlast.AutoBlastpGrows | auto_blast.py:110-141 | across a whole run, no file but the raw `seqdump.txt` is removed or shortened |
| AutoClustalw.TryJob | auto_clustalw.py:107-118 | the `try` body and its two handlers equal `ClustalwJob` |
| AutoClustalw.ClustalwJobClassified | auto_clustalw.py:107-118 | logged exactly on selenium's TimeoutException, appending `organism + "\n"` to `<query> - error.txt`; a download timeout only reported; any other exception ends the batch, and after a completed session that can only be a name conflict |
| AutoClustalw.HandledKinds | auto_clustalw.py:107-118 | given how the download ended: logged exactly on TimeoutException, archived exactly without error, a download timeout reported, any other exception raised, the latter two with the files the download left |
| AutoClustalw.RunOrganisms | auto_clustalw.py:105-118 | the loop over the result files, each organism the stem of its file, equals `RunRow` |
| AutoClustalw.RunBatch | auto_clustalw.py:99-118 | the loop over the whole query lines, each with the files globbed from `ROOT/blastp/<query>`, equals `RunQueries` |
| AutoClustalw.AutoClustalw | auto_clustalw.py:90-118 | the whole run equals `AutoClustalwRun` |
| AutoClustalw.RunQueriesOrder | auto_clustalw.py:99-105 | the jobs done are a prefix of the query × result-file order, all of it when the batch completes |
| AutoClustalw.RunQueriesPlanned | auto_clustalw.py:99-118 | the jobs done are a prefix of the planned jobs, each line with its result files, and all of them when the batch completes |
| AutoClustalw.PlannedGrid | auto_clustalw.py:99-105 | the planned jobs are the grid of the query lines and the organisms of each |
| AutoClustalw.RunQueriesEnds | auto_clustalw.py:107-118 | the batch ends at the first job that raised an uncaught exception, with that exception; it completes exactly when none did |
| AutoClustalw.AutoClustalwOrder | auto_clustalw.py:99-118 | on a loaded query list, order and the first uncaught exception, together |
| AutoClustalw.BatchOrder | auto_clustalw.py:99-118 | order, first uncaught exception and completion together for a batch from its first line, whatever the jobs do |
| AutoClustalw.NoQueryList | auto_clustalw.py:94-99 | a missing query list raises FileNotFoundError; a non-text or undecodable one TypeError at the loop; no job runs |
| AutoClustalw.ClustalwJobGrows | auto_clustalw.py:111-115 | a job removes or shortens no file but a raw `clustalw.dnd`; the error log is only appended to |
| AutoClustalw.RunQueriesGrows | auto_clustalw.py:99-118 | the logs and archived trees are only added to, also when the batch is cut short |
| AutoClustalw.AutoClustalwGrows | auto_clustalw.py:90-118 | across a whole run, no file but the raw `clustalw.dnd` is removed or shortened |

## Left out

- Everything Selenium does (`open_new_browser`, `wait_by_xpath`, `run_blast`, `run_clustalw`, the clicks, `execute_script`, ActionChains): a foreign library. Each job's browser part is the abstract `Jobs.Job` value.
- `assist_blastp` and auto_blastp.py: only browser driving, with nothing to archive or classify.
- `write_excel`: spreadsheet output through openpyxl.
- The interactive prompts: the `--simple` query prompt, the confirmation loop of `grab_fastq` and its re-prompt loops. Where the source would ask again, the model returns `NeedsPrompt` with the token; the confirmed line is a parameter.
- argparse, tqdm and every printed message. The input checks of `auto_blastp` and `auto_clustalw` are modelled as falling through, because that is all they do.
- Wall-clock time: the model counts existence checks and sleeps instead of seconds. The 20 s and 300 s page waits belong to Selenium.
- `glob.glob` and its order: a parameter in `AutoClustalw` and in `Maintenance.GetAllTxt`. The grab_fastq.py loop over the query lines and globbed files is modelled only per file (`GrabFastq.GrabFile`).
- `os.makedirs(..., exist_ok=True)`: directories are not represented, and it changes no file.
- Paths: POSIX `/` joining. Windows drive letters and backslashes are not modelled.
- Byte-level decoding: each file is given as the text every successful encoding yields.
- `delete_blank`'s file handling: the model works on the text read, not on the file it opens or the `<stem>_delB.txt` path it writes.
- Selection.ChooseMeaning: the `ex` complement is stated as a set. Its order comes from `list(set(...))`, and that order only reaches the `print` at grab_fastq.py:128.
- Jobs.Fetch: the browser's renaming of a download that finds `seqdump.txt` or `clustalw.dnd` already present is not modelled. The new download is taken to go elsewhere, and a leftover raw file is archived instead.
- Jobs.Fetch: a download that arrives after its wait gave up is placed on the disk at once, when the job ends. In the source it lands at some later moment; the model takes that moment to be before the next job's wait.
- Files.SavedLoads: `open(path, "w")` writes in the locale's encoding. The model takes a written file to decode to the written text under each of utf-8, shift-jis and cp932, so the first decoding gives it back. That holds for ASCII text; for other text the locale's bytes can fail to decode as utf-8 or decode to different text.
- Maintenance.SavedListReloads: it relies on the same encoding assumption as `Files.SavedLoads`.
- Maintenance.GetAllTxtFeedsDeleteFinished: it relies on the same encoding assumption as `Files.SavedLoads`.
- Text.ParseInt: the digit limit is Python's default of 4300. A limit changed through `sys.set_int_max_str_digits`, `PYTHONINTMAXSTRDIGITS` or `-X int_max_str_digits` is not modelled.
- Files.RenameOutcomes: POSIX `os.rename` overwrites an existing destination. The model uses the Windows behaviour, which raises FileExistsError.

## Findings

| source | as written | input that shows it | evidently intended | confidence | as-written member | corrected member |
|---|---|---|---|---|---|---|
| grab_fastq.py:123-127 | the re-prompt loop for an out-of-range `nK` runs while the number is in range, so the sentinel `n10000000` is never replaced and 10000000 is appended | one accession and the typed line `n5` | ask again until a number no larger than the number of accessions is typed | high, not executed | Selection.SentinelSlipsThrough | Selection.CorrectedNumbersInRange |

The corrected behaviour is `Selection.ChooseTokensCorrected`: an out-of-range number asks
again, as an ambiguous fragment does. `Selection.ChooseNumbers` and `GrabFastq.GrabFile` model
the loop as written.

# Log tailer and rotator

This project is a Dafny model of the log-watching engine of an operations toolkit. It has two parts:

- **`LogAnalyzerCollector`** tails one log file. It keeps a cursor into the file between polls. On each `collect()` it:
  - asks the rotator to check the file;
  - moves the cursor back to 0 after a rotation, or when the file has become shorter than the cursor;
  - reads at most `max_lines_per_poll` lines, cutting each at `max_line_length` characters and appending "…";
  - advances the cursor;
  - counts case-insensitive keyword matches;
  - returns a `CollectorResult` that wraps a `LogData` snapshot.

  `configure()` replaces settings and always resets the cursor.
- **`LogRotateService`** rotates a log once it reaches `max_bytes`. Each step has its own failure outcome:
  - it checks that the file exists;
  - it stats the file;
  - it compares the size with the threshold;
  - it creates `<parent>/ops_toolkit_archives`;
  - it moves the log to `<name>.<stamp>` in that folder and recreates an empty log;
  - it gzips the moved file to `<name>.<stamp><suffix>` and removes the plain copy;
  - it deletes every archive matching `<name>.*<suffix>` beyond the newest `keep_archives`, ordered by mtime.

The file system is a class `FileSystem` whose field is a map from path to entry. An entry is a file (contents and mtime) or a directory. Each primitive step is a method of this class:

- mkdir with `parents`/`exist_ok`;
- `shutil.move`;
- `touch`;
- creating and writing a file;
- `unlink`/`os.remove`.

Each step reports the error text Python would raise, or an injected fault. Everything the code gets from outside is a parameter of a poll:

- the clock (the timestamp stamp string and an integer mtime);
- gzip, as an opaque function on contents;
- every I/O failure: a fault per step, a read fault after k lines, a listing fault, and a set of files that cannot be removed;
- the order in which the directory listing returns files.

Every method that changes state is proved equal to a specification function of the old state:

- `FileSystem` methods match the `After*`/`*Error` step functions;
- `LogRotateService.RotateIfNeeded` matches `LogRotation.Rotate`;
- `LogAnalyzerCollector.Collect` matches `LogAnalyzer.Collected`;
- `KeywordScan.KeywordHits` matches `Tally(Increments(...))`;
- `LineReader.ReadNewLines` matches `ReadBatch`.

The properties are then proved about those functions.

Behaviours of the code that the model keeps as written:

- `archive_dir.mkdir(...)` is outside every `try`. A failure there escapes both `rotate_if_needed` and `collect`, so the model has an `Outcome.Raised` result for it, with the cursor unchanged.
- A keyword given twice keeps one counter key, and each matching line adds one hit per entry (`DuplicateKeywordCountsTwice`, stated for any keyword that `strip()` leaves unchanged).
- A partial last line (no "\n" yet) is consumed. A line still being written therefore comes out in pieces over two polls (`PartialLineSplit`).
- A rotation always reports an archive path. The bare "log rotated" note is therefore never produced (`RotationNamesArchive`).
- The retention glob `<name>.*<suffix>` also matches archives of other logs whose name starts with `<name>.`. For example, rotating `app` may delete `app.log.<stamp>.gz` (`GlobMatchesOtherLogs`). It also matches directories; those are left alone because `os.remove` fails on them.
- `configure` with a new limit builds a new rotator with the default ".gz" suffix.

## Model

| member | source | states |
|---|---|---|
| LogAnalyzer.LogAnalyzerCollector.constructor | src/ops_toolkit_gui/collectors/log_analyzer_collector.py:15-32 | an empty or absent path falls back to the default path and an empty or absent keyword list to ERROR/Failed/Warning; the rotator gets the given limit and retention with suffix ".gz"; the cursor starts at 0 |
| LogAnalyzer.LogAnalyzerCollector.Configure | src/ops_toolkit_gui/collectors/log_analyzer_collector.py:34-55 | only a non-empty path and a given keyword list (even an empty one) replace the current ones; a new limit keeps the old retention and vice versa; the suffix reverts to ".gz"; without either the rotator is unchanged; the cursor is always 0 |
| LogAnalyzer.LogAnalyzerCollector.Collect | src/ops_toolkit_gui/collectors/log_analyzer_collector.py:57-126 | the outcome, the new cursor and the new file system are those of `Collected` for the listing order cleanup used |
| LogAnalyzer.ContinuePoll | src/ops_toolkit_gui/collectors/log_analyzer_collector.py:74-87 | after the rotator's answer, the poll is `AfterRotation`: an escaped exception keeps the cursor, a rotation resets it to 0, a stat failure is noted, and a cursor past the end is reset |
| LogAnalyzer.ReadAndReport | src/ops_toolkit_gui/collectors/log_analyzer_collector.py:89-103 | the read and the report built on it are `ReadPhase` of the starting cursor |
| LogAnalyzer.BuildReport | src/ops_toolkit_gui/collectors/log_analyzer_collector.py:105-126 | the snapshot is `Report`: the hit list, the warning and the status |
| LogAnalyzer.HitEntries | src/ops_toolkit_gui/collectors/log_analyzer_collector.py:106 | one entry per counter key, in the counter's key order, each carrying its key and that key's count |
| LogAnalyzerProofs.PollMissing | src/ops_toolkit_gui/collectors/log_analyzer_collector.py:62-72 | a missing file or a non-file gives status WARN, warning count 1, the single warning "Log file not found: <path>" (also the only note), no lines, no hits; the cursor and the file system are unchanged |
| LogAnalyzerProofs.PollRaises | src/ops_toolkit_gui/collectors/log_analyzer_collector.py:74 | a poll raises exactly when the file exists and the rotator raised; the exception passes through, and the cursor is kept |
| LogAnalyzerProofs.PollCursorReported | src/ops_toolkit_gui/collectors/log_analyzer_collector.py:113-119 | every returned snapshot reports the cursor the poll leaves, the configured path and the poll's clock reading; the file system is what the rotator left |
| LogAnalyzerProofs.ReadReports | src/ops_toolkit_gui/collectors/log_analyzer_collector.py:89-119 | the read phase always returns, leaves the file system alone and reports its own cursor |
| LogAnalyzerProofs.RotationNamesArchive | src/ops_toolkit_gui/collectors/log_analyzer_collector.py:75-80 | after a rotation the note is always "log rotated: " followed by the gzip or plain archive path |
| LogAnalyzerProofs.PollAfterRotation | src/ops_toolkit_gui/collectors/log_analyzer_collector.py:74-87 | after a rotation the poll reads from offset 0, with the rotation note first and a stat failure noted after it |
| LogAnalyzerProofs.PollStaleCursor | src/ops_toolkit_gui/collectors/log_analyzer_collector.py:82-85 | without a rotation, the read starts at the cursor if it lies within the file and at 0 if the file is now shorter |
| LogAnalyzerProofs.PollStatFailed | src/ops_toolkit_gui/collectors/log_analyzer_collector.py:86-87 | a stat failure adds "stat failed: <error>" and the poll still returns, reading from the current cursor |
| LogAnalyzerProofs.ReadAdvances | src/ops_toolkit_gui/collectors/log_analyzer_collector.py:89-101 | a successful read moves the cursor to the start plus the consumed characters (a final unterminated line included); those characters are exactly the lines read; the read stops at end of file unless the batch is full; an empty batch leaves the cursor unchanged |
| LogAnalyzerProofs.ReadFails | src/ops_toolkit_gui/collectors/log_analyzer_collector.py:90-103 | a failed open or read adds "read failed: <error>" and keeps the cursor; the lines read before the failure are kept, and they are a prefix of what an unfailed read returns |
| LogAnalyzerProofs.ReadBounded | src/ops_toolkit_gui/collectors/log_analyzer_collector.py:93 | a read returns at most max(max_lines_per_poll, 0) lines |
| LogAnalyzerProofs.PollBounded | src/ops_toolkit_gui/collectors/log_analyzer_collector.py:89-100 | no poll returns more than max(max_lines_per_poll, 0) lines |
| LogAnalyzerProofs.ReportStatus | src/ops_toolkit_gui/collectors/log_analyzer_collector.py:109-112 | status is WARN iff the hit total is positive iff some line matches some keyword; otherwise status is OK with no warnings; warning_count equals the number of warnings, which is at most 1; the warning is "Keyword hits: <total>" |
| LogAnalyzerProofs.WarningNumber | src/ops_toolkit_gui/collectors/log_analyzer_collector.py:110 | the number after "Keyword hits: " reads back as the total |
| LogAnalyzerProofs.HitListSpec | src/ops_toolkit_gui/collectors/log_analyzer_collector.py:105-106 | an entry is in the hit list iff its keyword is a non-blank stripped keyword that some line matches, and its count is (entries stripping to it) × (matching lines); keywords that never match are absent |
| LogAnalyzerProofs.HitListOrder | src/ops_toolkit_gui/collectors/log_analyzer_collector.py:106-107 | the hit list is sorted by count, highest first; it is a permutation of the counter's entries; equal counts keep counter order, which is the order in which keywords first matched |
| LogAnalyzerProofs.TwoHits | src/ops_toolkit_gui/collectors/log_analyzer_collector.py:105-112 | whatever the keywords and lines, two increments of one key give one entry with count 2, status WARN and "Keyword hits: 2" |
| LogAnalyzerProofs.ExampleMatches | src/ops_toolkit_gui/collectors/log_analyzer_collector.py:138-142 | "error again" and "ERROR disk full" match ERROR ignoring case; "INFO ok" does not |
| LogAnalyzerProofs.ExampleIncrements | src/ops_toolkit_gui/collectors/log_analyzer_collector.py:140-143 | for any key, one non-matching line and two matching lines give two increments of it |
| LogAnalyzerProofs.TallyTwice | src/ops_toolkit_gui/collectors/log_analyzer_collector.py:143 | two increments of one key leave that key alone in the counter with count 2 |
| LogAnalyzerProofs.OneKeywordTwoHits | src/ops_toolkit_gui/collectors/log_analyzer_collector.py:105-144 | one keyword that `strip()` leaves unchanged, over one non-matching and two matching lines, reports that keyword with count 2 |
| LogAnalyzerProofs.ExampleCaseInsensitive | src/ops_toolkit_gui/collectors/log_analyzer_collector.py:105-144 | lines "INFO ok", "ERROR disk full", "error again" with keyword ERROR report ERROR: 2, WARN, "Keyword hits: 2" |
| LogAnalyzerProofs.DuplicateIncrements | src/ops_toolkit_gui/collectors/log_analyzer_collector.py:134-143 | one matching line with a keyword listed twice gives two increments of the same key |
| LogAnalyzerProofs.DuplicateKeywordCountsTwice | src/ops_toolkit_gui/collectors/log_analyzer_collector.py:134-143 | a keyword listed twice shares one key and one matching line counts 2 |
| KeywordScan.KeywordHits | src/ops_toolkit_gui/collectors/log_analyzer_collector.py:128-144 | the nested loops leave the counter that tallies every (line, keyword entry) match in loop order |
| KeywordScan.BuildPatterns | src/ops_toolkit_gui/collectors/log_analyzer_collector.py:133-138 | the pattern-building loop returns `Patterns(keywords)`: each keyword stripped, in order, blank ones skipped |
| KeywordScan.ScanLine | src/ops_toolkit_gui/collectors/log_analyzer_collector.py:141-143 | the inner loop adds to the counter exactly the line's matches, in pattern order |
| KeywordScan.PatternsSpec | src/ops_toolkit_gui/collectors/log_analyzer_collector.py:133-138 | a non-blank stripped keyword occurs among the patterns once per entry that strips to it; the empty string never occurs |
| KeywordScan.NoKeywordsNoHits | src/ops_toolkit_gui/collectors/log_analyzer_collector.py:130-137 | an empty list, or one of blank keywords, gives an empty counter |
| KeywordScan.BlankPatterns | src/ops_toolkit_gui/collectors/log_analyzer_collector.py:134-137 | blank keywords yield no patterns |
| KeywordScan.NoPatternsNoIncrements | src/ops_toolkit_gui/collectors/log_analyzer_collector.py:140-143 | without patterns no line adds anything |
| KeywordScan.HitPresence | src/ops_toolkit_gui/collectors/log_analyzer_collector.py:140-144 | a key is counted iff it is non-blank, some keyword strips to it, and some line matches it |
| KeywordScan.HitCount | src/ops_toolkit_gui/collectors/log_analyzer_collector.py:140-144 | a key's count is (entries stripping to it) × (matching lines), which is at most entries × number of lines |
| KeywordScan.HitMultiplicity | src/ops_toolkit_gui/collectors/log_analyzer_collector.py:140-143 | the number of increments of a key is its entry count times its matching lines |
| KeywordScan.HitKeys | src/ops_toolkit_gui/collectors/log_analyzer_collector.py:129-143 | the counter's keys are the distinct incremented keys in first-increment order, and they are exactly the keys with counts |
| KeywordScan.TallyMeaning | src/ops_toolkit_gui/collectors/log_analyzer_collector.py:143 | after a stream of `c[k] += 1`, the keys are the stream's first occurrences and each count is the key's multiplicity |
| KeywordScan.TallySnoc | src/ops_toolkit_gui/collectors/log_analyzer_collector.py:143 | one more increment is one more `Inc` |
| KeywordScan.DedupSpec | src/ops_toolkit_gui/collectors/log_analyzer_collector.py:143 | first occurrences are distinct and cover the same elements |
| KeywordScan.TallyTotal | src/ops_toolkit_gui/collectors/log_analyzer_collector.py:109 | the sum of the counter's values is the number of increments |
| KeywordScan.TotalBump | src/ops_toolkit_gui/collectors/log_analyzer_collector.py:109 | one increment of a present key raises the sum by 1 |
| KeywordScan.TotalOther | src/ops_toolkit_gui/collectors/log_analyzer_collector.py:109 | adding a new key does not change the sum over the old keys |
| KeywordScan.AnyIncrement | src/ops_toolkit_gui/collectors/log_analyzer_collector.py:140-143 | there is some increment iff some line matches some pattern |
| KeywordScan.AnyLineIncrement | src/ops_toolkit_gui/collectors/log_analyzer_collector.py:141-143 | one line adds something iff it matches some pattern |
| KeywordScan.IncrementsCount | src/ops_toolkit_gui/collectors/log_analyzer_collector.py:140-143 | a key's increments are its pattern multiplicity times its matching lines |
| KeywordScan.LineIncrementsCount | src/ops_toolkit_gui/collectors/log_analyzer_collector.py:141-143 | one line increments a key once per pattern equal to it if it matches, else not at all |
| KeywordScan.IncrementsSnoc | src/ops_toolkit_gui/collectors/log_analyzer_collector.py:140 | the outer loop adds one line's increments at a time |
| KeywordScan.LineIncrementsSnoc | src/ops_toolkit_gui/collectors/log_analyzer_collector.py:141 | the inner loop adds one pattern's increment at a time |
| KeywordScan.MatchingLinesBound | src/ops_toolkit_gui/collectors/log_analyzer_collector.py:140-142 | matching lines are at most all lines, and positive iff some line matches |
| LineReader.ReadNewLines | src/ops_toolkit_gui/collectors/log_analyzer_collector.py:89-103 | the bounded readline loop returns `ReadBatch`: the shaped lines and the new cursor, or the lines read before a failure and no cursor |
| LineReader.LineEndSpec | src/ops_toolkit_gui/collectors/log_analyzer_collector.py:94 | a `readline()` ends just after the first '\n' from the cursor, or at the end of the file |
| LineReader.ReadAdvance | src/ops_toolkit_gui/collectors/log_analyzer_collector.py:94-101 | one more non-empty readline extends the raw lines by that line, moves the cursor by its length and appends its shaped form |
| LineReader.FaultExit | src/ops_toolkit_gui/collectors/log_analyzer_collector.py:90-103 | a read that raises after k < max lines returns the first k shaped lines and the error |
| LineReader.EndExit | src/ops_toolkit_gui/collectors/log_analyzer_collector.py:93-101 | once no more lines come, the loop's lines are the batch: with the new cursor, or with the error when a fault is due later |
| LineReader.LineEnd | src/ops_toolkit_gui/collectors/log_analyzer_collector.py:94 | the end of the line being read lies after the cursor and within the file (where exactly it lies is `LineEndSpec`) |
| LineReader.BatchBounded | src/ops_toolkit_gui/collectors/log_analyzer_collector.py:93 | at most max(max_lines_per_poll, 0) lines |
| LineReader.BatchLine | src/ops_toolkit_gui/collectors/log_analyzer_collector.py:94-100 | each line is one readline result with its trailing "\n" removed; if it is longer than max_line_length, it is cut to exactly that many characters plus "…"; otherwise it is unchanged |
| LineReader.BatchCursor | src/ops_toolkit_gui/collectors/log_analyzer_collector.py:92-101 | the cursor moves past exactly the characters of the lines read; the read ends at end of file unless the batch is full; no lines iff the cursor is at or past the end or the limit is ≤ 0, and then the cursor is unchanged |
| LineReader.BatchFault | src/ops_toolkit_gui/collectors/log_analyzer_collector.py:93-103 | a read fault reports its error, keeps at most the lines before it, and those are a prefix of the unfailed batch |
| LineReader.PollsResume | src/ops_toolkit_gui/collectors/log_analyzer_collector.py:92-101 | reading n lines and then m lines from the cursor returned is the same as reading n + m lines |
| LineReader.PartialLineSplit | src/ops_toolkit_gui/collectors/log_analyzer_collector.py:94-101 | "abc" is read as one line and the cursor moves to 3; after "def\n" is appended, the next poll reads "def" |
| LineReader.RawLinesBound | src/ops_toolkit_gui/collectors/log_analyzer_collector.py:93-96 | at most n readline results, all inside the file, stopping early only at end of file |
| LineReader.RawLinesText | src/ops_toolkit_gui/collectors/log_analyzer_collector.py:92-101 | the lines read are exactly the file's characters between the cursors |
| LineReader.RawLinesShape | src/ops_toolkit_gui/collectors/log_analyzer_collector.py:94 | every result is one non-empty line, and only the last may lack its "\n" |
| LineReader.ReadResumes | src/ops_toolkit_gui/collectors/log_analyzer_collector.py:92-94 | continuing a read from where it stopped is the same as a longer read |
| LineReader.ReadLineStrip | src/ops_toolkit_gui/collectors/log_analyzer_collector.py:97 | `rstrip("\n")` of one readline result drops only its final "\n" |
| LineReader.ShapeLineSpec | src/ops_toolkit_gui/collectors/log_analyzer_collector.py:97-99 | a body longer than the maximum is cut to the maximum plus "…"; a shorter body is unchanged |
| LineReader.ReadStep | src/ops_toolkit_gui/collectors/log_analyzer_collector.py:94-100 | one more non-empty readline extends the read by that line |
| LineReader.ReadStops | src/ops_toolkit_gui/collectors/log_analyzer_collector.py:95-96 | an empty readline ends the read |
| LineReader.Shaped | src/ops_toolkit_gui/collectors/log_analyzer_collector.py:97-100 | one kept line per readline result (what each kept line is, is `BatchLine` and `ShapeLineSpec`) |
| LineReader.ShapedPrefix | src/ops_toolkit_gui/collectors/log_analyzer_collector.py:100 | shaping commutes with taking a prefix |
| LineReader.ShapedAppend | src/ops_toolkit_gui/collectors/log_analyzer_collector.py:100 | shaping commutes with concatenation |
| LineReader.ShapedSnoc | src/ops_toolkit_gui/collectors/log_analyzer_collector.py:100 | appending a line appends its shape |
| LineReader.ConsumedAppend | src/ops_toolkit_gui/collectors/log_analyzer_collector.py:101 | consumed characters add up over concatenation |
| Text.StripEmptyIffBlank | src/ops_toolkit_gui/collectors/log_analyzer_collector.py:135-137 | a keyword strips to "" iff it is all whitespace |
| Text.TrimStart | src/ops_toolkit_gui/collectors/log_analyzer_collector.py:135 | drops exactly the leading whitespace |
| Text.TrimEnd | src/ops_toolkit_gui/collectors/log_analyzer_collector.py:135 | drops exactly the trailing whitespace |
| Text.ContainsSpec | src/ops_toolkit_gui/collectors/log_analyzer_collector.py:142 | the search finds the needle iff it occurs at some offset |
| Text.LowerAll | src/ops_toolkit_gui/collectors/log_analyzer_collector.py:138 | ASCII lower-casing keeps the length |
| Text.RStripNewlines | src/ops_toolkit_gui/collectors/log_analyzer_collector.py:97 | removes exactly the trailing "\n" characters |
| Text.SliceEnd | src/ops_toolkit_gui/collectors/log_analyzer_collector.py:99 | the end of a Python slice `[:k]` (also the start of `[k:]`) lies within the sequence |
| Text.NatToString | src/ops_toolkit_gui/collectors/log_analyzer_collector.py:110 | `str(n)` is a non-empty string of digits |
| Text.NatToStringRoundTrip | src/ops_toolkit_gui/collectors/log_analyzer_collector.py:110 | the digits read back as n |
| StableSort.SortDescCorrect | src/ops_toolkit_gui/collectors/log_analyzer_collector.py:107 | `sort(key, reverse=True)` gives a non-increasing permutation that keeps the input order among equal keys |
| StableSort.InsertSorted | src/ops_toolkit_gui/collectors/log_analyzer_collector.py:107 | insertion keeps the order |
| StableSort.InsertMultiset | src/ops_toolkit_gui/collectors/log_analyzer_collector.py:107 | insertion adds exactly the element |
| StableSort.InsertWithKey | src/ops_toolkit_gui/collectors/log_analyzer_collector.py:107 | insertion places an element after those with an equal key |
| StableSort.InsertBounded | src/ops_toolkit_gui/collectors/log_analyzer_collector.py:107 | insertion keeps an upper bound on the keys |
| StableSort.WithKeyAppend | src/ops_toolkit_gui/collectors/log_analyzer_collector.py:107 | the elements with one key distribute over concatenation |
| StableSort.WithKeyBelow | src/ops_toolkit_gui/collectors/log_analyzer_collector.py:107 | no element has a key above all keys |
| LogRotation.LogRotateService.constructor | src/ops_toolkit_gui/services/log_rotate_service.py:19-27 | the limit, the retention and the suffix are the arguments |
| LogRotation.LogRotateService.RotateIfNeeded | src/ops_toolkit_gui/services/log_rotate_service.py:29-65 | the result and the new file system are those of `Rotate` for the listing order cleanup used, and that listing holds each archive candidate once |
| LogRotation.LogRotateService.CompressAndClean | src/ops_toolkit_gui/services/log_rotate_service.py:57-65 | gzip, removal of the plain copy and cleanup have the effect `Compress` and `AfterCleanup` describe |
| LogRotation.LogRotateService.CleanupOldArchives | src/ops_toolkit_gui/services/log_rotate_service.py:67-81 | cleanup lists every candidate once and leaves `AfterCleanup` of the old file system |
| LogRotation.LogRotateService.ListArchives | src/ops_toolkit_gui/services/log_rotate_service.py:69-70 | the glob yields each candidate exactly once |
| LogRotation.RemoveEach | src/ops_toolkit_gui/services/log_rotate_service.py:77-81 | removing each doomed archive and ignoring failures leaves `RemoveAll` |
| LogRotation.RotateMissing | src/ops_toolkit_gui/services/log_rotate_service.py:30-32 | a missing file or non-file gives not rotated, no archive, "log not found: <path>", and the file system unchanged |
| LogRotation.RotateStatFailed | src/ops_toolkit_gui/services/log_rotate_service.py:34-37 | a stat failure gives not rotated, no archive, "stat failed: <error>", and the file system unchanged |
| LogRotation.RotateBelowThreshold | src/ops_toolkit_gui/services/log_rotate_service.py:39-40 | a size below the limit gives not rotated, "no rotation", and the file system unchanged |
| LogRotation.RotateAtThreshold | src/ops_toolkit_gui/services/log_rotate_service.py:39-40 | at or above the limit the answer is never "no rotation" |
| LogRotation.RotateMkdirRaises | src/ops_toolkit_gui/services/log_rotate_service.py:43-44 | a failure creating the archive folder escapes as an exception and the file system is unchanged |
| LogRotation.RotateMoveFailed | src/ops_toolkit_gui/services/log_rotate_service.py:49-55 | a failed move or touch gives not rotated, no archive, "rotate move failed: …" |
| LogRotation.RotateAttempted | src/ops_toolkit_gui/services/log_rotate_service.py:42-65 | once the folder exists, the outcome is a move failure, a gzip failure naming the plain archive, or "rotated" naming the compressed archive |
| LogRotation.RotateReport | src/ops_toolkit_gui/services/log_rotate_service.py:29-65 | rotated iff an archive path is given; a rotation names the compressed archive with "rotated" or the plain one with "gzip failed: …"; "rotated" iff gzip succeeded |
| LogRotation.CompressShape | src/ops_toolkit_gui/services/log_rotate_service.py:57-65 | the gzip step ends in a gzip failure naming the plain archive or in the compressed archive |
| LogRotation.MoveAsideShape | src/ops_toolkit_gui/services/log_rotate_service.py:49-65 | after the folder, the outcome is a move failure, a gzip failure or the compressed archive |
| LogRotation.ArchiveNaming | src/ops_toolkit_gui/services/log_rotate_service.py:43-47 | the folder is `ops_toolkit_archives` next to the log; the plain archive is `<name>.<stamp>` in it; the compressed one is that plus the suffix and matches the retention glob |
| LogRotation.ArchivesAreElsewhere | src/ops_toolkit_gui/services/log_rotate_service.py:46-47 | neither archive path is the log's path |
| LogRotation.RelocatedSpec | src/ops_toolkit_gui/services/log_rotate_service.py:51-53 | after move and touch, the log is an empty file, the plain archive holds the old entry, and nothing else changes |
| LogRotation.CompressedPath | src/ops_toolkit_gui/services/log_rotate_service.py:29-58 | reaching gzip means the file existed, stat and mkdir succeeded, it was at the limit, and move and touch succeeded |
| LogRotation.CompressOutcome | src/ops_toolkit_gui/services/log_rotate_service.py:57-60 | a successful gzip step writes gzip(plain contents) to the compressed path and removes the plain archive |
| LogRotation.PlainWasNotDir | src/ops_toolkit_gui/services/log_rotate_service.py:51 | if the plain archive is a file after the move, it was not a directory before |
| LogRotation.CompressedState | src/ops_toolkit_gui/services/log_rotate_service.py:49-60 | after a successful rotation, the compressed archive holds gzip of the old contents, the plain archive is gone, and the log is empty |
| LogRotation.RemoveAllSpec | src/ops_toolkit_gui/services/log_rotate_service.py:77-81 | exactly the listed entries that are removable files disappear; everything else is unchanged |
| LogRotation.RankedSpec | src/ops_toolkit_gui/services/log_rotate_service.py:69-73 | the archives are sorted by mtime, newest first, and are a permutation of the listing |
| LogRotation.DoomedIn | src/ops_toolkit_gui/services/log_rotate_service.py:77 | a doomed archive sits at a position at or after the keep count |
| LogRotation.CleanupRemoves | src/ops_toolkit_gui/services/log_rotate_service.py:77-81 | cleanup removes exactly the removable doomed files and leaves everything else unchanged |
| LogRotation.CleanupFrame | src/ops_toolkit_gui/services/log_rotate_service.py:67-81 | a path that does not match the glob is never touched |
| LogRotation.CleanupKeepsNewest | src/ops_toolkit_gui/services/log_rotate_service.py:69-77 | every kept archive is at least as new as every removed entry |
| LogRotation.CleanupBound | src/ops_toolkit_gui/services/log_rotate_service.py:77-81 | when everything is removable, the survivors among the candidates are among the first keep_archives |
| LogRotation.FreshSurvives | src/ops_toolkit_gui/services/log_rotate_service.py:69-81 | with keep_archives ≥ 1, the strictly newest archive survives cleanup |
| LogRotation.GlobMatchesOtherLogs | src/ops_toolkit_gui/services/log_rotate_service.py:70 | base "app" with ".gz" matches "app.log.20240101-000000.gz" |
| LogRotation.JoinLength | src/ops_toolkit_gui/services/log_rotate_service.py:43-46 | joining adds at least the name's length |
| LogRotation.PathLength | src/ops_toolkit_gui/services/log_rotate_service.py:43 | a path is no longer than its parent, a separator and its name |
| FileSystems.FileSystem.Mkdir | src/ops_toolkit_gui/services/log_rotate_service.py:44 | `mkdir(parents=True, exist_ok=True)` accepts an existing directory, fails with "File exists" on a file in the way or with the fault, and otherwise creates the directory |
| FileSystems.FileSystem.Move | src/ops_toolkit_gui/services/log_rotate_service.py:51 | `shutil.move` fails with the fault, on a missing source, or on a name clash inside a target directory; a failure is modelled as a failed rename, which changes nothing (the copy-and-delete fallback is under "Left out"); otherwise it relocates the entry (into the target if that is a directory) |
| LogRotation.MoveKeepsOthers | src/ops_toolkit_gui/services/log_rotate_service.py:51 | a move leaves every path other than its source and its target as it was |
| FileSystems.FileSystem.Touch | src/ops_toolkit_gui/services/log_rotate_service.py:53 | `touch(exist_ok=True)` creates an empty file or refreshes the mtime of an existing entry; it fails only with the fault |
| FileSystems.FileSystem.Create | src/ops_toolkit_gui/services/log_rotate_service.py:58-59 | `open(p, "wb")` and the copy leave a file holding the data; they fail on a directory or with the fault, leaving everything unchanged |
| FileSystems.FileSystem.Remove | src/ops_toolkit_gui/services/log_rotate_service.py:79 | `unlink`/`os.remove` deletes the entry, or fails (missing path, directory, fault) and changes nothing |
| FileSystems.FileSystem.constructor | src/ops_toolkit_gui/services/log_rotate_service.py:29 | the file system starts with the given entries |
| FileSystems.StatSize | src/ops_toolkit_gui/services/log_rotate_service.py:35 | stat succeeds iff the path exists and there is no fault; a file's size is its length; a missing path gives "No such file or directory" |
| FileSystems.RemoveError | src/ops_toolkit_gui/services/log_rotate_service.py:79 | a missing path or a directory always fails, a file fails only with the fault |
| FileSystems.Name | src/ops_toolkit_gui/services/log_rotate_service.py:46 | a path's name has no "/" |
| FileSystems.LastSlash | src/ops_toolkit_gui/services/log_rotate_service.py:43 | the last "/" of a path, if any |
| FileSystems.JoinSplits | src/ops_toolkit_gui/services/log_rotate_service.py:43-46 | joining a normal directory and a component splits back into them |

## Left out

- The default log path, found by probing `/var/log/syslog` and `/var/log/messages`, is a constructor parameter.
- Matching ignores case for ASCII letters only. `re.IGNORECASE` also folds non-ASCII letters, and `str.strip` also strips Unicode whitespace; the model uses ASCII whitespace.
- Files are sequences of characters and the cursor counts characters. UTF-8 decoding with `errors="ignore"`, newline translation of "\r" and "\r\n", and the opaque text-mode `tell()` cookie are not modelled.
- Paths are plain strings. There is no `..`, no symbolic links and no normalisation beyond what `Join`, `Parent` and `Name` do.
- Timestamps are an integer clock reading and a stamp string. The `strftime` format and the `datetime` type are not modelled.
- mtimes are integers, not floats. `touch` and `gzip.open` give the clock reading as mtime and do not copy permissions.
- gzip output is an opaque function of the contents. The glob's `*` is the only wildcard; characters of the base name and suffix are taken literally.
- The GUI (Qt pages, timers, the worker pool and its stale-result check) is not part of this model, and neither are the other collectors and services.
- LogRotation.ArchiveNaming: requires the stamp and the suffix to contain no "/". The real stamp `%Y%m%d-%H%M%S` never does. It also requires the log's parent to be a normal directory path (no trailing "/" other than the root), so a path with a doubled "/" before its name, such as "logs//app.log", is excluded, since `pathlib` would normalise it.
- LogRotation.CompressedState: requires a non-empty suffix and a stamp without "/". With an empty suffix, the compressed and plain paths coincide.
- LogRotation.PlainWasNotDir: requires a stamp without "/".
- FileSystems.FileSystem.Mkdir: creates the archive folder itself only; its parent is the log's own directory, which exists whenever rotation gets that far.
- LogRotation.CleanupBound: requires every removal to succeed, every candidate to be a file, and keep ≥ 0 (it takes `keep: nat`). A configured `keep_archives` can be negative, and then `files[keep:]` keeps the first n + keep archives, not the first keep. The general case, for any integer keep, is `CleanupRemoves`.
- LogAnalyzerProofs.PollAfterRotation: states the note through `RotationNotes`. That the note names the archive is the separate `RotationNamesArchive`.
- LogAnalyzerProofs.OneKeywordTwoHits: stated for a keyword that `strip()` leaves unchanged and that is not blank. A keyword with surrounding blanks is counted under its stripped form, as `HitListSpec` states.
- LogAnalyzerProofs.DuplicateKeywordCountsTwice: the same restriction on the keyword as `OneKeywordTwoHits`.
- Nothing else changes the file system during one poll. The log is shared with writers and possibly an outside rotator, but races between the existence check, the rotator's step, the stat and the read are not modelled: for example, a truncation after the stat (which leaves the cursor past the end, kept by `tell()`), or a deletion after the existence check (which gives "log not found" from the rotator, then "stat failed" and "read failed"). Changes between polls are modelled, because `Collect` works on the file system it is handed each time.
- FileSystems.FileSystem.Move: a failed move changes nothing. `shutil.move` falls back to copying (`copy2`) and then deleting the source when the rename fails, for example across mounts. That fallback can fail after leaving a partial or full copy at `<name>.<stamp>` in the archive folder next to the intact log. Such a leftover never matches the `<name>.*<suffix>` retention glob, so cleanup never removes it. The model reports the same "rotate move failed: …" result but does not capture that leftover file.

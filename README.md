# SearchCode: a Dafny model of the file search and classification

SearchCode is a small Kivy application. It walks a directory tree and looks
for files that contain a line of text typed by the user. Each file is read by
its own worker process. A worker that takes more than 10 seconds is
terminated. The application then shows two lists: the files found and the
files excluded because of errors.

This project models the non-graphical part of `SearchCode.py`:

- `text.dfy` (module `Text`): Python's `pat in s` on strings. It is defined
  recursively and proved equal to the positional definition of a substring.
- `scanner.dfy` (module `Scanner`): the worker function `read_file`. A file
  is a given sequence of read events. Each event is a decoded line, or a read
  error (`IOError` or `UnicodeDecodeError`) with its message. The worker's
  queue is the sequence of strings it emits. `ReadFile` is the loop with its
  early `break`. It is proved against the recursive specification `Scan`, and
  the lemmas describe everything `Scan` can return.
- `analyzer.dfy` (module `Analyzer`): the class `FileAnalyzer` with its field
  `fileCount` (Python's `self.file_count`) and the text of the status label.
  It holds the loop of `analyze_files` and the empty-pattern check of
  `start_analysis_thread`.
  - Each `os.walk` is a given sequence of `(root, files)` entries. There are
    two of them, one for the up-front total and one for the scan.
  - `os.path.join` is a function parameter.
  - What the worker does for each path is a function parameter. The worker
    either stalls past the deadline, or reads through the given events.
  - The loop calls `ReadFile`, so the queue contents the loop sorts are
    exactly what the scanner emitted.
  - The specification function `Aggregate` gives the found and excluded lists
    after any sequence of paths. The lemmas about it state exactly which
    entries end up in which list.

The proved quirk: a finished worker's result goes to the excluded list
whenever it contains the substring `"Error"`. So a file whose path contains
`Error` is listed as excluded even when it matched, and never as found
(`MatchedPathWithErrorIsExcluded`, with a concrete instance in
`MatchedPathWithErrorExample`). The empty-pattern check matters because
`"" in s` is always true: without it, the first line of every readable file
would match (`EmptySearchMatchesFirstLine`).

The progress computation divides by the up-front total. When the counting
walk saw no file but the scanning walk meets one, the first file is counted
and the division raises `ZeroDivisionError`. The analysis then ends without
posting progress or delivering the lists (`aborted` in `AnalyzeFiles` and
`StartAnalysis`). When both walks list the same files this cannot happen.

## Model

| member | source | states |
|---|---|---|
| Text.ContainsIff | SearchCode.py:24 | `search_line in line` holds exactly when the search string occurs at some index of the line (literal substring, not a pattern) |
| Text.ContainsEmpty | SearchCode.py:78-80 | the empty search string is contained in every line, which is why an empty input must be refused |
| Scanner.ErrorEntry | SearchCode.py:27-28 | the error entry `"Error: " + path + " - " + msg` contains "Error" and is longer than the path, so it can never be mistaken for the path |
| Scanner.StopIndex | SearchCode.py:23-28 | the index of the first event that ends the scan (a matching line or an error); every event before it is a line that does not match |
| Scanner.ScanByStopIndex | SearchCode.py:23-28 | the queue is decided by the first stopping event alone: nothing if there is none, the error entry if it is an error, the path if it is a matching line |
| Scanner.ScanAtMostOne | SearchCode.py:23-28 | the worker emits at most one item, and that item is either the path or one error entry, never both |
| Scanner.ScanFoundIff | SearchCode.py:23-26 | the path is emitted exactly when some line contains the search string and no read error comes before it |
| Scanner.ScanErrorIff | SearchCode.py:27-28 | exactly `"Error: " + path + " - " + msg` is emitted exactly when the error `msg` comes before any matching line |
| Scanner.ScanSilentIff | SearchCode.py:23-26 | nothing is emitted exactly when every event is a line and none contains the search string |
| Scanner.ScanIgnoresRest | SearchCode.py:24-26 | early exit: once a line matches or an error occurs, whatever follows in the file makes no difference |
| Scanner.EmptySearchMatchesFirstLine | SearchCode.py:78-80 | without the guard, an empty search string makes the first line of every readable file match |
| Scanner.ReadFile | SearchCode.py:19-28 | the loop emits `Scan` of the events; it consumes exactly the events up to and including the first stopping one (all of them if there is none), and what it emits depends only on those |
| Analyzer.TotalFilesIsPathCount | SearchCode.py:93 | `sum(len(files) ...)` over a walk equals the number of file paths the same walk visits |
| Analyzer.RunWorker | SearchCode.py:98-107 | a worker past the deadline is `TimedOut`; otherwise its queue is what `read_file` emitted, at most one item |
| Analyzer.ProcessFile | SearchCode.py:104-118 | one file: a timeout adds `path + " - Error: tiempo excedido"` to excluded; a finished result goes to excluded if it contains "Error", else to found; an empty queue adds nothing |
| Analyzer.AggregateSnoc | SearchCode.py:104-118 | per file, in terms of the scan: a stalled worker adds exactly its timeout entry to excluded and nothing to found; a silent file adds nothing; a matched file adds its path to found unless the path contains "Error", in which case excluded gets it; an error entry goes to excluded |
| Analyzer.ListsSplitByError | SearchCode.py:108-116 | over any walk, no found entry contains "Error" and every excluded entry does |
| Analyzer.AggregateSize | SearchCode.py:95-120 | each file adds at most one entry to the two lists together, so `len(found_files) + len(excluded_files)` never exceeds the number of files processed |
| Analyzer.FoundIff | SearchCode.py:112-116 | an entry is found exactly when it is a visited path whose file matched and the path does not contain "Error" (both directions) |
| Analyzer.ExcludedIff | SearchCode.py:105-116 | an entry is excluded exactly when it is the timeout entry of a stalled worker, or a finished worker's single result that contains "Error" (both directions) |
| Analyzer.MatchedPathWithErrorIsExcluded | SearchCode.py:113-116 | a file that matched but whose path contains "Error" is in the excluded list and not in the found list |
| Analyzer.MatchedPathWithErrorExample | SearchCode.py:113-116 | `./ErrorLog.txt` with the line `hello world` and the search string `hello` gives no found entry and the excluded list `["./ErrorLog.txt"]` |
| Analyzer.ReadErrorIsExcluded | SearchCode.py:111-116 | a file whose first error comes before any match has its error entry in the excluded list and never appears in the found list |
| Analyzer.StalledIsExcluded | SearchCode.py:105-108 | a worker that misses the deadline puts its timeout entry in the excluded list, and its path is never found |
| Analyzer.SilentFileIsNotFound | SearchCode.py:111-118 | a file read to the end without a match is not in the found list (the empty queue falls through `except: pass`) |
| Analyzer.FileAnalyzer.AnalyzeDirectory | SearchCode.py:96-122 | the inner loop over one directory's files: the lists become `Aggregate` extended by this directory's paths, `file_count` grows by its number of files, and each file posts the next count; when `total_files` is 0 the first file is sorted and counted, then the division at line 121 aborts the loop before anything is posted for it (`aborted` exactly when the total is 0 and the directory has a file) |
| Analyzer.FileAnalyzer.AnalyzeEntry | SearchCode.py:95-122 | one directory of the scanning walk: without an abort, the lists become `Aggregate` over the paths of the walk up to and including this directory and the posted counts run on without a gap; with an abort, the count has grown by exactly one and the walk has at least one file |
| Analyzer.FileAnalyzer.AnalyzeFiles | SearchCode.py:87-124 | `total_files` is the sum over the counting walk; the run aborts with `ZeroDivisionError` exactly when that sum is 0 and the scanning walk has a file, and then `file_count` has grown by one, no progress was posted and `update_result` gets nothing; otherwise the lists handed to `update_result` are `Aggregate` over the scan walk's paths, `file_count` grows by one per file, and the count posted after the k-th file is the old count plus k + 1 |
| Analyzer.FileAnalyzer.StartAnalysis | SearchCode.py:75-85 | an empty search string only sets the prompt message and starts nothing; otherwise the count is reset to 0 and the analysis runs, aborting exactly when the counting walk has no file but the scanning walk has one (then `file_count` is 1 and nothing is posted or delivered); if both walks list the same files, the run never aborts, `file_count` ends equal to `total_files` and no posted count exceeds it |

## Left out

- The Kivy interface (`build`, `update_progress`, `update_result`, `update_result_label`, widgets and layout) is presentation only. The model keeps only the text of the status label that `start_analysis_thread` sets.
- `check_root` and the `su -c id` subprocess are an external process call. Choosing `/` or `.` only decides which tree is walked, and the walks are inputs.
- `Thread`, `Process`, `Queue`, `join(10)`, `terminate` and `Clock.schedule_once` are concurrency and timing. A worker's behaviour is an input: it stalls past the deadline, or it reads some events. The analysis runs on the caller's thread.
- Races between `get_nowait` and the queue's feeder thread are left out. A worker that finished and put an item is assumed to have that item visible.
- Exceptions in the worker other than `IOError` and `UnicodeDecodeError` are left out. Such an exception would end the worker with an empty queue, and the file would fall into neither list, like a file without a match.
- `os.walk`, `open(..., encoding='utf-8')` with line splitting and UTF-8 decoding, and `os.path.join` are file-system work. The model takes them as given walk entries, read events and a join function.
- The floating-point value of the progress `(file_count / total_files) * 100` is left out: only the integer counts are modelled. Its division by zero is modelled: it happens only when the counting walk saw no file but the scanning walk sees one, and it ends the analysis. When both walks see no file the loop body never runs and nothing is divided.
- The traceback that `ZeroDivisionError` prints and the end of the analysis thread are modelled only as the `aborted` result; the status label keeps the analysing message.
- Analyzer.FileAnalyzer.AnalyzeFiles: each progress update is modelled as carrying the count at the moment it is posted. The Python callback reads `self.file_count` when it runs, so it may show a later count.
- Analyzer.FileAnalyzer.constructor: the model starts `fileCount` at 0 and the status text empty. In Python, `file_count` does not exist until the first analysis starts, and the first status message depends on `check_root`.
- The code keeps read failures and timeouts only as strings in `excluded_files`, told apart from matches by the substring `"Error"`. The model has no separate failure or timeout record either.
- Whether `file_count` can exceed `total_files` is stated only for the case where the two walks list the same files. The code does not guarantee this when the tree changes between the walks.

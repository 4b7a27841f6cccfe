/** The analysis loop of `FileAnalyzerApp`: walk the tree, run one worker per
    file with a deadline, sort each worker's result into the found and the
    excluded lists, and count the files processed. */
module Analyzer {
  import opened Text
  import opened Scanner

  /** One entry of the directory walk: a directory and the names of the
      files directly in it. */
  datatype WalkEntry = WalkEntry(root: string, files: seq<string>)

  /** How the worker process for one path behaves: it is still running when
      the deadline passes, or it reads the file through to the given events. */
  datatype FileRun = Stalls | Reads(events: seq<ReadEvent>)

  /** What the analysis loop sees of a worker after waiting for it. */
  datatype Outcome = TimedOut | Finished(queue: seq<string>)

  /** The result lists handed to the display once the walk is over. */
  datatype Lists = Lists(found: seq<string>, excluded: seq<string>)

  /** The excluded entry of a file whose worker missed the deadline. */
  const TimeoutSuffix := " - Error: tiempo excedido"
  /** The message shown when the search string is empty. */
  const EmptySearchMessage := "Por favor, ingrese una l\U{ed}nea a buscar."
  /** The message shown once an analysis starts. */
  const AnalyzingMessage := "Analizando archivos..."

  /** `sum(len(files) for _, _, files in walk)`. */
  function TotalFiles(walk: seq<WalkEntry>): nat
  {
    if walk == [] then 0 else |walk[0].files| + TotalFiles(walk[1..])
  }

  /** The paths of the files in one directory, in listing order. */
  function JoinAll(root: string, files: seq<string>, join: (string, string) -> string): seq<string>
  {
    seq(|files|, k requires 0 <= k < |files| => join(root, files[k]))
  }

  /** The paths of all files the walk visits, in visiting order. */
  function Paths(walk: seq<WalkEntry>, join: (string, string) -> string): seq<string>
  {
    if walk == [] then [] else JoinAll(walk[0].root, walk[0].files, join) + Paths(walk[1..], join)
  }

  /** Extending the walk by one directory extends the paths by its files. */
  lemma {:induction false} PathsSnoc(walk: seq<WalkEntry>, e: WalkEntry, join: (string, string) -> string)
    ensures Paths(walk + [e], join) == Paths(walk, join) + JoinAll(e.root, e.files, join)
  {
    if walk == [] {
      assert [e][1..] == [];
    } else {
      assert (walk + [e])[1..] == walk[1..] + [e];
      PathsSnoc(walk[1..], e, join);
    }
  }

  /** Joining one more name of the listing appends its path. */
  lemma JoinAllSnoc(root: string, files: seq<string>, j: nat, join: (string, string) -> string)
    requires j < |files|
    ensures JoinAll(root, files[..j + 1], join) == JoinAll(root, files[..j], join) + [join(root, files[j])]
  {
    assert JoinAll(root, files[..j + 1], join)[..j] == JoinAll(root, files[..j], join);
  }

  /** The counts posted with the progress updates of `n` files when the count
      stood at `start` before the first of them. */
  function Counts(start: nat, n: nat): seq<nat>
  {
    seq(n, k requires 0 <= k < n => start + k + 1)
  }

  /** One more file posts the next count. */
  lemma CountsSnoc(start: nat, n: nat)
    ensures Counts(start, n + 1) == Counts(start, n) + [start + n + 1]
  {
    assert Counts(start, n + 1)[..n] == Counts(start, n);
  }

  /** The counts of two consecutive runs of files form the counts of both. */
  lemma CountsAppend(start: nat, n: nat, m: nat)
    ensures Counts(start, n) + Counts(start + n, m) == Counts(start, n + m)
  {
  }

  /** A walk with a directory that holds a file visits at least one path. */
  lemma {:induction false} PathsHasFilesOf(walk: seq<WalkEntry>, i: nat, join: (string, string) -> string)
    requires i < |walk| && |walk[i].files| > 0
    ensures |Paths(walk, join)| > 0
  {
    if i > 0 {
      PathsHasFilesOf(walk[1..], i - 1, join);
    }
  }

  /** The up-front total is the number of paths the same walk visits. */
  lemma {:induction false} TotalFilesIsPathCount(walk: seq<WalkEntry>, join: (string, string) -> string)
    ensures TotalFiles(walk) == |Paths(walk, join)|
  {
    if walk != [] {
      TotalFilesIsPathCount(walk[1..], join);
    }
  }

  /** What the loop sees of the worker for `path`: `is_alive()` after the
      deadline, or the queue it left behind. */
  function WorkerOutcome(path: string, search: string, run: FileRun): Outcome
  {
    match run
    case Stalls => TimedOut
    case Reads(events) => Finished(Scan(path, search, events))
  }

  /** Start the worker for `path`, wait for it until the deadline, and
      collect its queue if it has stopped: the statement form of
      `WorkerOutcome`. */
  method RunWorker(path: string, search: string, run: FileRun) returns (outcome: Outcome)
    ensures outcome == WorkerOutcome(path, search, run)
    ensures outcome.Finished? ==> |outcome.queue| <= 1
  {
    match run
    case Stalls =>
      outcome := TimedOut;
    case Reads(events) =>
      var queue, _ := ReadFile(path, search, events);
      outcome := Finished(queue);
  }

  /** The lists after sorting the outcome of the worker for `p` into `l`. */
  function Place(l: Lists, p: string, outcome: Outcome): Lists
  {
    match outcome
    case TimedOut => Lists(l.found, l.excluded + [p + TimeoutSuffix])
    case Finished(queue) =>
      if queue == [] then l
      else if Contains(queue[0], "Error") then Lists(l.found, l.excluded + [queue[0]])
      else Lists(l.found + [queue[0]], l.excluded)
  }

  /** The body of the loop over the files: run the worker for `path` and sort
      what it reports into the lists `found0` and `excluded0`. It is the
      statement form of `Place` applied to that worker's outcome. */
  method ProcessFile(search: string, path: string, run: FileRun, found0: seq<string>, excluded0: seq<string>)
    returns (found: seq<string>, excluded: seq<string>)
    ensures Lists(found, excluded) == Place(Lists(found0, excluded0), path, WorkerOutcome(path, search, run))
  {
    found, excluded := found0, excluded0;
    var outcome := RunWorker(path, search, run);
    if outcome.TimedOut? {
      excluded := excluded + [path + TimeoutSuffix];
    } else if outcome.queue != [] {
      var result := outcome.queue[0];
      if Contains(result, "Error") {
        excluded := excluded + [result];
      } else {
        found := found + [result];
      }
    }
  }

  /** The found and excluded lists after the files `paths`, in order. */
  function Aggregate(search: string, paths: seq<string>, fs: string -> FileRun): Lists
  {
    if paths == [] then Lists([], [])
    else
      var p := paths[|paths| - 1];
      Place(Aggregate(search, paths[..|paths| - 1], fs), p, WorkerOutcome(p, search, fs(p)))
  }

  /** Unfolding `Aggregate` once at the end. */
  lemma AggregateStep(search: string, paths: seq<string>, p: string, fs: string -> FileRun)
    ensures Aggregate(search, paths + [p], fs) == Place(Aggregate(search, paths, fs), p, WorkerOutcome(p, search, fs(p)))
  {
    assert (paths + [p])[..|paths|] == paths;
  }

  /** The worker for `p` read the file and put `p` itself on its queue. */
  predicate Matched(search: string, p: string, fs: string -> FileRun)
  {
    fs(p).Reads? && Scan(p, search, fs(p).events) == [p]
  }

  /** `x` is an excluded entry that the file `p` gives rise to. */
  predicate ExcludedBy(search: string, p: string, fs: string -> FileRun, x: string)
  {
    (fs(p).Stalls? && x == p + TimeoutSuffix) ||
    (fs(p).Reads? && Scan(p, search, fs(p).events) == [x] && Contains(x, "Error"))
  }

  /** The timeout entry always contains "Error". */
  lemma TimeoutEntryHasError(p: string)
    ensures Contains(p + TimeoutSuffix, "Error")
  {
    var s := p + TimeoutSuffix;
    assert TimeoutSuffix == " - " + "Error" + ": tiempo excedido";
    assert s == (p + " - ") + "Error" + ": tiempo excedido";
    assert s[|p| + 3..|p| + 8] == "Error";
    ContainsAt(s, "Error", |p| + 3);
  }

  /** One more file adds exactly its own entry, or nothing. */
  lemma AggregateSnoc(search: string, paths: seq<string>, p: string, fs: string -> FileRun)
    ensures var prev, next := Aggregate(search, paths, fs), Aggregate(search, paths + [p], fs);
            match fs(p)
            case Stalls => next == Lists(prev.found, prev.excluded + [p + TimeoutSuffix])
            case Reads(events) =>
              var q := Scan(p, search, events);
              if q == [] then next == prev
              else if Contains(q[0], "Error") then next == Lists(prev.found, prev.excluded + q)
              else next == Lists(prev.found + [p], prev.excluded)
  {
    AggregateStep(search, paths, p, fs);
    if fs(p).Reads? {
      ScanAtMostOne(p, search, fs(p).events);
      var q := Scan(p, search, fs(p).events);
      if q != [] && q != [p] {
        var m :| q == [ErrorEntry(p, m)];
      }
    }
  }

  /** The two lists are split by the `"Error" in entry` test: no found entry
      contains "Error", and every excluded entry does. */
  lemma {:induction false} ListsSplitByError(search: string, paths: seq<string>, fs: string -> FileRun)
    ensures forall x :: x in Aggregate(search, paths, fs).found ==> !Contains(x, "Error")
    ensures forall x :: x in Aggregate(search, paths, fs).excluded ==> Contains(x, "Error")
    decreases |paths|
  {
    if paths != [] {
      var init, p := paths[..|paths| - 1], paths[|paths| - 1];
      ListsSplitByError(search, init, fs);
      if fs(p).Stalls? {
        TimeoutEntryHasError(p);
      }
    }
  }

  /** Each file adds at most one entry to the two lists together. */
  lemma {:induction false} AggregateSize(search: string, paths: seq<string>, fs: string -> FileRun)
    ensures |Aggregate(search, paths, fs).found| + |Aggregate(search, paths, fs).excluded| <= |paths|
    decreases |paths|
  {
    if paths != [] {
      var init := paths[..|paths| - 1];
      AggregateSize(search, init, fs);
      assert paths == init + [paths[|paths| - 1]];
      AggregateSnoc(search, init, paths[|paths| - 1], fs);
      ScanAtMostOne(paths[|paths| - 1], search, if fs(paths[|paths| - 1]).Reads? then fs(paths[|paths| - 1]).events else []);
    }
  }

  /** Found entries are exactly the visited paths whose file matched and
      whose path does not contain "Error". */
  lemma {:induction false} FoundIff(search: string, paths: seq<string>, fs: string -> FileRun, x: string)
    ensures x in Aggregate(search, paths, fs).found <==>
            x in paths && Matched(search, x, fs) && !Contains(x, "Error")
    decreases |paths|
  {
    if paths != [] {
      var init, p := paths[..|paths| - 1], paths[|paths| - 1];
      FoundIff(search, init, fs, x);
      assert paths == init + [p];
      AggregateSnoc(search, init, p, fs);
      if fs(p).Reads? {
        var events := fs(p).events;
        ScanAtMostOne(p, search, events);
        if Scan(p, search, events) != [] && Scan(p, search, events) != [p] {
          var m :| Scan(p, search, events) == [ErrorEntry(p, m)];
        }
      }
    }
  }

  /** Excluded entries are exactly the timeout entries of stalled workers and
      the queue entries that contain "Error". */
  lemma {:induction false} ExcludedIff(search: string, paths: seq<string>, fs: string -> FileRun, x: string)
    ensures x in Aggregate(search, paths, fs).excluded <==>
            exists p :: p in paths && ExcludedBy(search, p, fs, x)
    decreases |paths|
  {
    if paths != [] {
      var init, p := paths[..|paths| - 1], paths[|paths| - 1];
      ExcludedIff(search, init, fs, x);
      assert paths == init + [p];
      AggregateSnoc(search, init, p, fs);
      if fs(p).Reads? {
        ScanAtMostOne(p, search, fs(p).events);
      }
      if x in Aggregate(search, paths, fs).excluded {
        if x !in Aggregate(search, init, fs).excluded {
          assert ExcludedBy(search, p, fs, x);
        } else {
          var q :| q in init && ExcludedBy(search, q, fs, x);
          assert q in paths;
        }
      }
      if q :| q in paths && ExcludedBy(search, q, fs, x) {
        if q != p {
          assert q in init;
        }
      }
    }
  }

  /** The quirk of the `"Error" in result` test: a file that matched but whose
      path contains "Error" is listed as excluded, and not as found. */
  lemma MatchedPathWithErrorIsExcluded(search: string, paths: seq<string>, fs: string -> FileRun, p: string)
    requires p in paths && Matched(search, p, fs) && Contains(p, "Error")
    ensures p in Aggregate(search, paths, fs).excluded
    ensures p !in Aggregate(search, paths, fs).found
  {
    FoundIff(search, paths, fs, p);
    ExcludedIff(search, paths, fs, p);
    assert ExcludedBy(search, p, fs, p);
  }

  /** An instance of the quirk: `ErrorLog.txt` holds the search string on its
      first line, yet the analysis lists it only as excluded. */
  lemma MatchedPathWithErrorExample()
    ensures Aggregate("hello", ["./ErrorLog.txt"], (p: string) => Reads([Line("hello world\n")])) ==
            Lists([], ["./ErrorLog.txt"])
  {
    var fs := (p: string) => Reads([Line("hello world\n")]);
    assert Contains("hello world\n", "hello");
    assert Scan("./ErrorLog.txt", "hello", fs("./ErrorLog.txt").events) == ["./ErrorLog.txt"];
    ContainsAt("./ErrorLog.txt", "Error", 2);
    AggregateStep("hello", [], "./ErrorLog.txt", fs);
  }

  /** A file whose reading fails is always listed as excluded with its error
      entry, and never as found. */
  lemma ReadErrorIsExcluded(search: string, paths: seq<string>, fs: string -> FileRun, p: string, k: nat)
    requires p in paths && fs(p).Reads? && k < |fs(p).events|
    requires fs(p).events[k].ReadError?
    requires forall j :: 0 <= j < k ==> fs(p).events[j].Line? && !Contains(fs(p).events[j].text, search)
    ensures ErrorEntry(p, fs(p).events[k].msg) in Aggregate(search, paths, fs).excluded
    ensures p !in Aggregate(search, paths, fs).found
  {
    var events := fs(p).events;
    ScanErrorIff(p, search, events, events[k].msg);
    ExcludedIff(search, paths, fs, ErrorEntry(p, events[k].msg));
    assert ExcludedBy(search, p, fs, ErrorEntry(p, events[k].msg));
    FoundIff(search, paths, fs, p);
  }

  /** A stalled worker adds its timeout entry to the excluded list and its
      path is never found. */
  lemma StalledIsExcluded(search: string, paths: seq<string>, fs: string -> FileRun, p: string)
    requires p in paths && fs(p).Stalls?
    ensures p + TimeoutSuffix in Aggregate(search, paths, fs).excluded
    ensures p !in Aggregate(search, paths, fs).found
  {
    ExcludedIff(search, paths, fs, p + TimeoutSuffix);
    assert ExcludedBy(search, p, fs, p + TimeoutSuffix);
    FoundIff(search, paths, fs, p);
  }

  /** A file read to the end without a match lands in neither list under its
      own path. */
  lemma SilentFileIsNotFound(search: string, paths: seq<string>, fs: string -> FileRun, p: string)
    requires fs(p).Reads?
    requires forall k :: 0 <= k < |fs(p).events| ==> fs(p).events[k].Line? && !Contains(fs(p).events[k].text, search)
    ensures p !in Aggregate(search, paths, fs).found
  {
    ScanSilentIff(p, search, fs(p).events);
    FoundIff(search, paths, fs, p);
  }

  /** The application object: the fields the analysis updates. */
  class FileAnalyzer {
    /** `self.file_count`: files processed in the current analysis. */
    var fileCount: nat
    /** The text of the status label set through `update_result_label`. */
    var status: string

    constructor ()
      ensures fileCount == 0 && status == ""
    {
      fileCount := 0;
      status := "";
    }

    /** The inner loop of `analyze_files` over the files of one directory:
        run a worker on each, sort its result, count the file and post the
        progress. `visited` are the paths handled before this directory.
        Computing the progress divides by `total`, so when `total` is 0 the
        first file counted raises `ZeroDivisionError`: `aborted` is then true
        and nothing is posted for it. */
    method AnalyzeDirectory(search: string, entry: WalkEntry, join: (string, string) -> string,
                            fs: string -> FileRun, total: nat, ghost visited: seq<string>,
                            found0: seq<string>, excluded0: seq<string>, reports0: seq<nat>)
      returns (found: seq<string>, excluded: seq<string>, reports: seq<nat>, aborted: bool)
      requires Lists(found0, excluded0) == Aggregate(search, visited, fs)
      modifies this`fileCount
      ensures aborted <==> total == 0 && |entry.files| > 0
      ensures !aborted ==>
                Lists(found, excluded) == Aggregate(search, visited + JoinAll(entry.root, entry.files, join), fs) &&
                fileCount == old(fileCount) + |entry.files| &&
                reports == reports0 + Counts(old(fileCount), |entry.files|)
      ensures aborted ==>
                Lists(found, excluded) == Aggregate(search, visited + [join(entry.root, entry.files[0])], fs) &&
                fileCount == old(fileCount) + 1 &&
                reports == reports0
    {
      found, excluded, reports, aborted := found0, excluded0, reports0, false;
      ghost var seen := visited;
      var j := 0;
      while j < |entry.files|
        invariant 0 <= j <= |entry.files|
        invariant total == 0 ==> j == 0 && seen == visited
        invariant seen == visited + JoinAll(entry.root, entry.files[..j], join)
        invariant Lists(found, excluded) == Aggregate(search, seen, fs)
        invariant fileCount == old(fileCount) + j
        invariant reports == reports0 + Counts(old(fileCount), j)
      {
        var path := join(entry.root, entry.files[j]);
        found, excluded := ProcessFile(search, path, fs(path), found, excluded);
        assert Lists(found, excluded) == Aggregate(search, seen + [path], fs) by {
          AggregateStep(search, seen, path, fs);
        }
        fileCount := fileCount + 1;
        if total == 0 {
          aborted := true;
          return;
        }
        assert reports + [fileCount] == reports0 + Counts(old(fileCount), j + 1) by {
          CountsSnoc(old(fileCount), j);
        }
        assert seen + [path] == visited + JoinAll(entry.root, entry.files[..j + 1], join) by {
          JoinAllSnoc(entry.root, entry.files, j, join);
        }
        reports := reports + [fileCount];
        seen := seen + [path];
        j := j + 1;
      }
      assert entry.files[..j] == entry.files;
    }

    /** One step of the outer loop of `analyze_files`: directory `i` of the
        scanning walk, after the paths `visited` of the directories before
        it, with `n0` the count before the walk began. */
    method AnalyzeEntry(search: string, walk: seq<WalkEntry>, i: nat, join: (string, string) -> string,
                        fs: string -> FileRun, total: nat, ghost n0: nat, ghost visited: seq<string>,
                        found0: seq<string>, excluded0: seq<string>, reports0: seq<nat>)
      returns (found: seq<string>, excluded: seq<string>, reports: seq<nat>, aborted: bool)
      requires i < |walk| && visited == Paths(walk[..i], join)
      requires Lists(found0, excluded0) == Aggregate(search, visited, fs)
      requires fileCount == n0 + |visited| && reports0 == Counts(n0, |visited|)
      modifies this`fileCount
      ensures aborted <==> total == 0 && |walk[i].files| > 0
      ensures aborted ==> fileCount == old(fileCount) + 1 && |Paths(walk, join)| > 0
      ensures !aborted ==>
                Lists(found, excluded) == Aggregate(search, Paths(walk[..i + 1], join), fs) &&
                |Paths(walk[..i + 1], join)| == |visited| + |walk[i].files| &&
                fileCount == old(fileCount) + |walk[i].files| &&
                reports == Counts(n0, |Paths(walk[..i + 1], join)|)
    {
      var entry := walk[i];
      found, excluded, reports, aborted := AnalyzeDirectory(search, entry, join, fs, total, visited, found0, excluded0, reports0);
      if aborted {
        assert |Paths(walk, join)| > 0 by {
          PathsHasFilesOf(walk, i, join);
        }
        return;
      }
      assert Paths(walk[..i + 1], join) == visited + JoinAll(entry.root, entry.files, join) by {
        assert walk[..i + 1] == walk[..i] + [entry];
        PathsSnoc(walk[..i], entry, join);
      }
      assert reports == Counts(n0, |visited| + |entry.files|) by {
        CountsAppend(n0, |visited|, |entry.files|);
      }
    }

    /** `analyze_files`: count the files of `countWalk`, then run a worker on
        every file of `scanWalk`, sort its result and post the progress.
        `reports` holds the count posted with each progress update, and
        `found` and `excluded` the lists handed to `update_result`. When the
        count is 0 but the scan meets a file, the progress division raises
        `ZeroDivisionError` after that file is counted: the analysis is
        `aborted`, nothing is posted and no lists are handed over. */
    method AnalyzeFiles(search: string, countWalk: seq<WalkEntry>, scanWalk: seq<WalkEntry>,
                        join: (string, string) -> string, fs: string -> FileRun)
      returns (found: seq<string>, excluded: seq<string>, total: nat, reports: seq<nat>, aborted: bool)
      modifies this`fileCount
      ensures total == TotalFiles(countWalk)
      ensures aborted <==> total == 0 && |Paths(scanWalk, join)| > 0
      ensures !aborted ==>
                Lists(found, excluded) == Aggregate(search, Paths(scanWalk, join), fs) &&
                fileCount == old(fileCount) + |Paths(scanWalk, join)| &&
                reports == Counts(old(fileCount), |Paths(scanWalk, join)|)
      ensures aborted ==> fileCount == old(fileCount) + 1 && reports == [] && found == [] && excluded == []
    {
      total := TotalFiles(countWalk);
      found, excluded, reports, aborted := [], [], [], false;
      ghost var visited: seq<string> := [];
      var i := 0;
      while i < |scanWalk|
        invariant 0 <= i <= |scanWalk|
        invariant visited == Paths(scanWalk[..i], join)
        invariant total == 0 ==> |visited| == 0
        invariant Lists(found, excluded) == Aggregate(search, visited, fs)
        invariant fileCount == old(fileCount) + |visited|
        invariant reports == Counts(old(fileCount), |visited|)
      {
        var stopped;
        found, excluded, reports, stopped :=
          AnalyzeEntry(search, scanWalk, i, join, fs, total, old(fileCount), visited, found, excluded, reports);
        if stopped {
          found, excluded, reports, aborted := [], [], [], true;
          return;
        }
        visited := Paths(scanWalk[..i + 1], join);
        i := i + 1;
      }
      assert scanWalk[..i] == scanWalk;
    }

    /** `start_analysis_thread`: refuse an empty search string; otherwise reset
        the count and run the analysis (on the calling thread). */
    method StartAnalysis(search: string, countWalk: seq<WalkEntry>, scanWalk: seq<WalkEntry>,
                         join: (string, string) -> string, fs: string -> FileRun)
      returns (started: bool, found: seq<string>, excluded: seq<string>, total: nat, reports: seq<nat>, aborted: bool)
      modifies this
      ensures started <==> search != ""
      ensures !started ==> status == EmptySearchMessage && fileCount == old(fileCount) && !aborted &&
                           found == [] && excluded == [] && total == 0 && reports == []
      ensures started ==> status == AnalyzingMessage && total == TotalFiles(countWalk) &&
                          (aborted <==> total == 0 && |Paths(scanWalk, join)| > 0)
      ensures started && !aborted ==>
                Lists(found, excluded) == Aggregate(search, Paths(scanWalk, join), fs) &&
                fileCount == |Paths(scanWalk, join)| &&
                reports == Counts(0, fileCount)
      ensures started && aborted ==> fileCount == 1 && reports == [] && found == [] && excluded == []
      ensures started && countWalk == scanWalk ==>
                !aborted && fileCount == total && forall k :: 0 <= k < |reports| ==> 1 <= reports[k] <= total
    {
      found, excluded, total, reports, aborted := [], [], 0, [], false;
      started := search != "";
      if !started {
        status := EmptySearchMessage;
        return;
      }
      status := AnalyzingMessage;
      fileCount := 0;
      found, excluded, total, reports, aborted := AnalyzeFiles(search, countWalk, scanWalk, join, fs);
      TotalFilesIsPathCount(countWalk, join);
    }
  }
}

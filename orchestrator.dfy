/**
 * The run (`Main`): resolve the result files, then for each file in order parse it,
 * compute its test-set name, ask the repository client for the matching test sets and
 * record the file's results in each, adding up how many tests were updated.
 *
 * The repository client is given as two functions: the test sets found under a folder
 * for a name, and the number of tests updated when a result dictionary is recorded in
 * a test set. Each update is kept in a trace, so that what the run sends where is
 * visible alongside the total it reports.
 */
module Orchestrator {
  import opened Wrappers
  import opened Settings
  import opened ResultParser
  import opened FileResolver
  import opened TestSetNames
  import Text

  /** A test set of the remote repository, known only by identity. */
  datatype TestSet = TestSet(id: nat)

  /** The repository client: `retrieveTestSets(path, name)` and `recordTestSetResults(set, results)`. */
  datatype QCClient = QCClient(
    retrieveTestSets: (string, string) -> seq<TestSet>,
    recordTestSetResults: (TestSet, map<string, string>) -> nat
  )

  /** One call of `recordTestSetResults`: for which file, into which set, with what, and how many tests it updated. */
  datatype ApplyCall = ApplyCall(file: string, testSet: TestSet, results: map<string, string>, applied: nat)

  /** The calls made so far and, once a file could not be read, the error that ended the run. */
  datatype Progress = Progress(calls: seq<ApplyCall>, failure: Option<IOError>)

  /** Everything a run does: its calls, then either the reported total or the error it stopped with. */
  datatype Run = Run(calls: seq<ApplyCall>, outcome: Result<nat, IOError>)

  /**
   * Which name a file's test sets are looked up by: the configured `qcTestSetName`, as
   * the original does, or the name computed for the file, which the original computes
   * and then does not use.
   */
  datatype Lookup = AsWritten | PerFileName

  function QueryName(cfg: Config, file: string, lookup: Lookup): string
  {
    match lookup
    case AsWritten => cfg.qcTestSetName
    case PerFileName => GetTestSetName(cfg, file)
  }

  /** The dictionary parsed from a file's lines. */
  function ParsedResults(lines: seq<string>, delimiter: char): map<string, string>
  {
    ParseLines(lines, delimiter).mapping.results
  }

  /** The calls recording `results` from `file` into each of `sets`, in order. */
  function FileCalls(qc: QCClient, file: string, sets: seq<TestSet>, results: map<string, string>): seq<ApplyCall>
  {
    seq(|sets|, j requires 0 <= j < |sets| => ApplyCall(file, sets[j], results, qc.recordTestSetResults(sets[j], results)))
  }

  /** The number of tests updated, summed over the calls (`qc.testCount`). */
  function Total(calls: seq<ApplyCall>): nat
  {
    if calls == [] then 0 else Total(calls[..|calls| - 1]) + calls[|calls| - 1].applied
  }

  /**
   * Processing the files in order: a file that cannot be read ends the run (the
   * exception of `File.ReadAllLines` is not caught), and nothing after it happens.
   */
  function ProcessFiles(cfg: Config, fs: FileSystem, qc: QCClient, files: seq<string>, lookup: Lookup): Progress
  {
    if files == [] then Progress([], None)
    else
      var before := ProcessFiles(cfg, fs, qc, files[..|files| - 1], lookup);
      var file := files[|files| - 1];
      if before.failure.Some? then before
      else if file !in fs.files then before.(failure := Some(PathNotFound(file)))
      else
        var sets := qc.retrieveTestSets(cfg.qcPath, QueryName(cfg, file, lookup));
        before.(calls := before.calls + FileCalls(qc, file, sets, ParsedResults(fs.files[file], cfg.delimiter)))
  }

  /** A whole run: resolution failing stops it before any file; otherwise the files are processed. */
  function RunOf(cfg: Config, fs: FileSystem, qc: QCClient, lookup: Lookup): Run
  {
    match GetTestResultsFiles(cfg, fs)
    case Failure(e) => Run([], Failure(e))
    case Success(files) =>
      var p := ProcessFiles(cfg, fs, qc, files, lookup);
      Run(p.calls, if p.failure.Some? then Failure(p.failure.value) else Success(Total(p.calls)))
  }

  /**
   * `Main` as written, after the configuration is read and the client is connected:
   * its calls and outcome are those of `RunOf` with the configured test-set name,
   * and the total it reports is the sum of what every call updated.
   */
  method UpdateTestResultsInQC(cfg: Config, fs: FileSystem, qc: QCClient)
    returns (calls: seq<ApplyCall>, outcome: Result<nat, IOError>)
    ensures Run(calls, outcome) == RunOf(cfg, fs, qc, AsWritten)
    ensures outcome.Success? ==> outcome.value == Total(calls)
  {
    var resolved := GetTestResultsFiles(cfg, fs);
    if resolved.Failure? {
      return [], Failure(resolved.error);
    }
    var testResultsFiles := resolved.value;
    var testCount := 0;
    calls := [];
    var i := 0;
    while i < |testResultsFiles|
      invariant 0 <= i <= |testResultsFiles|
      invariant ProcessFiles(cfg, fs, qc, testResultsFiles[..i], AsWritten) == Progress(calls, None)
      invariant testCount == Total(calls)
    {
      var testResultsFile := testResultsFiles[i];
      assert testResultsFiles[..i + 1][..i] == testResultsFiles[..i];
      if testResultsFile !in fs.files {
        FailureIsFinal(cfg, fs, qc, testResultsFiles[..i + 1], testResultsFiles[i + 1..], AsWritten);
        assert testResultsFiles[..i + 1] + testResultsFiles[i + 1..] == testResultsFiles;
        assert ProcessFiles(cfg, fs, qc, testResultsFiles, AsWritten) == Progress(calls, Some(PathNotFound(testResultsFile)));
        return calls, Failure(PathNotFound(testResultsFile));
      }
      var results, order, anomalies := GetTestResultsFromFile(fs.files[testResultsFile], cfg.delimiter);
      var tsName := GetTestSetName(cfg, testResultsFile);
      var tsTestSetList := qc.retrieveTestSets(cfg.qcPath, cfg.qcTestSetName);
      var own, applied := RecordResults(qc, testResultsFile, tsTestSetList, results);
      TotalAppend(calls, own);
      testCount := testCount + applied;
      calls := calls + own;
      ProcessNextFile(cfg, fs, qc, testResultsFiles, i, AsWritten);
      i := i + 1;
    }
    assert testResultsFiles[..i] == testResultsFiles;
    assert ProcessFiles(cfg, fs, qc, testResultsFiles, AsWritten) == Progress(calls, None);
    outcome := Success(testCount);
  }

  /**
   * The inner loop of `Main`: the file's results are recorded into each test set in
   * turn, and the counts the client returns are added up.
   */
  method RecordResults(qc: QCClient, file: string, sets: seq<TestSet>, results: map<string, string>)
    returns (calls: seq<ApplyCall>, applied: nat)
    ensures calls == FileCalls(qc, file, sets, results)
    ensures applied == Total(calls)
  {
    calls, applied := [], 0;
    var j := 0;
    while j < |sets|
      invariant 0 <= j <= |sets|
      invariant calls == FileCalls(qc, file, sets[..j], results)
      invariant applied == Total(calls)
    {
      var count := qc.recordTestSetResults(sets[j], results);
      var call := ApplyCall(file, sets[j], results, count);
      FileCallsSnoc(qc, file, sets, j, results);
      assert (calls + [call])[..|calls|] == calls;
      applied := applied + count;
      calls := calls + [call];
      j := j + 1;
    }
    assert sets[..j] == sets;
  }

  lemma FileCallsSnoc(qc: QCClient, file: string, sets: seq<TestSet>, j: nat, results: map<string, string>)
    requires j < |sets|
    ensures FileCalls(qc, file, sets[..j + 1], results) ==
              FileCalls(qc, file, sets[..j], results)
              + [ApplyCall(file, sets[j], results, qc.recordTestSetResults(sets[j], results))]
  {
  }

  /** The progress after one more readable file, when no earlier file failed. */
  lemma ProcessNextFile(cfg: Config, fs: FileSystem, qc: QCClient, files: seq<string>, i: nat, lookup: Lookup)
    requires i < |files| && ProcessFiles(cfg, fs, qc, files[..i], lookup).failure.None? && files[i] in fs.files
    ensures ProcessFiles(cfg, fs, qc, files[..i + 1], lookup) ==
              Progress(ProcessFiles(cfg, fs, qc, files[..i], lookup).calls
                       + FileCalls(qc, files[i], qc.retrieveTestSets(cfg.qcPath, QueryName(cfg, files[i], lookup)),
                                   ParsedResults(fs.files[files[i]], cfg.delimiter)),
                       None)
  {
    assert files[..i + 1][..i] == files[..i];
  }

  /** Totals add up over concatenated call sequences. */
  lemma {:induction false} TotalAppend(a: seq<ApplyCall>, b: seq<ApplyCall>)
    ensures Total(a + b) == Total(a) + Total(b)
  {
    if b == [] {
      assert a + b == a;
    } else {
      var n := |b| - 1;
      TotalAppend(a, b[..n]);
      assert (a + b)[..|a + b| - 1] == a + b[..n];
    }
  }

  /**
   * A readable file after files that were all read adds to the total exactly what its
   * own calls updated, so the run's total is the sum of the per-file totals.
   */
  lemma TotalPerFile(cfg: Config, fs: FileSystem, qc: QCClient, files: seq<string>, file: string, lookup: Lookup)
    requires ProcessFiles(cfg, fs, qc, files, lookup).failure.None? && file in fs.files
    ensures var own := FileCalls(qc, file, qc.retrieveTestSets(cfg.qcPath, QueryName(cfg, file, lookup)),
                                 ParsedResults(fs.files[file], cfg.delimiter));
            Total(ProcessFiles(cfg, fs, qc, files + [file], lookup).calls)
              == Total(ProcessFiles(cfg, fs, qc, files, lookup).calls) + Total(own)
  {
    var own := FileCalls(qc, file, qc.retrieveTestSets(cfg.qcPath, QueryName(cfg, file, lookup)),
                         ParsedResults(fs.files[file], cfg.delimiter));
    assert (files + [file])[..|files|] == files;
    TotalAppend(ProcessFiles(cfg, fs, qc, files, lookup).calls, own);
  }

  /** Once a file could not be read, later files change nothing. */
  lemma {:induction false} FailureIsFinal(cfg: Config, fs: FileSystem, qc: QCClient,
                                          done: seq<string>, rest: seq<string>, lookup: Lookup)
    requires ProcessFiles(cfg, fs, qc, done, lookup).failure.Some?
    ensures ProcessFiles(cfg, fs, qc, done + rest, lookup) == ProcessFiles(cfg, fs, qc, done, lookup)
  {
    if rest == [] {
      assert done + rest == done;
    } else {
      var n := |rest| - 1;
      FailureIsFinal(cfg, fs, qc, done, rest[..n], lookup);
      assert (done + rest)[..|done + rest| - 1] == done + rest[..n];
    }
  }

  /**
   * With no file to process (neither setting given, or a directory without `.csv`
   * files), nothing is recorded and the reported total is 0.
   */
  lemma NothingToProcess(cfg: Config, fs: FileSystem, qc: QCClient, lookup: Lookup)
    requires GetTestResultsFiles(cfg, fs) == Success([])
    ensures RunOf(cfg, fs, qc, lookup) == Run([], Success(0))
  {
  }

  /** Position of the `j`-th test set's call for the `i`-th file when every file gets `width` calls. */
  function Slot(i: nat, j: nat, width: nat): nat
  {
    i * width + j
  }

  lemma SlotBounds(i: nat, j: nat, width: nat, m: nat)
    requires i < m && j < width
    ensures Slot(i, j, width) < m * width
    ensures (m + 1) * width == m * width + width
  {
    assert (i + 1) * width <= m * width by {
      assert m * width - (i + 1) * width == (m - i - 1) * width;
    }
  }

  /** Index of the first file that cannot be read, or `|files|` when all can. */
  function FirstUnreadable(fs: FileSystem, files: seq<string>): (m: nat)
    ensures m <= |files|
    ensures m < |files| ==> files[m] !in fs.files
    ensures forall i :: 0 <= i < m ==> files[i] in fs.files
  {
    if files == [] then 0
    else if files[0] !in fs.files then 0
    else 1 + FirstUnreadable(fs, files[1..])
  }

  lemma FirstUnreadableAppend(fs: FileSystem, files: seq<string>, f: string)
    ensures FirstUnreadable(fs, files + [f]) ==
              if FirstUnreadable(fs, files) < |files| then FirstUnreadable(fs, files)
              else if f !in fs.files then |files| else |files| + 1
  {
    var all := files + [f];
    var m := FirstUnreadable(fs, files);
    if m < |files| {
      assert all[m] == files[m];
    } else {
      assert forall i :: 0 <= i < |files| ==> all[i] == files[i];
      assert all[|files|] == f;
    }
  }

  /**
   * `calls` holds, for each file of `done` in order, one call per test set of `sets`
   * in order, each with that file's parsed results.
   */
  ghost predicate LaidOut(calls: seq<ApplyCall>, done: seq<string>, sets: seq<TestSet>,
                          fs: FileSystem, qc: QCClient, delimiter: char)
    requires forall i :: 0 <= i < |done| ==> done[i] in fs.files
  {
    && |calls| == |done| * |sets|
    && forall i, j :: 0 <= i < |done| && 0 <= j < |sets| ==>
         && Slot(i, j, |sets|) < |calls|
         && calls[Slot(i, j, |sets|)] ==
              ApplyCall(done[i], sets[j], ParsedResults(fs.files[done[i]], delimiter),
                        qc.recordTestSetResults(sets[j], ParsedResults(fs.files[done[i]], delimiter)))
  }

  /** A call laid out for an earlier file keeps its place when more calls follow. */
  lemma SlotKept(calls: seq<ApplyCall>, extra: seq<ApplyCall>, i: nat, j: nat, width: nat, m0: nat)
    requires |calls| == m0 * width && i < m0 && j < width
    ensures Slot(i, j, width) < |calls|
    ensures (calls + extra)[Slot(i, j, width)] == calls[Slot(i, j, width)]
  {
    SlotBounds(i, j, width, m0);
  }

  /** The calls for the next file come right after those of the files before it. */
  lemma SlotNew(calls: seq<ApplyCall>, extra: seq<ApplyCall>, j: nat, width: nat, m0: nat)
    requires |calls| == m0 * width && |extra| == width && j < width
    ensures Slot(m0, j, width) == |calls| + j
    ensures Slot(m0, j, width) < |calls + extra|
    ensures (calls + extra)[Slot(m0, j, width)] == extra[j]
  {
  }

  lemma LaidOutAppend(calls: seq<ApplyCall>, pre: seq<string>, f: string, sets: seq<TestSet>,
                      fs: FileSystem, qc: QCClient, delimiter: char)
    requires (forall i :: 0 <= i < |pre| ==> pre[i] in fs.files) && f in fs.files
    requires LaidOut(calls, pre, sets, fs, qc, delimiter)
    ensures LaidOut(calls + FileCalls(qc, f, sets, ParsedResults(fs.files[f], delimiter)),
                    pre + [f], sets, fs, qc, delimiter)
  {
    var files := pre + [f];
    var width, m0 := |sets|, |pre|;
    var extra := FileCalls(qc, f, sets, ParsedResults(fs.files[f], delimiter));
    var all := calls + extra;
    assert |all| == (m0 + 1) * width by {
      assert (m0 + 1) * width == m0 * width + width;
    }
    forall i, j | 0 <= i < m0 + 1 && 0 <= j < width
      ensures Slot(i, j, width) < |all|
      ensures all[Slot(i, j, width)] ==
                ApplyCall(files[i], sets[j], ParsedResults(fs.files[files[i]], delimiter),
                          qc.recordTestSetResults(sets[j], ParsedResults(fs.files[files[i]], delimiter)))
    {
      if i < m0 {
        SlotKept(calls, extra, i, j, width, m0);
        assert files[i] == pre[i];
      } else {
        SlotNew(calls, extra, j, width, m0);
      }
    }
  }

  /**
   * The shape of a run as written. Every file is looked up under the same configured
   * name, so every readable file gets one call per test set of the same list, in
   * that order, each carrying that file's parsed results; files are taken in
   * resolver order up to the first file that cannot be read, which ends the run with
   * its error.
   */
  lemma {:induction false} ProcessShape(cfg: Config, fs: FileSystem, qc: QCClient, files: seq<string>)
    ensures var m := FirstUnreadable(fs, files);
            var p := ProcessFiles(cfg, fs, qc, files, AsWritten);
            && LaidOut(p.calls, files[..m], qc.retrieveTestSets(cfg.qcPath, cfg.qcTestSetName), fs, qc, cfg.delimiter)
            && p.failure == (if m < |files| then Some(PathNotFound(files[m])) else None)
  {
    if files == [] {
      assert files[..0] == [];
    } else {
      var n := |files| - 1;
      var pre, f := files[..n], files[n];
      assert files == pre + [f];
      ProcessShape(cfg, fs, qc, pre);
      FirstUnreadableAppend(fs, pre, f);
      var sets := qc.retrieveTestSets(cfg.qcPath, cfg.qcTestSetName);
      var m0 := FirstUnreadable(fs, pre);
      var p0 := ProcessFiles(cfg, fs, qc, pre, AsWritten);
      assert files[..m0] == pre[..m0];
      if m0 == n && f in fs.files {
        assert pre[..m0] == pre && files[..n + 1] == pre + [f];
        LaidOutAppend(p0.calls, pre, f, sets, fs, qc, cfg.delimiter);
      }
    }
  }

  /**
   * A call made while processing `files`: for one of them that could be read, with its
   * parsed results, into a test set the client returned for its lookup name, with the
   * client's count.
   */
  ghost predicate DescribesFile(c: ApplyCall, cfg: Config, fs: FileSystem, qc: QCClient,
                                files: seq<string>, lookup: Lookup)
  {
    && c.file in files
    && c.file in fs.files
    && c.results == ParsedResults(fs.files[c.file], cfg.delimiter)
    && c.testSet in qc.retrieveTestSets(cfg.qcPath, QueryName(cfg, c.file, lookup))
    && c.applied == qc.recordTestSetResults(c.testSet, c.results)
  }

  /**
   * What each call of a run carries, whichever name is used for the lookup: a file the
   * resolver returned and that could be read, that file's parsed results, a test set
   * the client returned for the file's lookup name, and the client's count for it.
   */
  lemma {:induction false} CallsDescribeFiles(cfg: Config, fs: FileSystem, qc: QCClient,
                                              files: seq<string>, lookup: Lookup)
    ensures forall k :: 0 <= k < |ProcessFiles(cfg, fs, qc, files, lookup).calls| ==>
              DescribesFile(ProcessFiles(cfg, fs, qc, files, lookup).calls[k], cfg, fs, qc, files, lookup)
  {
    if files != [] {
      var n := |files| - 1;
      var pre, f := files[..n], files[n];
      assert files == pre + [f];
      CallsDescribeFiles(cfg, fs, qc, pre, lookup);
      var p0 := ProcessFiles(cfg, fs, qc, pre, lookup);
      var calls := ProcessFiles(cfg, fs, qc, files, lookup).calls;
      if p0.failure.Some? || f !in fs.files {
        assert calls == p0.calls;
        forall k | 0 <= k < |calls|
          ensures DescribesFile(calls[k], cfg, fs, qc, files, lookup)
        {
          DescribesLonger(calls[k], cfg, fs, qc, pre, f, lookup);
        }
      } else {
        var own := FileCalls(qc, f, qc.retrieveTestSets(cfg.qcPath, QueryName(cfg, f, lookup)),
                             ParsedResults(fs.files[f], cfg.delimiter));
        assert calls == p0.calls + own;
        forall k | 0 <= k < |calls|
          ensures DescribesFile(calls[k], cfg, fs, qc, files, lookup)
        {
          if k < |p0.calls| {
            assert calls[k] == p0.calls[k];
            DescribesLonger(calls[k], cfg, fs, qc, pre, f, lookup);
          } else {
            assert calls[k] == own[k - |p0.calls|];
          }
        }
      }
    }
  }

  /** A call that describes a file of `pre` still does once one more file follows. */
  lemma DescribesLonger(c: ApplyCall, cfg: Config, fs: FileSystem, qc: QCClient,
                        pre: seq<string>, f: string, lookup: Lookup)
    requires DescribesFile(c, cfg, fs, qc, pre, lookup)
    ensures DescribesFile(c, cfg, fs, qc, pre + [f], lookup)
  {
    assert c.file in pre + [f];
  }

  /** With a non-empty configured name the per-file name is that name, so both lookups run alike. */
  lemma {:induction false} LookupsAgreeWithOverride(cfg: Config, fs: FileSystem, qc: QCClient, files: seq<string>)
    requires cfg.qcTestSetName != ""
    ensures ProcessFiles(cfg, fs, qc, files, AsWritten) == ProcessFiles(cfg, fs, qc, files, PerFileName)
  {
    if files != [] {
      LookupsAgreeWithOverride(cfg, fs, qc, files[..|files| - 1]);
    }
  }

  /**
   * As written: without a configured test-set name, a single result file is recorded
   * into the test sets the client finds for the empty name, not for the name the run
   * computes from the file, which is the file's base name.
   */
  lemma DerivedNameIgnored(cfg: Config, fs: FileSystem, qc: QCClient)
    requires cfg.qcTestSetName == "" && cfg.testResultsFile != "" && cfg.testResultsFile in fs.files
    ensures var f := cfg.testResultsFile;
            && GetTestSetName(cfg, f) == Text.FileNameWithoutExtension(f)
            && RunOf(cfg, fs, qc, AsWritten).calls ==
                 FileCalls(qc, f, qc.retrieveTestSets(cfg.qcPath, ""), ParsedResults(fs.files[f], cfg.delimiter))
  {
    SingleFileRun(cfg, fs, qc, AsWritten);
  }

  /**
   * With the computed name used for the lookup, the same single file is recorded into
   * the test sets found under its base name, and the run reports what those updated.
   */
  lemma IntendedLookupUsesFileName(cfg: Config, fs: FileSystem, qc: QCClient)
    requires cfg.qcTestSetName == "" && cfg.testResultsFile != "" && cfg.testResultsFile in fs.files
    ensures var f := cfg.testResultsFile;
            var calls := FileCalls(qc, f, qc.retrieveTestSets(cfg.qcPath, Text.FileNameWithoutExtension(f)),
                                   ParsedResults(fs.files[f], cfg.delimiter));
            RunOf(cfg, fs, qc, PerFileName) == Run(calls, Success(Total(calls)))
  {
    SingleFileRun(cfg, fs, qc, PerFileName);
  }

  lemma SingleFileRun(cfg: Config, fs: FileSystem, qc: QCClient, lookup: Lookup)
    requires cfg.testResultsFile != "" && cfg.testResultsFile in fs.files
    ensures var f := cfg.testResultsFile;
            var calls := FileCalls(qc, f, qc.retrieveTestSets(cfg.qcPath, QueryName(cfg, f, lookup)),
                                   ParsedResults(fs.files[f], cfg.delimiter));
            RunOf(cfg, fs, qc, lookup) == Run(calls, Success(Total(calls)))
  {
    var f := cfg.testResultsFile;
    assert GetTestResultsFiles(cfg, fs) == Success([f]);
    assert [f][..0] == [];
    var calls := FileCalls(qc, f, qc.retrieveTestSets(cfg.qcPath, QueryName(cfg, f, lookup)),
                           ParsedResults(fs.files[f], cfg.delimiter));
    assert ProcessFiles(cfg, fs, qc, [f], lookup) == Progress([] + calls, None);
    assert [] + calls == calls;
  }
}

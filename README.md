# QCIntegration result ingestion, in Dafny

QCIntegration is a command-line job. It reads CSV result files of the form
`testName<delimiter>status` and records the statuses in the matching test sets of a
Quality Center (QC) repository. This project models the core of that job in
`QCIntegration/UpdateTestResultsInQC.cs` and proves what it does.

- **The result parser** (`getTestResultsFromFile`). It is modelled as the method
  `ResultParser.GetTestResultsFromFile`, a loop over the file's lines that updates a
  dictionary. The method is proved equal to the pure fold `ResultParser.ParseLines`.
  The fold also keeps the dictionary's insertion order and the warnings and errors the
  parser logs: a malformed line, or a duplicate test name.
- **The test-set name** (`getTestSetName`). It is the function `TestSetNames.GetTestSetName`.
  `Path.GetFileNameWithoutExtension` is written out in module `Text`.
- **The file resolver** (`getTestResultsFiles`). It is the function
  `FileResolver.GetTestResultsFiles` over a file-system snapshot. The snapshot says which
  paths are directories and what they list, and which paths are files and what lines
  they hold.
- **The run** (`Main`). It is the method `Orchestrator.UpdateTestResultsInQC`, whose loop
  runs over the files; the inner loop over a file's test sets (lines 45-48) is the method
  `Orchestrator.RecordResults`, which it calls. `UpdateTestResultsInQC` is proved equal to
  the function `Orchestrator.RunOf`.
  The QC client is given as two functions:
  - the test sets found under a folder for a name;
  - the number of tests that recording a dictionary in a test set updates.

  Every recording is kept in a trace of `ApplyCall`s, so that what goes where can be
  stated beside the reported total.
- **.NET helpers**, in module `Text`:
  - `String.Trim()` removes the white space of `Char.IsWhiteSpace` as of Unicode 6.3
    and later. `Text.Trim` characterises its result directly, and `Text.TrimPadded`
    shows that it removes exactly the padding around a string.
  - `String.Split(char)` always yields one more field than the line has delimiters.
    `Text.Join` is its inverse, and `Text.JoinSplit` and `Text.SplitJoin` are the two
    round trips.
  - `Path.GetFileName` splits on `\`, `/` and `:`, and the extension is cut at the last
    '.'. `Text.FileName` and `Text.StripExtension` have neither an inverse nor a round
    trip; their contracts characterise the result directly.

The parser follows the code on one point that looks unintended. `line.Trim()` at line
150 discards its result, so the blank and comment checks look at the untrimmed line:
- a line of white space is not skipped as blank: with a delimiter that is not white space it is reported as malformed (`ResultParser.WhiteSpaceLineIsMalformed`), and with a white-space delimiter it can be accepted (`ResultParser.WhiteSpaceDelimiterLine`);
- `  #x,y` is read as a record whose test name is `#x`.

`ResultParser.IndentedHashIsRecord` states the second consequence.

A result file that cannot be read ends the run. The exception of `File.ReadAllLines`
(line 138) is not caught in `Main`, so `ProcessFiles` stops at the first unreadable file
and the run fails with `PathNotFound`.

## Model

| member | source | states |
|---|---|---|
| `Text.Trim` | QCIntegration/UpdateTestResultsInQC.cs:174-175 | the result is a contiguous piece of the input with no white space at either end, and everything removed on both sides is white space |
| `Text.TrimPadded` | QCIntegration/UpdateTestResultsInQC.cs:174-175 | trimming white space padded around a string that has none at its ends gives back exactly that string |
| `Text.Split` | QCIntegration/UpdateTestResultsInQC.cs:165 | splitting yields one more field than the line has delimiters, and no field contains the delimiter |
| `Text.JoinSplit` | QCIntegration/UpdateTestResultsInQC.cs:165 | joining the fields of a split with the delimiter gives back the line (nothing is lost) |
| `Text.SplitJoin` | QCIntegration/UpdateTestResultsInQC.cs:165 | delimiter-free fields joined and split again come back unchanged |
| `Text.FileName` | QCIntegration/UpdateTestResultsInQC.cs:62 | the file name is the separator-free tail of the path, and a separator stands just before it when it is not the whole path |
| `Text.StripExtension` | QCIntegration/UpdateTestResultsInQC.cs:62 | the result is a prefix of the name; a name without '.' is kept whole, and otherwise the cut is at the last '.' |
| `TestSetNames.TestSetNameCases` | QCIntegration/UpdateTestResultsInQC.cs:54-65 | a non-empty override is returned for every file; without one the name is the file name cut at its last '.', has no separator, and is the whole file name when there is no '.' |
| `TestSetNames.DerivedName` | QCIntegration/UpdateTestResultsInQC.cs:60-63 | without an override, `dir/base.ext` is looked up as `base` (for example `/tmp/nightly_run.csv` gives `nightly_run`) |
| `FileResolver.CsvFiles` | QCIntegration/UpdateTestResultsInQC.cs:80 | a directory's files are exactly its `.csv` entries, and there are no more of them than entries |
| `FileResolver.ResolutionCases` | QCIntegration/UpdateTestResultsInQC.cs:67-94 | the resolver's cases: an explicit file alone, whatever the path is; a directory gives exactly its `.csv` entries; another existing path gives itself; a missing path is an error; with neither setting the list is empty |
| `FileResolver.DirectoryOfThree` | QCIntegration/UpdateTestResultsInQC.cs:77-81 | a directory listing two `.csv` files and another file resolves to the two `.csv` files in listing order |
| `ResultParser.ClassifyCases` | QCIntegration/UpdateTestResultsInQC.cs:152-175 | a line is blank if and only if it is empty, and a comment if and only if its first character is '#'. It is malformed if and only if it is neither and has a delimiter count other than one, and it is then reported with that count plus one fields. An accepted line is cut at its only delimiter into two trimmed fields |
| `ResultParser.ClassifyTwoFields` | QCIntegration/UpdateTestResultsInQC.cs:165-175 | two delimiter-free fields around one delimiter, when the line does not start with '#', are accepted as the record of the two trimmed fields; the delimiter may itself be '#' (`a#b` is then a record) |
| `ResultParser.GetTestResultsFromFile` | QCIntegration/UpdateTestResultsInQC.cs:134-194 | the loop computes the parse of the lines. A test name is a key if and only if some line is accepted with it, and its value is the status on the first such line. The insertion order holds exactly the keys, ordered by that first line |
| `ResultParser.ParsedMapping` | QCIntegration/UpdateTestResultsInQC.cs:174-187 | every key is the trimmed name of some accepted line and every such name is a key; its value is the status of the first accepted line with that name |
| `ResultParser.ParsedOrder` | QCIntegration/UpdateTestResultsInQC.cs:180-182 | the insertion order lists exactly the keys, sorted by the line on which each is first accepted, so none is listed twice |
| `ResultParser.FoldTabulatesAccepted` | QCIntegration/UpdateTestResultsInQC.cs:145-191 | the dictionary depends only on the accepted records, in file order, inserted one after another with the first occurrence winning |
| `ResultParser.SkippedLineInvariance` | QCIntegration/UpdateTestResultsInQC.cs:152-171 | a line that is not accepted can be removed from anywhere in the file without changing the dictionary |
| `ResultParser.BlankAndCommentLinesIgnored` | QCIntegration/UpdateTestResultsInQC.cs:150-162 | an empty line or a line starting with '#' (untrimmed) can be inserted anywhere without changing the dictionary, and at the end it changes nothing at all, not even the log |
| `ResultParser.MalformedLineTolerated` | QCIntegration/UpdateTestResultsInQC.cs:165-171 | a line that is neither empty nor starts with '#', and whose delimiter count is not one, adds only a malformed-line warning for its line number and field count, and the lines after it are parsed as if it were absent |
| `ResultParser.TabulateDuplicate` | QCIntegration/UpdateTestResultsInQC.cs:182-187 | a record whose name is already present adds nothing, whatever records follow it |
| `ResultParser.DuplicateKeepsFirst` | QCIntegration/UpdateTestResultsInQC.cs:180-187 | an accepted line whose name is already a key leaves the dictionary unchanged and adds only an error for its line number; parsing goes on, and the lines after it give what they would give without it |
| `ResultParser.WhiteSpaceLineIsMalformed` | QCIntegration/UpdateTestResultsInQC.cs:150-171 | when the delimiter is not itself white space, a non-empty line of white space, which trimming would empty, is reported as malformed with one field |
| `ResultParser.WhiteSpaceDelimiterLine` | QCIntegration/UpdateTestResultsInQC.cs:150-180 | when the delimiter is a white-space character (a tab, say), a white-space line holding it exactly once is accepted as the record with an empty test name and an empty status; with any other number of delimiters it is malformed |
| `ResultParser.IndentedHashIsRecord` | QCIntegration/UpdateTestResultsInQC.cs:150-175 | a '#' line indented by white space and holding exactly one delimiter, which is not white space, is not a comment; it is accepted with a test name that starts with '#' |
| `ResultParser.SampleFile` | QCIntegration/UpdateTestResultsInQC.cs:134-194 | two results, a blank line, a comment and a repeat of the first test give both entries in order, the first status kept, and one duplicate error for line 5 |
| `Orchestrator.UpdateTestResultsInQC` | QCIntegration/UpdateTestResultsInQC.cs:29-52 | the nested loops make exactly the calls, and end with exactly the outcome, of the run specified by `RunOf` with the configured test-set name; the total reported is the sum of what every call updated |
| `Orchestrator.RecordResults` | QCIntegration/UpdateTestResultsInQC.cs:45-48 | one call per retrieved test set, in list order, each with the file's dictionary and the client's count; the returned count is their sum |
| `Orchestrator.ProcessShape` | QCIntegration/UpdateTestResultsInQC.cs:40-49 | files are taken in resolver order up to the first unreadable one, which ends the run with its error. Each file before it gets one call per test set of the list retrieved for the configured name, in that list's order, each with that file's parsed dictionary |
| `Orchestrator.CallsDescribeFiles` | QCIntegration/UpdateTestResultsInQC.cs:40-48 | whichever lookup name is used, every call is for a resolved and readable file and carries that file's parsed dictionary. Its test set is one the client returned for the file's lookup name, and its count is the client's |
| `Orchestrator.FailureIsFinal` | QCIntegration/UpdateTestResultsInQC.cs:40-42 | once a file cannot be read, the files after it change nothing |
| `Orchestrator.TotalAppend` | QCIntegration/UpdateTestResultsInQC.cs:47-51 | the total of the updated counts adds up over consecutive stretches of calls |
| `Orchestrator.TotalPerFile` | QCIntegration/UpdateTestResultsInQC.cs:40-51 | each readable file adds to the reported total exactly what its own calls updated, so the run's total is the sum of the per-file totals |
| `Orchestrator.NothingToProcess` | QCIntegration/UpdateTestResultsInQC.cs:40-51 | when the resolver returns no files, no call is made and the total reported is 0 |
| `Orchestrator.LookupsAgreeWithOverride` | QCIntegration/UpdateTestResultsInQC.cs:43-44 | with a non-empty configured test-set name, looking up by the configured name and by the computed name give the same run |
| `Orchestrator.DerivedNameIgnored` | QCIntegration/UpdateTestResultsInQC.cs:43-47 | as written, with no configured name, the computed name of a single result file is its base name, yet its results go into the test sets found for the empty name |
| `Orchestrator.IntendedLookupUsesFileName` | QCIntegration/UpdateTestResultsInQC.cs:43-47 | looking up by the computed name, the same file's results go into the test sets found under its base name, and the run reports what those calls updated |

## Left out

- Reading the configuration (`initialize`, lines 99-118) is left out. The settings are the record `Settings.Config`, and a missing setting is the empty string. For `testResultsFile`, `testResultsPath` and the `qcTestSetName` check of `getTestSetName` this is exact, since those uses go through `String.IsNullOrEmpty`. A missing or empty `delimiter` setting, which makes line 117 throw, is not modelled.
- An absent `qcPath` or `qcTestSetName` reaches `qc.retrieveTestSets` (line 44) as `""` in the model, where the original passes `null`. How the client treats `null` is not part of this model.
- `Text.IsWhiteSpace` is the white-space set of Unicode 6.3 and later. Runtimes whose character data predate Unicode 6.3, such as the early .NET Framework 4 releases, also count U+180E MONGOLIAN VOWEL SEPARATOR as white space, so their `Trim` removes it too; that variant is not modelled.
- Connecting to QC and the COM client (lines 36-37, `QCController`, `TDAPIOLELib`) are not part of this model. The client is two given functions. The sessions and the remote state that `recordTestSetResults` changes are not modelled, and so nothing is proved about it. `qc.testCount` is the sum of the counts the second function returns.
- Reading files (`File.ReadAllLines` with UTF-8 decoding, line 138) is left out. A file is the sequence of lines it holds in the snapshot, and a path missing from the snapshot is the `PathNotFound` error.
- The `File.Exists` check (lines 140-143) is not modelled. It runs after the read, which has already thrown for a missing file; it can fire only if the file disappears between the read and the check, which the snapshot model excludes.
- `File.GetAttributes` and `Directory.GetFiles` (lines 77 and 80) become the snapshot. The order of a directory's listing is taken as given. The Windows pattern rules for `*.csv` are not modelled: case-insensitive matching, and short 8.3 names matching longer extensions. `IsCsv` is a plain, case-sensitive suffix test.
- The delimiter is taken to be a single character of the Basic Multilingual Plane. A `char` here is a Unicode scalar value, while .NET's is a UTF-16 code unit: a `delimiter` setting starting outside that plane would make `DELIMITER` (line 117) a lone high surrogate, which `Config.delimiter` cannot hold, and line 165 would then split lines inside surrogate pairs.
- Logging (NLog) is left out, except the warning for a malformed line and the error for a duplicate test name. Both are kept, with their line numbers, as `Anomaly` values.
- Exceptions other than a missing path (access denied, I/O errors, invalid path characters) are not modelled.

## Findings

| source | as written | input that shows it | evidently intended | confidence | as-written member | corrected member |
|---|---|---|---|---|---|---|
| QCIntegration/UpdateTestResultsInQC.cs:43-44 | the test sets are retrieved by the configured `qcTestSetName`; the per-file name `tsName` computed on line 43 is never used | no `qcTestSetName` configured and `testResultsFile = /tmp/nightly_run.csv`: the results go to the test sets retrieved for the name null (or "" when the setting is present but empty) instead of `nightly_run` | retrieve the test sets by `tsName`, so each file goes to the test set named after it when no override is configured | medium, not executed | `Orchestrator.DerivedNameIgnored` | `Orchestrator.IntendedLookupUsesFileName` |

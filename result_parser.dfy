/**
 * The result-file parser (`getTestResultsFromFile`): folds the lines of one result file
 * into a dictionary from test name to status, skipping blank, comment and malformed
 * lines and keeping the first status of a test name that occurs twice.
 *
 * Note the original discards the result of `line.Trim()`, so the blank and comment
 * checks look at the untrimmed line: a line of white space is not skipped as blank (with
 * a delimiter that is not white space it is malformed), and "  #x,y" is a record, not a
 * comment. `Classify` follows the original here.
 */
module ResultParser {
  import opened Text

  /** One accepted line: trimmed test name and trimmed status. */
  datatype Record = Record(testName: string, status: string)

  /** What the parser makes of one line. */
  datatype LineKind =
    | Blank
    | Comment
    | Malformed(fieldCount: nat)
    | Entry(record: Record)

  /** The warnings and errors the parser logs; line numbers count from 1. */
  datatype Anomaly =
    | MalformedLine(lineNo: nat, fieldCount: nat)      // logged as a warning
    | DuplicateTestName(lineNo: nat, testName: string) // `Dictionary.Add` threw; logged as an error

  /** The dictionary being built: its entries and the order in which the keys were added. */
  datatype Mapping = Mapping(results: map<string, string>, order: seq<string>)

  datatype Parsed = Parsed(mapping: Mapping, anomalies: seq<Anomaly>)

  /**
   * Classification of one line, with the checks on the untrimmed line: empty, first
   * character '#', otherwise split on the delimiter and accepted only with exactly
   * two fields.
   */
  function Classify(line: string, delimiter: char): LineKind
  {
    if |line| == 0 then Blank
    else if line[0] == '#' then Comment
    else
      var fields := Split(line, delimiter);
      if |fields| != 2 then Malformed(|fields|)
      else Entry(Record(Trim(fields[0]), Trim(fields[1])))
  }

  /**
   * The classes of lines: blank means empty, comment means first character '#', a
   * malformed line has a delimiter count other than one (and that many fields plus
   * one), and an accepted line is cut at its single delimiter into two trimmed fields.
   */
  lemma ClassifyCases(line: string, delimiter: char)
    ensures Classify(line, delimiter) == Blank <==> |line| == 0
    ensures Classify(line, delimiter) == Comment <==> |line| > 0 && line[0] == '#'
    ensures Classify(line, delimiter).Malformed? <==> |line| > 0 && line[0] != '#' && Count(line, delimiter) != 1
    ensures Classify(line, delimiter).Malformed? ==> Classify(line, delimiter).fieldCount == Count(line, delimiter) + 1
    ensures Classify(line, delimiter).Entry? ==>
              exists i :: 0 <= i < |line| && line[i] == delimiter
                          && delimiter !in line[..i] && delimiter !in line[i + 1..]
                          && Classify(line, delimiter).record == Record(Trim(line[..i]), Trim(line[i + 1..]))
  {
    if |line| > 0 && line[0] != '#' {
      var fields := Split(line, delimiter);
      if |fields| == 2 {
        JoinSplit(line, delimiter);
        assert line == fields[0] + [delimiter] + fields[1];
        var i := |fields[0]|;
        assert line[i] == delimiter && line[..i] == fields[0] && line[i + 1..] == fields[1];
      }
    }
  }

  /**
   * A line made of two delimiter-free fields, and not starting with '#', is a record of
   * the two trimmed fields. The delimiter itself may be '#' when the name is not empty.
   */
  lemma ClassifyTwoFields(name: string, status: string, delimiter: char)
    requires delimiter !in name && delimiter !in status
    requires (name + [delimiter] + status)[0] != '#'
    ensures Classify(name + [delimiter] + status, delimiter) == Entry(Record(Trim(name), Trim(status)))
  {
    SplitJoin([name, status], delimiter);
    assert Join([name, status], delimiter) == name + [delimiter] + status;
  }

  /** The kind of every line, in file order. */
  function Kinds(lines: seq<string>, delimiter: char): seq<LineKind>
  {
    seq(|lines|, i requires 0 <= i < |lines| => Classify(lines[i], delimiter))
  }

  lemma KindsAppend(a: seq<string>, b: seq<string>, delimiter: char)
    ensures Kinds(a + b, delimiter) == Kinds(a, delimiter) + Kinds(b, delimiter)
  {
  }

  /** One more line: the parse so far, followed by one step for that line with its 1-based number. */
  lemma ParseLinesSnoc(a: seq<string>, x: string, delimiter: char)
    ensures ParseLines(a + [x], delimiter) == Step(ParseLines(a, delimiter), |a| + 1, Classify(x, delimiter))
  {
    var ks := Kinds(a + [x], delimiter);
    assert ks[..|a|] == Kinds(a, delimiter);
    assert ks[|a|] == Classify(x, delimiter);
  }

  /**
   * `Dictionary.Add` inside the original's try/catch: a new key is added at the end,
   * an existing key leaves the dictionary as it was.
   */
  function Add(m: Mapping, r: Record): Mapping
  {
    if r.testName in m.results then m
    else Mapping(m.results[r.testName := r.status], m.order + [r.testName])
  }

  /** One iteration of the parser's loop, for a line of the given kind at line number `lineNo`. */
  function Step(p: Parsed, lineNo: nat, kind: LineKind): Parsed
  {
    match kind
    case Blank => p
    case Comment => p
    case Malformed(n) => p.(anomalies := p.anomalies + [MalformedLine(lineNo, n)])
    case Entry(r) =>
      if r.testName in p.mapping.results
      then p.(anomalies := p.anomalies + [DuplicateTestName(lineNo, r.testName)])
      else p.(mapping := Add(p.mapping, r))
  }

  /** The fold of `Step` over classified lines; line numbers count from 1. */
  function Fold(kinds: seq<LineKind>): Parsed
  {
    if kinds == [] then Parsed(Mapping(map[], []), [])
    else Step(Fold(kinds[..|kinds| - 1]), |kinds|, kinds[|kinds| - 1])
  }

  /** The whole parse of a file's lines. */
  function ParseLines(lines: seq<string>, delimiter: char): Parsed
  {
    Fold(Kinds(lines, delimiter))
  }

  /** The records of the accepted lines, in file order. */
  function Accepted(kinds: seq<LineKind>): seq<Record>
  {
    if kinds == [] then []
    else
      var k := kinds[|kinds| - 1];
      Accepted(kinds[..|kinds| - 1]) + (if k.Entry? then [k.record] else [])
  }

  /** Adding records one after the other, first occurrence wins. */
  function Tabulate(records: seq<Record>): Mapping
  {
    if records == [] then Mapping(map[], [])
    else Add(Tabulate(records[..|records| - 1]), records[|records| - 1])
  }

  /** A line of this kind is accepted and names test `k`. */
  predicate Names(kind: LineKind, k: string)
  {
    kind.Entry? && kind.record.testName == k
  }

  /** Index of the first accepted line naming `k`, or `|kinds|` when there is none. */
  function FirstEntry(kinds: seq<LineKind>, k: string): (n: nat)
    ensures n <= |kinds|
    ensures n < |kinds| ==> Names(kinds[n], k)
    ensures forall j :: 0 <= j < n ==> !Names(kinds[j], k)
  {
    if kinds == [] then 0
    else if Names(kinds[0], k) then 0
    else 1 + FirstEntry(kinds[1..], k)
  }

  /** Index of the first line of the file accepted with test name `k`, or `|lines|`. */
  function FirstLine(lines: seq<string>, delimiter: char, k: string): nat
  {
    FirstEntry(Kinds(lines, delimiter), k)
  }

  /**
   * The parser as the original writes it: a loop over the lines that counts line
   * numbers and adds to a dictionary in place. Its result is the fold `ParseLines`;
   * a test name is a key exactly when some line is accepted with it, its value is the
   * status on the first such line, and the insertion order follows those first lines.
   */
  method GetTestResultsFromFile(lines: seq<string>, delimiter: char)
    returns (results: map<string, string>, order: seq<string>, anomalies: seq<Anomaly>)
    ensures Parsed(Mapping(results, order), anomalies) == ParseLines(lines, delimiter)
    ensures forall k :: k in results <==> FirstLine(lines, delimiter, k) < |lines|
    ensures forall k :: k in results ==>
              results[k] == Classify(lines[FirstLine(lines, delimiter, k)], delimiter).record.status
    ensures forall k :: k in results <==> k in order
    ensures forall i, j :: 0 <= i < j < |order| ==>
              FirstLine(lines, delimiter, order[i]) < FirstLine(lines, delimiter, order[j])
  {
    results, order, anomalies := map[], [], [];
    var lineCount := 0;
    while lineCount < |lines|
      invariant 0 <= lineCount <= |lines|
      invariant Parsed(Mapping(results, order), anomalies) == ParseLines(lines[..lineCount], delimiter)
    {
      var line := lines[lineCount];
      assert lines[..lineCount + 1] == lines[..lineCount] + [line];
      ParseLinesSnoc(lines[..lineCount], line, delimiter);
      lineCount := lineCount + 1;
      if |line| == 0 {
        // blank line
      } else if line[0] == '#' {
        // comment line
      } else {
        var result := Split(line, delimiter);
        if |result| != 2 {
          anomalies := anomalies + [MalformedLine(lineCount, |result|)];
        } else {
          var testName := Trim(result[0]);
          var testStatus := Trim(result[1]);
          if testName in results {
            anomalies := anomalies + [DuplicateTestName(lineCount, testName)];
          } else {
            results := results[testName := testStatus];
            order := order + [testName];
          }
        }
      }
    }
    assert lines[..lineCount] == lines;
    var kinds := Kinds(lines, delimiter);
    ParsedMapping(kinds);
    ParsedOrder(kinds);
  }

  /** Where the first entry naming `k` is once one more line is appended. */
  lemma FirstEntryAppend(kinds: seq<LineKind>, x: LineKind, k: string)
    ensures FirstEntry(kinds + [x], k) ==
              if FirstEntry(kinds, k) < |kinds| then FirstEntry(kinds, k)
              else if Names(x, k) then |kinds| else |kinds| + 1
  {
    var all := kinds + [x];
    var n := FirstEntry(kinds, k);
    if n < |kinds| {
      assert all[n] == kinds[n];
    } else {
      assert forall j :: 0 <= j < |kinds| ==> all[j] == kinds[j];
      assert all[|kinds|] == x;
    }
  }

  /**
   * What the parse produces, stated against the lines: a test name is a key exactly
   * when some line is accepted with it, and its value is the status of the first such line.
   */
  lemma {:induction false} ParsedMapping(kinds: seq<LineKind>)
    ensures var m := Fold(kinds).mapping;
            && (forall k :: k in m.results <==> FirstEntry(kinds, k) < |kinds|)
            && (forall k :: k in m.results ==> m.results[k] == kinds[FirstEntry(kinds, k)].record.status)
  {
    if kinds != [] {
      var n := |kinds| - 1;
      var pre, x := kinds[..n], kinds[n];
      assert kinds == pre + [x];
      ParsedMapping(pre);
      var m0 := Fold(pre).mapping;
      var m := Fold(kinds).mapping;
      assert Fold(kinds) == Step(Fold(pre), |kinds|, x);
      var added := x.Entry? && x.record.testName !in m0.results;
      assert m.results == if added then m0.results[x.record.testName := x.record.status] else m0.results;
      forall k
        ensures k in m.results <==> FirstEntry(kinds, k) < |kinds|
        ensures k in m.results ==> m.results[k] == kinds[FirstEntry(kinds, k)].record.status
      {
        FirstEntryAppend(pre, x, k);
        if k in m0.results {
          var i := FirstEntry(pre, k);
          assert kinds[i] == pre[i];
        } else if Names(x, k) {
          assert m.results == m0.results[k := x.record.status];
        } else {
          assert k !in m.results;
        }
      }
    }
  }

  /**
   * The dictionary's insertion order: it holds exactly the keys, and is ordered by the
   * line on which each test name is first accepted (so no key is listed twice).
   */
  lemma {:induction false} ParsedOrder(kinds: seq<LineKind>)
    ensures var m := Fold(kinds).mapping;
            && (forall k :: k in m.results <==> k in m.order)
            && (forall i, j :: 0 <= i < j < |m.order| ==>
                  FirstEntry(kinds, m.order[i]) < FirstEntry(kinds, m.order[j]))
  {
    if kinds != [] {
      var n := |kinds| - 1;
      var pre, x := kinds[..n], kinds[n];
      assert kinds == pre + [x];
      ParsedOrder(pre);
      ParsedMapping(pre);
      var m0 := Fold(pre).mapping;
      var m := Fold(kinds).mapping;
      assert Fold(kinds) == Step(Fold(pre), |kinds|, x);
      if x.Entry? && x.record.testName !in m0.results {
        var name := x.record.testName;
        assert m.order == m0.order + [name];
        assert m.results == m0.results[name := x.record.status];
        forall k ensures k in m.results <==> k in m.order {
          assert k in m.order <==> k in m0.order || k == name;
        }
        forall i, j | 0 <= i < j < |m.order|
          ensures FirstEntry(kinds, m.order[i]) < FirstEntry(kinds, m.order[j])
        {
          FirstEntryAppend(pre, x, m.order[i]);
          FirstEntryAppend(pre, x, m.order[j]);
          assert m.order[i] == m0.order[i] && m0.order[i] in m0.results;
          if j < |m0.order| {
            assert m.order[j] == m0.order[j] && m0.order[j] in m0.results;
          } else {
            assert m.order[j] == name;
          }
        }
      } else {
        assert m == m0;
        forall i, j | 0 <= i < j < |m.order|
          ensures FirstEntry(kinds, m.order[i]) < FirstEntry(kinds, m.order[j])
        {
          FirstEntryAppend(pre, x, m.order[i]);
          FirstEntryAppend(pre, x, m.order[j]);
          assert m0.order[i] in m0.results && m0.order[j] in m0.results;
        }
      }
    }
  }

  /** Accepting distributes over concatenation. */
  lemma {:induction false} AcceptedAppend(a: seq<LineKind>, b: seq<LineKind>)
    ensures Accepted(a + b) == Accepted(a) + Accepted(b)
  {
    if b != [] {
      var n := |b| - 1;
      AcceptedAppend(a, b[..n]);
      assert (a + b)[..|a + b| - 1] == a + b[..n];
    } else {
      assert a + b == a;
    }
  }

  /** The dictionary the parser builds depends only on the accepted records, in order. */
  lemma {:induction false} FoldTabulatesAccepted(kinds: seq<LineKind>)
    ensures Fold(kinds).mapping == Tabulate(Accepted(kinds))
  {
    if kinds != [] {
      var n := |kinds| - 1;
      FoldTabulatesAccepted(kinds[..n]);
      var acc := Accepted(kinds[..n]);
      if kinds[n].Entry? {
        assert (acc + [kinds[n].record])[..|acc|] == acc;
      } else {
        assert acc + [] == acc;
      }
    }
  }

  /**
   * A line that is not accepted, wherever it stands, leaves the dictionary as it would
   * be without it: it is skipped and the lines after it are parsed as before.
   */
  lemma SkippedLineInvariance(a: seq<string>, x: string, b: seq<string>, delimiter: char)
    requires !Classify(x, delimiter).Entry?
    ensures ParseLines(a + [x] + b, delimiter).mapping == ParseLines(a + b, delimiter).mapping
  {
    var ka, kx, kb := Kinds(a, delimiter), Kinds([x], delimiter), Kinds(b, delimiter);
    KindsAppend(a + [x], b, delimiter);
    KindsAppend(a, [x], delimiter);
    KindsAppend(a, b, delimiter);
    FoldTabulatesAccepted(ka + kx + kb);
    FoldTabulatesAccepted(ka + kb);
    AcceptedAppend(ka + kx, kb);
    AcceptedAppend(ka, kx);
    AcceptedAppend(ka, kb);
    assert Accepted(kx) == [] by {
      assert kx[..0] == [];
    }
    assert Accepted(ka + kx + kb) == Accepted(ka + kb) by {
      assert Accepted(ka + kx) == Accepted(ka) + [];
    }
  }

  /** Blank lines and lines starting with '#' can be inserted anywhere without changing the dictionary. */
  lemma BlankAndCommentLinesIgnored(a: seq<string>, x: string, b: seq<string>, delimiter: char)
    requires |x| == 0 || x[0] == '#'
    ensures ParseLines(a + [x] + b, delimiter).mapping == ParseLines(a + b, delimiter).mapping
    ensures ParseLines(a + [x], delimiter) == ParseLines(a, delimiter)
  {
    SkippedLineInvariance(a, x, b, delimiter);
    ParseLinesSnoc(a, x, delimiter);
  }

  /**
   * A line (neither blank nor a comment) whose delimiter count is not one, i.e. whose
   * split does not give two fields, is logged as malformed with its field count, and
   * parsing carries on with the following lines as if it were not there.
   */
  lemma MalformedLineTolerated(a: seq<string>, x: string, b: seq<string>, delimiter: char)
    requires |x| > 0 && x[0] != '#' && Count(x, delimiter) != 1
    ensures ParseLines(a + [x], delimiter) ==
              ParseLines(a, delimiter).(anomalies := ParseLines(a, delimiter).anomalies
                                                     + [MalformedLine(|a| + 1, Count(x, delimiter) + 1)])
    ensures ParseLines(a + [x] + b, delimiter).mapping == ParseLines(a + b, delimiter).mapping
  {
    ClassifyCases(x, delimiter);
    SkippedLineInvariance(a, x, b, delimiter);
    ParseLinesSnoc(a, x, delimiter);
  }

  /** Records whose name is already present add nothing, wherever the later records are. */
  lemma {:induction false} TabulateDuplicate(a: seq<Record>, r: Record, b: seq<Record>)
    requires r.testName in Tabulate(a).results
    ensures Tabulate(a + [r] + b) == Tabulate(a + b)
  {
    if b == [] {
      assert (a + [r])[..|a|] == a;
      assert a + [r] + b == a + [r] && a + b == a;
    } else {
      var n := |b| - 1;
      TabulateDuplicate(a, r, b[..n]);
      assert (a + [r] + b)[..|a + [r] + b| - 1] == a + [r] + b[..n];
      assert (a + b)[..|a + b| - 1] == a + b[..n];
    }
  }

  /**
   * Duplicate test name: a later accepted line whose name is already a key leaves the
   * dictionary unchanged (first occurrence wins), is logged as an error for its line
   * number, and does not stop the lines after it from being parsed.
   */
  lemma DuplicateKeepsFirst(a: seq<string>, x: string, b: seq<string>, delimiter: char)
    requires Classify(x, delimiter).Entry?
    requires Classify(x, delimiter).record.testName in ParseLines(a, delimiter).mapping.results
    ensures ParseLines(a + [x], delimiter) ==
              ParseLines(a, delimiter).(anomalies := ParseLines(a, delimiter).anomalies
                                        + [DuplicateTestName(|a| + 1, Classify(x, delimiter).record.testName)])
    ensures ParseLines(a + [x] + b, delimiter).mapping == ParseLines(a + b, delimiter).mapping
  {
    ParseLinesSnoc(a, x, delimiter);
    StepDuplicate(ParseLines(a, delimiter), |a| + 1, Classify(x, delimiter));
    var r := Classify(x, delimiter).record;
    var ka, kx, kb := Kinds(a, delimiter), Kinds([x], delimiter), Kinds(b, delimiter);
    KindsAppend(a + [x], b, delimiter);
    KindsAppend(a, [x], delimiter);
    KindsAppend(a, b, delimiter);
    FoldTabulatesAccepted(ka);
    FoldTabulatesAccepted(ka + kx + kb);
    FoldTabulatesAccepted(ka + kb);
    AcceptedAppend(ka + kx, kb);
    AcceptedAppend(ka, kx);
    AcceptedAppend(ka, kb);
    assert Accepted(kx) == [r] by {
      assert kx[..0] == [];
    }
    TabulateDuplicate(Accepted(ka), r, Accepted(kb));
  }

  /** A step for an accepted line whose name is already a key only logs the duplicate. */
  lemma StepDuplicate(p: Parsed, lineNo: nat, kind: LineKind)
    requires kind.Entry? && kind.record.testName in p.mapping.results
    ensures Step(p, lineNo, kind) == p.(anomalies := p.anomalies + [DuplicateTestName(lineNo, kind.record.testName)])
  {
  }

  /** A line of two delimiter-free fields without white space at their ends is a record of exactly those fields. */
  lemma ClassifyRecordLine(line: string, name: string, status: string, delimiter: char)
    requires line == name + [delimiter] + status
    requires delimiter !in name && delimiter !in status && delimiter != '#'
    requires name != [] && name[0] != '#' && !IsWhiteSpace(name[0]) && !IsWhiteSpace(name[|name| - 1])
    requires status == [] || (!IsWhiteSpace(status[0]) && !IsWhiteSpace(status[|status| - 1]))
    ensures Classify(line, delimiter) == Entry(Record(name, status))
  {
    assert line[0] == name[0];
    ClassifyTwoFields(name, status, delimiter);
    TrimNoOp(name);
    TrimNoOp(status);
  }

  /** A field without the delimiter and without white space at its ends. */
  predicate PlainField(f: string, delimiter: char)
  {
    delimiter !in f && (f == [] || (!IsWhiteSpace(f[0]) && !IsWhiteSpace(f[|f| - 1])))
  }

  /**
   * The consequence of the discarded `Trim()`, first half: a non-empty line of white
   * space, which trimming would empty, is not skipped as blank but logged as malformed
   * with one field.
   */
  lemma WhiteSpaceLineIsMalformed(line: string, delimiter: char)
    requires line != [] && AllWhiteSpace(line)
    requires !IsWhiteSpace(delimiter)
    ensures Trim(line) == []
    ensures Classify(line, delimiter) == Malformed(1)
  {
    ClassifyCases(line, delimiter);
    assert line[0] != '#';
    assert delimiter !in line;
  }

  /**
   * With a white-space delimiter (a tab, say), a white-space line holding the delimiter
   * exactly once is accepted as the record of an empty name and an empty status, and
   * with any other number of delimiters it is malformed.
   */
  lemma WhiteSpaceDelimiterLine(line: string, delimiter: char)
    requires line != [] && AllWhiteSpace(line)
    requires IsWhiteSpace(delimiter)
    ensures Count(line, delimiter) == 1 ==> Classify(line, delimiter) == Entry(Record([], []))
    ensures Count(line, delimiter) != 1 ==> Classify(line, delimiter) == Malformed(Count(line, delimiter) + 1)
  {
    ClassifyCases(line, delimiter);
    assert line[0] != '#';
    if Count(line, delimiter) == 1 {
      var i :| 0 <= i < |line| && line[i] == delimiter
               && delimiter !in line[..i] && delimiter !in line[i + 1..]
               && Classify(line, delimiter).record == Record(Trim(line[..i]), Trim(line[i + 1..]));
      TrimAllWhiteSpace(line[..i]);
      TrimAllWhiteSpace(line[i + 1..]);
    }
  }

  /**
   * The consequence of the discarded `Trim()`, second half: a '#' line indented by
   * white space is not a comment; it is accepted as a record whose test name starts with '#'.
   */
  lemma IndentedHashIsRecord(indent: string, name: string, status: string, delimiter: char)
    requires indent != [] && AllWhiteSpace(indent)
    requires name != [] && name[0] == '#' && PlainField(name, delimiter) && PlainField(status, delimiter)
    requires !IsWhiteSpace(delimiter)
    ensures Classify(indent + name + [delimiter] + status, delimiter) == Entry(Record(name, status))
  {
    var padded := indent + name;
    assert delimiter !in padded by {
      forall k | 0 <= k < |padded| ensures padded[k] != delimiter {
        if k >= |indent| { assert padded[k] == name[k - |indent|]; }
      }
    }
    assert padded[0] == indent[0] && indent[0] != '#';
    assert (padded + [delimiter] + status)[0] == padded[0];
    ClassifyTwoFields(padded, status, delimiter);
    TrimPadded(indent, name, "");
    assert indent + name + "" == padded;
    TrimNoOp(status);
  }

  /**
   * A worked file for any two distinct test names: two results, a blank line, a
   * comment and a repeat of the first test with another status give two entries in
   * that order, the first status kept, and one error logged for line 5.
   */
  lemma SampleFile(test1: string, test2: string, passed: string, failed: string, blocked: string,
                   comment: string, delimiter: char)
    requires test1 != test2 && delimiter != '#' && comment != [] && comment[0] == '#'
    requires test1 != [] && test1[0] != '#' && test2 != [] && test2[0] != '#'
    requires PlainField(test1, delimiter) && PlainField(test2, delimiter)
    requires PlainField(passed, delimiter) && PlainField(failed, delimiter) && PlainField(blocked, delimiter)
    ensures ParseLines([test1 + [delimiter] + passed, test2 + [delimiter] + failed, "", comment,
                        test1 + [delimiter] + blocked], delimiter)
            == Parsed(Mapping(map[test1 := passed, test2 := failed], [test1, test2]),
                      [DuplicateTestName(5, test1)])
  {
    var lines := [test1 + [delimiter] + passed, test2 + [delimiter] + failed, "", comment,
                  test1 + [delimiter] + blocked];
    SampleKinds(lines, test1, test2, passed, failed, blocked, delimiter);
    SampleFold(Kinds(lines, delimiter), Record(test1, passed), Record(test2, failed), blocked);
  }

  lemma SampleKinds(lines: seq<string>, test1: string, test2: string, passed: string, failed: string,
                    blocked: string, delimiter: char)
    requires delimiter != '#' && test1 != [] && test1[0] != '#' && test2 != [] && test2[0] != '#'
    requires PlainField(test1, delimiter) && PlainField(test2, delimiter)
    requires PlainField(passed, delimiter) && PlainField(failed, delimiter) && PlainField(blocked, delimiter)
    requires |lines| == 5 && lines[0] == test1 + [delimiter] + passed && lines[1] == test2 + [delimiter] + failed
    requires lines[2] == [] && lines[3] != [] && lines[3][0] == '#' && lines[4] == test1 + [delimiter] + blocked
    ensures var ks := Kinds(lines, delimiter);
            && |ks| == 5 && ks[0] == Entry(Record(test1, passed)) && ks[1] == Entry(Record(test2, failed))
            && ks[2] == Blank && ks[3] == Comment && ks[4] == Entry(Record(test1, blocked))
  {
    ClassifyRecordLine(lines[0], test1, passed, delimiter);
    ClassifyRecordLine(lines[1], test2, failed, delimiter);
    ClassifyRecordLine(lines[4], test1, blocked, delimiter);
  }

  lemma SampleFold(kinds: seq<LineKind>, p1: Record, p2: Record, blocked: string)
    requires p1.testName != p2.testName
    requires |kinds| == 5 && kinds[0] == Entry(p1) && kinds[1] == Entry(p2) && kinds[2] == Blank
    requires kinds[3] == Comment && kinds[4] == Entry(Record(p1.testName, blocked))
    ensures Fold(kinds)
            == Parsed(Mapping(map[p1.testName := p1.status, p2.testName := p2.status], [p1.testName, p2.testName]),
                      [DuplicateTestName(5, p1.testName)])
  {
    assert kinds[..1][..0] == [] && kinds[..2][..1] == kinds[..1] && kinds[..3][..2] == kinds[..2];
    assert kinds[..4][..3] == kinds[..3] && kinds[..4] == kinds[..|kinds| - 1];
    var two := Parsed(Mapping(map[p1.testName := p1.status, p2.testName := p2.status], [p1.testName, p2.testName]), []);
    assert Fold(kinds[..1]) == Parsed(Mapping(map[p1.testName := p1.status], [p1.testName]), []);
    assert Fold(kinds[..2]) == two;
    assert Fold(kinds[..4]) == two;
  }
}

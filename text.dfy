/**
 * The pieces of the .NET string and path API that the result ingestion relies on:
 * `String.Trim()`, `String.Split(char)` and `Path.GetFileNameWithoutExtension`,
 * written out so that their edge cases are part of the model.
 */
module Text {

  /** `Char.IsWhiteSpace` as of Unicode 6.3 (no U+180E): the characters `String.Trim()` removes. */
  predicate IsWhiteSpace(c: char)
  {
    || c == ' '
    || ('\t' <= c <= '\r')
    || c == '\U{0085}' || c == '\U{00A0}' || c == '\U{1680}'
    || ('\U{2000}' <= c <= '\U{200A}')
    || c == '\U{2028}' || c == '\U{2029}' || c == '\U{202F}' || c == '\U{205F}' || c == '\U{3000}'
  }

  /** Every character of `s` is white space. */
  predicate AllWhiteSpace(s: string)
  {
    forall k :: 0 <= k < |s| ==> IsWhiteSpace(s[k])
  }

  /** Index of the first character at or after `i` that is not white space, or `|s|` when there is none. */
  function SkipWhiteSpace(s: string, i: nat): (n: nat)
    requires i <= |s|
    ensures i <= n <= |s|
    ensures forall k :: i <= k < n ==> IsWhiteSpace(s[k])
    ensures n < |s| ==> !IsWhiteSpace(s[n])
    decreases |s| - i
  {
    if i < |s| && IsWhiteSpace(s[i]) then SkipWhiteSpace(s, i + 1) else i
  }

  /** Index just after the last character before `j`, and from `lo` on, that is not white space, or `lo` when there is none. */
  function SkipWhiteSpaceBack(s: string, lo: nat, j: nat): (n: nat)
    requires lo <= j <= |s|
    ensures lo <= n <= j
    ensures forall k :: n <= k < j ==> IsWhiteSpace(s[k])
    ensures n > lo ==> !IsWhiteSpace(s[n - 1])
  {
    if j > lo && IsWhiteSpace(s[j - 1]) then SkipWhiteSpaceBack(s, lo, j - 1) else j
  }

  /**
   * `String.Trim()`: the result is a contiguous piece of `s` that neither starts nor
   * ends with white space, and everything cut away on either side is white space.
   */
  function Trim(s: string): (r: string)
    ensures r == [] || (!IsWhiteSpace(r[0]) && !IsWhiteSpace(r[|r| - 1]))
    ensures var i := SkipWhiteSpace(s, 0);
            && i + |r| <= |s|
            && r == s[i..i + |r|]
            && (forall k :: 0 <= k < i ==> IsWhiteSpace(s[k]))
            && (forall k :: i + |r| <= k < |s| ==> IsWhiteSpace(s[k]))
  {
    var i := SkipWhiteSpace(s, 0);
    s[i..SkipWhiteSpaceBack(s, i, |s|)]
  }

  /** Trimming a string that has no white space at either end leaves it as it is. */
  lemma TrimNoOp(s: string)
    requires s == [] || (!IsWhiteSpace(s[0]) && !IsWhiteSpace(s[|s| - 1]))
    ensures Trim(s) == s
  {
  }

  /** A string of white space trims to nothing. */
  lemma TrimAllWhiteSpace(s: string)
    requires AllWhiteSpace(s)
    ensures Trim(s) == []
  {
    assert SkipWhiteSpace(s, 0) == |s|;
  }

  /** Trimming removes exactly the white space around a string that has none at its ends. */
  lemma TrimPadded(left: string, s: string, right: string)
    requires AllWhiteSpace(left) && AllWhiteSpace(right)
    requires s == [] || (!IsWhiteSpace(s[0]) && !IsWhiteSpace(s[|s| - 1]))
    ensures Trim(left + s + right) == s
  {
    if s == [] {
      var w := left + s + right;
      assert AllWhiteSpace(w) by {
        assert forall k :: 0 <= k < |w| ==> w[k] == if k < |left| then left[k] else right[k - |left|];
      }
      TrimAllWhiteSpace(w);
      return;
    }
    var w := left + s + right;
    var a, b := |left|, |left| + |s|;
    assert forall k :: 0 <= k < a ==> w[k] == left[k];
    assert s != [] ==> w[a] == s[0];
    assert SkipWhiteSpace(w, 0) == a;
    assert forall k :: b <= k < |w| ==> w[k] == right[k - b];
    assert s != [] ==> w[b - 1] == s[|s| - 1];
    assert SkipWhiteSpaceBack(w, a, |w|) == b;
    assert w[a..b] == s;
  }

  /** Number of occurrences of `d` in `s`. */
  function Count(s: string, d: char): (n: nat)
    ensures n <= |s|
    ensures n == 0 <==> d !in s
  {
    if s == [] then 0 else (if s[0] == d then 1 else 0) + Count(s[1..], d)
  }

  /**
   * `String.Split(char)` with default options: every occurrence of `d` ends a field,
   * empty fields are kept, so there is always one more field than there are delimiters.
   */
  function Split(s: string, d: char): (r: seq<string>)
    ensures |r| == Count(s, d) + 1
    ensures forall i :: 0 <= i < |r| ==> d !in r[i]
  {
    if s == [] then [[]]
    else
      var rest := Split(s[1..], d);
      if s[0] == d then [[]] + rest else [[s[0]] + rest[0]] + rest[1..]
  }

  /** Puts fields back together with `d` between them; the inverse of `Split`. */
  function Join(fields: seq<string>, d: char): (s: string)
    requires |fields| >= 1
    ensures |s| >= |fields| - 1
  {
    if |fields| == 1 then fields[0] else fields[0] + [d] + Join(fields[1..], d)
  }

  /** Splitting loses nothing: joining the fields again gives back the line. */
  lemma {:induction false} JoinSplit(s: string, d: char)
    ensures Join(Split(s, d), d) == s
  {
    if s != [] {
      JoinSplit(s[1..], d);
      var rest := Split(s[1..], d);
      if s[0] == d {
        assert Split(s, d)[1..] == rest;
      } else {
        JoinConsChar(s[0], rest, d);
        assert s == [s[0]] + s[1..];
      }
    }
  }

  /** A character put in front of the first field comes out in front of the joined line. */
  lemma JoinConsChar(c: char, fields: seq<string>, d: char)
    requires |fields| >= 1
    ensures Join([[c] + fields[0]] + fields[1..], d) == [c] + Join(fields, d)
  {
    var g := [[c] + fields[0]] + fields[1..];
    assert g[1..] == fields[1..];
  }

  /** Fields free of the delimiter survive a join followed by a split unchanged. */
  lemma {:induction false} SplitJoin(fields: seq<string>, d: char)
    requires |fields| >= 1
    requires forall i :: 0 <= i < |fields| ==> d !in fields[i]
    ensures Split(Join(fields, d), d) == fields
  {
    if |fields| == 1 {
      SplitNoDelimiter(fields[0], d);
    } else {
      SplitJoin(fields[1..], d);
      SplitPrefix(fields[0], Join(fields[1..], d), d);
      assert [fields[0]] + fields[1..] == fields;
    }
  }

  /** A string without the delimiter is one field. */
  lemma {:induction false} SplitNoDelimiter(s: string, d: char)
    requires d !in s
    ensures Split(s, d) == [s]
  {
    if s != [] {
      SplitNoDelimiter(s[1..], d);
      assert [s[0]] + s[1..] == s;
    }
  }

  /** A delimiter-free field followed by the delimiter adds that field in front. */
  lemma {:induction false} SplitPrefix(f: string, t: string, d: char)
    requires d !in f
    ensures Split(f + [d] + t, d) == [f] + Split(t, d)
  {
    if f == [] {
      assert (f + [d] + t)[1..] == t;
    } else {
      var rest := f[1..] + [d] + t;
      assert f + [d] + t == [f[0]] + rest;
      SplitPrefix(f[1..], t, d);
      SplitCons(f[0], rest, d);
      assert [f[0]] + f[1..] == f;
    }
  }

  /** A first character other than the delimiter joins the first field of the rest. */
  lemma SplitCons(c: char, s: string, d: char)
    requires c != d
    ensures Split([c] + s, d) == [[c] + Split(s, d)[0]] + Split(s, d)[1..]
  {
    assert ([c] + s)[1..] == s;
  }

  /** `EndsWith`: `suffix` is the tail of `s`. */
  predicate EndsWith(s: string, suffix: string)
  {
    |suffix| <= |s| && s[|s| - |suffix|..] == suffix
  }

  /** Directory and volume separators that `Path.GetFileName` recognises on Windows. */
  predicate IsSeparator(c: char)
  {
    c == '\\' || c == '/' || c == ':'
  }

  /**
   * `Path.GetFileName`: the part of `path` after its last separator, or all of
   * `path` when it has none.
   */
  function FileName(path: string): (r: string)
    ensures |r| <= |path| && r == path[|path| - |r|..]
    ensures forall k :: 0 <= k < |r| ==> !IsSeparator(r[k])
    ensures |r| < |path| ==> IsSeparator(path[|path| - |r| - 1])
  {
    if path == [] || IsSeparator(path[|path| - 1]) then []
    else FileName(path[..|path| - 1]) + [path[|path| - 1]]
  }

  /**
   * Cutting off an extension: everything from the last '.' onward goes; a name without
   * a '.' is kept whole.
   */
  function StripExtension(name: string): (r: string)
    ensures |r| <= |name| && r == name[..|r|]
    ensures '.' !in name ==> r == name
    ensures '.' in name ==> |r| < |name| && name[|r|] == '.' && '.' !in name[|r| + 1..]
  {
    if name == [] then []
    else if name[|name| - 1] == '.' then name[..|name| - 1]
    else
      var r := StripExtension(name[..|name| - 1]);
      if '.' in name[..|name| - 1] then r else name
  }

  /** `Path.GetFileNameWithoutExtension`. */
  function FileNameWithoutExtension(path: string): (r: string)
  {
    StripExtension(FileName(path))
  }
}

/** The test-set lookup name for a result file (`getTestSetName`). */
module TestSetNames {
  import opened Text
  import opened Settings

  /** The configured override when there is one, else the file's name without directory and extension. */
  function GetTestSetName(cfg: Config, testResultsFile: string): string
  {
    if cfg.qcTestSetName != "" then cfg.qcTestSetName
    else FileNameWithoutExtension(testResultsFile)
  }

  /**
   * A non-empty override is returned for every file. Without one the name is the file
   * name with its extension cut off: a separator-free prefix of what follows the last
   * separator of the path.
   */
  lemma TestSetNameCases(cfg: Config, file: string)
    ensures cfg.qcTestSetName != "" ==> GetTestSetName(cfg, file) == cfg.qcTestSetName
    ensures cfg.qcTestSetName == "" ==>
              var name := FileName(file);
              var r := GetTestSetName(cfg, file);
              && r == name[..|r|]
              && (forall k :: 0 <= k < |r| ==> !IsSeparator(r[k]))
              && ('.' !in name ==> r == name)
              && ('.' in name ==> name[|r|] == '.' && '.' !in name[|r| + 1..])
  {
  }

  /** `Path.GetFileName` of a path ending in a separator and a separator-free name is that name. */
  lemma {:induction false} FileNameAfterSeparator(dir: string, sep: char, name: string)
    requires IsSeparator(sep)
    requires forall k :: 0 <= k < |name| ==> !IsSeparator(name[k])
    ensures FileName(dir + [sep] + name) == name
  {
    var path := dir + [sep] + name;
    if name == [] {
      assert path[|path| - 1] == sep;
    } else {
      var n := |name| - 1;
      FileNameAfterSeparator(dir, sep, name[..n]);
      assert path[..|path| - 1] == dir + [sep] + name[..n];
      assert path[|path| - 1] == name[n];
      assert name[..n] + [name[n]] == name;
    }
  }

  /** The extension starts at the last dot of a name. */
  lemma StripExtensionAtLastDot(name: string, i: nat)
    requires i < |name| && name[i] == '.' && '.' !in name[i + 1..]
    ensures StripExtension(name) == name[..i]
  {
    assert '.' in name by { assert name[i] == '.'; }
  }

  /**
   * Without an override, a file `dir/base.ext` (base and extension free of separators
   * and dots) is looked up as `base`: `/tmp/nightly_run.csv` gives `nightly_run`.
   */
  lemma DerivedName(cfg: Config, dir: string, sep: char, name: string, base: string, ext: string)
    requires cfg.qcTestSetName == "" && IsSeparator(sep) && name == base + ['.'] + ext
    requires forall k :: 0 <= k < |base| ==> !IsSeparator(base[k]) && base[k] != '.'
    requires forall k :: 0 <= k < |ext| ==> !IsSeparator(ext[k]) && ext[k] != '.'
    ensures GetTestSetName(cfg, dir + [sep] + name) == base
  {
    DottedNameHasNoSeparator(base, ext);
    FileNameAfterSeparator(dir, sep, name);
    assert StripExtension(name) == base by {
      assert name[|base| + 1..] == ext;
      StripExtensionAtLastDot(name, |base|);
      assert name[..|base|] == base;
    }
  }

  lemma DottedNameHasNoSeparator(base: string, ext: string)
    requires forall k :: 0 <= k < |base| ==> !IsSeparator(base[k])
    requires forall k :: 0 <= k < |ext| ==> !IsSeparator(ext[k])
    ensures forall k :: 0 <= k < |base| + 1 + |ext| ==> !IsSeparator((base + ['.'] + ext)[k])
  {
    var name := base + ['.'] + ext;
    forall k | 0 <= k < |name| ensures !IsSeparator(name[k]) {
      if k < |base| {
        assert name[k] == base[k];
      } else if k > |base| {
        assert name[k] == ext[k - |base| - 1];
      }
    }
  }
}

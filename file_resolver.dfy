/**
 * Which result files a run processes (`getTestResultsFiles`): the explicit file if one
 * is configured, otherwise the results path (every `*.csv` file when it is a directory,
 * the path itself when it is not), otherwise nothing.
 *
 * The file system is a snapshot passed in: which paths are directories and what they
 * list, and which paths are files and what lines they hold.
 */
module FileResolver {
  import opened Wrappers
  import opened Text
  import opened Settings

  datatype FileSystem = FileSystem(
    directories: map<string, seq<string>>, // directory -> full paths of its files, in enumeration order
    files: map<string, seq<string>>        // file -> its lines, as `File.ReadAllLines` returns them
  )

  /** The exception .NET raises when a path to read or inspect does not exist. */
  datatype IOError = PathNotFound(path: string)

  /** Matches the pattern `*.csv`. */
  predicate IsCsv(path: string)
  {
    EndsWith(path, ".csv")
  }

  /** `Directory.GetFiles(dir, "*.csv")` over a listing: the `.csv` entries, in listing order. */
  function CsvFiles(listing: seq<string>): (r: seq<string>)
    ensures |r| <= |listing|
    ensures forall f :: f in r <==> f in listing && IsCsv(f)
  {
    if listing == [] then []
    else
      var last := listing[|listing| - 1];
      CsvFiles(listing[..|listing| - 1]) + (if IsCsv(last) then [last] else [])
  }

  /**
   * `getTestResultsFiles`. `File.GetAttributes` throws for a results path that does not
   * exist; the explicit file is not checked here.
   */
  function GetTestResultsFiles(cfg: Config, fs: FileSystem): Result<seq<string>, IOError>
  {
    if cfg.testResultsFile != "" then Success([cfg.testResultsFile])
    else if cfg.testResultsPath != "" then
      var path := cfg.testResultsPath;
      if path in fs.directories then Success(CsvFiles(fs.directories[path]))
      else if path in fs.files then Success([path])
      else Failure(PathNotFound(path))
    else Success([])
  }

  /**
   * The cases of file resolution: an explicit file wins whatever the results path is;
   * a directory gives exactly its `.csv` entries; another existing path gives itself; a
   * missing path fails; with neither setting there is nothing to do.
   */
  lemma ResolutionCases(cfg: Config, fs: FileSystem)
    ensures cfg.testResultsFile != "" ==> GetTestResultsFiles(cfg, fs) == Success([cfg.testResultsFile])
    ensures cfg.testResultsFile == "" && cfg.testResultsPath == "" ==> GetTestResultsFiles(cfg, fs) == Success([])
    ensures cfg.testResultsFile == "" && cfg.testResultsPath != "" ==>
              var path := cfg.testResultsPath;
              && (path in fs.directories ==>
                    && GetTestResultsFiles(cfg, fs).Success?
                    && (forall f :: f in GetTestResultsFiles(cfg, fs).value <==>
                                      f in fs.directories[path] && IsCsv(f)))
              && (path !in fs.directories && path in fs.files ==> GetTestResultsFiles(cfg, fs) == Success([path]))
              && (path !in fs.directories && path !in fs.files ==>
                    GetTestResultsFiles(cfg, fs) == Failure(PathNotFound(path)))
  {
  }

  /**
   * A directory listing two `.csv` files and one other file resolves to the two `.csv`
   * files, in listing order.
   */
  lemma DirectoryOfThree(a: string, b: string, c: string)
    requires IsCsv(a) && IsCsv(b) && !IsCsv(c)
    ensures CsvFiles([a, b, c]) == [a, b]
  {
    assert [a, b, c][..2] == [a, b];
    assert [a, b][..1] == [a];
    assert [a][..0] == [];
  }
}

/**
 * The configuration the program reads once at start-up from its application settings.
 * A setting that is missing (null in the original) is the empty string here. Where a
 * setting is tested with `String.IsNullOrEmpty` the two behave alike; `qcPath` and
 * `qcTestSetName` are also handed to the repository client unchecked, and there the
 * original passes null where this model passes the empty string.
 */
module Settings {

  datatype Config = Config(
    qcPath: string,           // folder of the repository under which test sets are looked up
    qcTestSetName: string,    // optional test-set name override
    testResultsFile: string,  // optional explicit result file
    testResultsPath: string,  // optional directory of result files, or a single file
    delimiter: char           // first character of the "delimiter" setting, taken to lie in the BMP
  )
}

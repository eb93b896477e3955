/** The outcome record of the content-integrity gate. */
module ContentResults {
  datatype Result = Result(
    denylistClear: bool, blastRadiusConsistent: bool, staticChecksPass: bool,
    denylistHits: seq<string>, undeclaredPaths: seq<string>, staticFailures: seq<string>)
  {
    predicate Eligible() {
      denylistClear && blastRadiusConsistent && staticChecksPass
    }
  }
}

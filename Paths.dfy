/** The trailing-separator normalisation shared by `setBaseURL` and `setPath`. */
module Paths {

  /** True when `s` is non-empty and its last character is `/`. */
  predicate EndsWithSlash(s: string) {
    s != "" && s[|s| - 1] == '/'
  }

  /**
   * The value stored by `setBaseURL(value)` and `setPath(value)`: a non-empty
   * value that does not already end in `/` gets one appended; every other value
   * is kept as it is.
   */
  function NormalizeDir(value: string): (r: string)
    ensures r == "" <==> value == ""
    ensures r == "" || EndsWithSlash(r)
    ensures value <= r && |r| <= |value| + 1
    ensures EndsWithSlash(value) ==> r == value
  {
    if value != "" && value[|value| - 1] != '/' then value + "/" else value
  }

  /** Normalising an already normalised value changes nothing: calling either setter twice equals calling it once. */
  lemma NormalizeDirIdempotent(value: string)
    ensures NormalizeDir(NormalizeDir(value)) == NormalizeDir(value)
  {
  }

  /** The only character `NormalizeDir` may add is a single trailing `/`. */
  lemma NormalizeDirAppendsSlashOnly(value: string)
    ensures NormalizeDir(value) == value || NormalizeDir(value) == value + "/"
    ensures NormalizeDir(value) == value + "/" <==> value != "" && !EndsWithSlash(value)
  {
  }
}

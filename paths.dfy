/**
 * Object-key normalisation (`normalizePath` in index.ts): every backslash in
 * a path is rewritten to a forward slash, so that keys built on any platform
 * use `/` as the folder separator of the object store.
 */
module Paths {

  /** True when `s` contains no backslash. */
  predicate NoBackslash(s: string) {
    forall i :: 0 <= i < |s| ==> s[i] != '\\'
  }

  /**
   * The global replace of `\` by `/`. The result has the input's length, has
   * a `/` wherever the input had a `\`, and keeps every other character at its
   * position.
   */
  function NormalizePath(p: string): (r: string)
    ensures |r| == |p|
    ensures forall i :: 0 <= i < |p| && p[i] == '\\' ==> r[i] == '/'
    ensures forall i :: 0 <= i < |p| && p[i] != '\\' ==> r[i] == p[i]
    ensures NoBackslash(r)
  {
    if p == [] then []
    else [if p[0] == '\\' then '/' else p[0]] + NormalizePath(p[1..])
  }

  /** Normalising twice is normalising once. */
  lemma NormalizeIdempotent(p: string)
    ensures NormalizePath(NormalizePath(p)) == NormalizePath(p)
  {
  }

  /** A path is left unchanged exactly when it holds no backslash. */
  lemma NormalizeFixesSlashFree(p: string)
    ensures NormalizePath(p) == p <==> NoBackslash(p)
  {
  }

  /** Normalisation works character by character, so it distributes over concatenation. */
  lemma NormalizeConcat(a: string, b: string)
    ensures NormalizePath(a + b) == NormalizePath(a) + NormalizePath(b)
  {
  }

  /**
   * A key built as `folder + "/" + name` and then normalised starts with the
   * normalised folder followed by a slash, whatever the name holds.
   */
  lemma NormalizedKeyInFolder(folder: string, name: string)
    ensures NormalizePath(folder) + "/" <= NormalizePath(folder + "/" + name)
  {
  }
}

/** The few pieces of Python and of the host environment that both tasks rely on:
    an optional value, the outcome of a call the model cannot see inside,
    `str.rstrip` and `os.path.join` (POSIX). */
module Builtins {

  datatype Option<T> = None | Some(value: T)

  /** An exception raised by a collaborator (QGIS, GDAL, the processing framework). */
  datatype Failure = Failure(message: string)

  /** What one external call did: it returned a value whose Python truthiness is
      `truthy` (a valid layer, a non-empty result dictionary), or it raised. */
  datatype Call = Returned(truthy: bool) | Raised(error: Failure)

  /** `s.rstrip(chars)`: drop the longest suffix made only of characters in `chars`. */
  function RStrip(s: string, chars: set<char>): (r: string)
    ensures |r| <= |s| && r == s[..|r|]
    ensures r == [] || r[|r| - 1] !in chars
    ensures forall i :: |r| <= i < |s| ==> s[i] in chars
  {
    if |s| > 0 && s[|s| - 1] in chars then RStrip(s[..|s| - 1], chars) else s
  }

  /** True when `t` occurs somewhere inside `s`. */
  ghost predicate Mentions(s: string, t: string) {
    exists k :: 0 <= k <= |s| && t <= s[k..]
  }

  /** `os.path.join(a, b)` on POSIX: an absolute `b` replaces `a`; otherwise the
      two are joined by exactly one separator unless `a` is empty or already ends in one. */
  function PathJoin(a: string, b: string): (r: string)
    ensures |b| <= |r| && r[|r| - |b|..] == b
    ensures (|b| > 0 && b[0] == '/') || (|a| <= |r| && r[..|a|] == a)
    ensures |b| > 0 && b[0] == '/' ==> r == b
    ensures !(|b| > 0 && b[0] == '/') && (a == [] || a[|a| - 1] == '/') ==> r == a + b
    ensures !(|b| > 0 && b[0] == '/') && a != [] && a[|a| - 1] != '/' ==> r == a + "/" + b
  {
    if |b| > 0 && b[0] == '/' then b
    else if a == [] || a[|a| - 1] == '/' then a + b
    else a + "/" + b
  }
}

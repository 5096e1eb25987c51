/**
 * File-path helpers: the display name a track falls back to when it has no
 * stored title is the base name of its path, i.e. the last path component
 * without its extension.  Both '/' and '\' separate components.
 */
module Paths {

  predicate IsSeparator(c: char) {
    c == '/' || c == '\\'
  }

  /** The last component of `p`: the longest suffix without a separator. */
  function FileName(p: string): (r: string)
    ensures |r| <= |p| && r == p[|p| - |r|..]
    ensures forall i :: 0 <= i < |r| ==> !IsSeparator(r[i])
    ensures |r| < |p| ==> IsSeparator(p[|p| - |r| - 1])
  {
    if |p| == 0 || IsSeparator(p[|p| - 1]) then ""
    else FileName(p[..|p| - 1]) + [p[|p| - 1]]
  }

  /** Index of the last '.' in `n`, or -1 when there is none. */
  function LastDot(n: string): (k: int)
    ensures -1 <= k < |n|
    ensures k >= 0 ==> n[k] == '.'
    ensures forall i :: k < i < |n| ==> n[i] != '.'
  {
    if |n| == 0 then -1
    else if n[|n| - 1] == '.' then |n| - 1
    else LastDot(n[..|n| - 1])
  }

  /** `n` without its extension: the part before its last '.', if it has one. */
  function StripExtension(n: string): (r: string)
    ensures r <= n
    ensures r == n <==> '.' !in n
    ensures '.' in n ==> |r| < |n| && n[|r|] == '.' && '.' !in n[|r| + 1..]
  {
    var k := LastDot(n);
    if k == -1 then
      assert forall i :: 0 <= i < |n| ==> n[i] != '.';
      n
    else
      assert n[k] == '.';
      var rest := n[k + 1..];
      assert forall i :: 0 <= i < |rest| ==> rest[i] == n[k + 1 + i] != '.';
      n[..k]
  }

  /** The file name of `p` without its extension. */
  function BaseName(p: string): (r: string)
    ensures forall i :: 0 <= i < |r| ==> !IsSeparator(r[i])
    ensures r <= FileName(p)
    ensures r == FileName(p) <==> '.' !in FileName(p)
    ensures var f := FileName(p);
            '.' in f ==> |r| < |f| && f[|r|] == '.' && '.' !in f[|r| + 1..]
  {
    var f := FileName(p);
    var r := StripExtension(f);
    PrefixKeepsNoSeparator(r, f);
    r
  }

  /** A prefix of a name without separators has none either. */
  lemma PrefixKeepsNoSeparator(r: string, f: string)
    requires r <= f && forall i :: 0 <= i < |f| ==> !IsSeparator(f[i])
    ensures forall i :: 0 <= i < |r| ==> !IsSeparator(r[i])
  {
    assert forall i :: 0 <= i < |r| ==> r[i] == f[i];
  }
}

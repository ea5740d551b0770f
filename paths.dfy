/** The few `System.IO.Path` and `string` helpers the tool relies on, written
    out for a POSIX file system whose only directory separator is '/'. */
module Paths {
  import opened Wrappers

  const Separator: char := '/'

  /** `string.IsNullOrEmpty`; a null reference is `None`. */
  predicate IsNullOrEmpty(s: Option<string>) {
    s.None? || s.value == ""
  }

  /** `Path.IsPathRooted` on a POSIX system. */
  predicate IsRooted(p: string) {
    |p| > 0 && p[0] == Separator
  }

  predicate IsPrefix(a: string, b: string) {
    |a| <= |b| && b[..|a|] == a
  }

  predicate IsSuffix(a: string, b: string) {
    |a| <= |b| && b[|b| - |a|..] == a
  }

  /** `Path.Combine(a, b)`: an empty side yields the other one, a rooted `b`
      replaces `a`, and otherwise one separator is put between them unless `a`
      already ends with one. */
  function Combine(a: string, b: string): (r: string)
    ensures b == "" ==> r == a
    ensures b != "" && (a == "" || IsRooted(b)) ==> r == b
    ensures a != "" && b != "" && !IsRooted(b) ==>
      IsPrefix(a, r) && IsSuffix(b, r) && |r| > |b| && r[|r| - |b| - 1] == Separator
    ensures a != "" && b != "" && !IsRooted(b) && a[|a| - 1] == Separator ==> r == a + b
    ensures a != "" && b != "" && !IsRooted(b) && a[|a| - 1] != Separator ==> r == a + [Separator] + b
  {
    if b == "" then a
    else if a == "" || IsRooted(b) then b
    else if a[|a| - 1] == Separator then a + b
    else a + [Separator] + b
  }

  /** Position of the last separator in `p`, if there is one. */
  function LastSeparator(p: string): (r: Option<nat>)
    ensures r.Some? ==> r.value < |p| && p[r.value] == Separator
    ensures r.Some? ==> forall k :: r.value < k < |p| ==> p[k] != Separator
    ensures r.None? ==> forall k :: 0 <= k < |p| ==> p[k] != Separator
  {
    if p == [] then None
    else if p[|p| - 1] == Separator then Some(|p| - 1)
    else LastSeparator(p[..|p| - 1])
  }

  /** `Path.GetFileName`: what follows the last separator. */
  function FileName(p: string): (r: string)
    ensures IsSuffix(r, p)
    ensures forall k :: 0 <= k < |r| ==> r[k] != Separator
    ensures r == p || (|r| < |p| && p[|p| - |r| - 1] == Separator)
  {
    match LastSeparator(p)
    case None => p
    case Some(i) => p[i + 1..]
  }

  /** `Path.GetDirectoryName`: what precedes the last separator, the root
      directory when that separator is the first character, and the empty
      string for a bare file name. */
  function DirectoryName(p: string): (r: string)
    ensures r == "" <==> LastSeparator(p).None?
    ensures IsPrefix(r, p)
    ensures |r| > 1 ==> |r| < |p| && p[|r|] == Separator
    ensures forall k :: |r| < k < |p| ==> p[k] != Separator
  {
    match LastSeparator(p)
    case None => ""
    case Some(i) => if i == 0 then [Separator] else p[..i]
  }

  /** A path is its directory name, a separator and its file name; when
      that separator is the first character, the directory name is the root
      directory and the separator is not repeated; a path without a separator
      is all file name, with an empty directory name. */
  lemma SplitAtLastSeparator(p: string)
    ensures LastSeparator(p).None? ==> DirectoryName(p) == "" && FileName(p) == p
    ensures LastSeparator(p).Some? && LastSeparator(p).value > 0 ==> p == DirectoryName(p) + [Separator] + FileName(p)
    ensures LastSeparator(p).Some? && LastSeparator(p).value == 0 ==>
      DirectoryName(p) == [Separator] && p == DirectoryName(p) + FileName(p)
  {
    if LastSeparator(p).Some? {
      var i := LastSeparator(p).value;
      SplitAt(p, i);
    }
  }

  lemma SplitAt(p: string, i: nat)
    requires i < |p| && p[i] == Separator
    ensures p == p[..i] + [Separator] + p[i + 1..]
  {
  }
}

/**
 * The few PHP string primitives the theme's compiler glue relies on:
 * `strpos` (as a substring test), `dirname` and `substr($s, 0, -3)`.
 */
module Strings {
  import opened Wrappers

  /** `needle` occurs in `haystack` starting at offset `i`. */
  predicate OccursAt(haystack: string, needle: string, i: int)
  {
    0 <= i && i + |needle| <= |haystack| && haystack[i..i + |needle|] == needle
  }

  lemma ShiftOccurs(haystack: string, needle: string, i: int)
    requires |haystack| > 0 && i >= 0
    ensures OccursAt(haystack[1..], needle, i) <==> OccursAt(haystack, needle, i + 1)
  {
    if i + 1 + |needle| <= |haystack| {
      assert haystack[1..][i..i + |needle|] == haystack[i + 1..i + 1 + |needle|];
    }
  }

  /**
   * PHP's `strpos`: the offset of the first occurrence of `needle`, or
   * `None` (PHP's `false`) when there is none.
   */
  function StrPos(haystack: string, needle: string): (r: Option<nat>)
    ensures r.Some? ==> OccursAt(haystack, needle, r.value)
    ensures r.Some? ==> forall i :: 0 <= i < r.value ==> !OccursAt(haystack, needle, i)
    ensures r.None? ==> forall i :: !OccursAt(haystack, needle, i)
    decreases |haystack|
  {
    if |haystack| < |needle| then None
    else if haystack[..|needle|] == needle then Some(0)
    else
      assert !OccursAt(haystack, needle, 0);
      assert forall i :: i >= 1 ==> (OccursAt(haystack, needle, i) <==> OccursAt(haystack[1..], needle, i - 1)) by {
        forall i | i >= 1
          ensures OccursAt(haystack, needle, i) <==> OccursAt(haystack[1..], needle, i - 1)
        {
          ShiftOccurs(haystack, needle, i - 1);
        }
      }
      match StrPos(haystack[1..], needle)
      case None => None
      case Some(k) => Some(k + 1)
  }

  /** The index of the last '/' in `s`, if any. */
  function LastSlash(s: string): (r: Option<nat>)
    ensures r.Some? ==> r.value < |s| && s[r.value] == '/'
    ensures r.Some? ==> forall j :: r.value < j < |s| ==> s[j] != '/'
    ensures r.None? ==> forall j :: 0 <= j < |s| ==> s[j] != '/'
  {
    if s == [] then None
    else if s[|s| - 1] == '/' then Some(|s| - 1)
    else LastSlash(s[..|s| - 1])
  }

  function DropTrailingSlashes(s: string): (r: string)
    ensures |r| <= |s| && r == s[..|r|]
    ensures r == [] || r[|r| - 1] != '/'
  {
    if s != [] && s[|s| - 1] == '/' then DropTrailingSlashes(s[..|s| - 1]) else s
  }

  /**
   * PHP's `dirname` on a '/'-separated path: trailing slashes are ignored,
   * the last component is removed, and the slashes that separated it go
   * too; a path without a directory part gives ".", one directly under the
   * root gives "/".
   */
  function Dirname(path: string): string
  {
    if path == [] then ""
    else
      var trimmed := DropTrailingSlashes(path);
      if trimmed == [] then "/"
      else match LastSlash(trimmed)
        case None => "."
        case Some(k) =>
          var parent := DropTrailingSlashes(trimmed[..k]);
          if parent == [] then "/" else parent
  }

  /** The directory of `<dir>/<sub>/<file>` is `<dir>/<sub>`, when neither name holds a '/'. */
  lemma {:induction false} DirnameOfNested(dir: string, sub: string, file: string)
    requires sub != [] && file != []
    requires forall j :: 0 <= j < |sub| ==> sub[j] != '/'
    requires forall j :: 0 <= j < |file| ==> file[j] != '/'
    ensures Dirname(dir + "/" + sub + "/" + file) == dir + "/" + sub
  {
    var path := dir + "/" + sub + "/" + file;
    var k := |dir| + 1 + |sub|;
    assert path[|path| - 1] == file[|file| - 1];
    assert DropTrailingSlashes(path) == path;
    assert path[k] == '/';
    var r := LastSlash(path);
    assert r.Some?;
    assert r.value >= k;
    assert forall j :: k < j < |path| ==> path[j] == file[j - k - 1];
    assert r.value == k;
    var parent := path[..k];
    assert parent == dir + "/" + sub;
    assert parent[|parent| - 1] == sub[|sub| - 1];
    assert DropTrailingSlashes(parent) == parent;
  }

  /**
   * `substr($s, 0, -3)`: every character but the last three; PHP 8 gives the
   * empty string when `$s` is shorter than that.
   */
  function DropLastThree(s: string): (r: string)
    ensures |s| >= 3 ==> |r| == |s| - 3 && r + s[|s| - 3..] == s
    ensures |s| < 3 ==> r == ""
  {
    if |s| >= 3 then s[..|s| - 3] else ""
  }
}

/**
 * The parts of Go's path/filepath that the tools use to turn file paths into
 * unit names, with '/' as the only separator, and `trimExt`/`TrimExt`
 * (cmd/uses/utils.go, cmd/dunits/main.go).
 */
module Paths {

  predicate IsSeparator(c: char) { c == '/' }

  /** filepath.Ext, searching backwards from position `i`. */
  function ExtBefore(path: string, i: nat): (e: string)
    requires i <= |path|
    ensures |e| <= |path|
  {
    if i == 0 || IsSeparator(path[i - 1]) then ""
    else if path[i - 1] == '.' then path[i - 1..]
    else ExtBefore(path, i - 1)
  }

  /**
   * filepath.Ext: the suffix from the last '.' of the final path element,
   * or "" when that element has no '.'.
   */
  function Ext(path: string): (e: string)
    ensures |e| <= |path|
  {
    ExtBefore(path, |path|)
  }

  /** What Ext returns: a suffix that is a dot and no further dot or separator, or "" when the last element has no dot. */
  lemma ExtSpec(path: string)
    ensures var e := Ext(path);
      && HasSuffixOf(path, e)
      && (e != "" ==> e[0] == '.' && '.' !in e[1..] && forall k :: 0 <= k < |e| ==> !IsSeparator(e[k]))
      && (e == "" ==> forall k :: 0 <= k < |path| && path[k] == '.' ==> exists j :: k < j < |path| && IsSeparator(path[j]))
  {
    ExtBeforeSpec(path, |path|);
  }

  predicate HasSuffixOf(s: string, suffix: string) {
    |suffix| <= |s| && s[|s| - |suffix|..] == suffix
  }

  lemma {:induction false} ExtBeforeSpec(path: string, i: nat)
    requires i <= |path|
    requires forall k :: i <= k < |path| ==> path[k] != '.' && !IsSeparator(path[k])
    ensures var e := ExtBefore(path, i);
      && HasSuffixOf(path, e)
      && (e != "" ==> e[0] == '.' && '.' !in e[1..] && forall k :: 0 <= k < |e| ==> !IsSeparator(e[k]))
      && (e == "" ==> forall k :: 0 <= k < |path| && path[k] == '.' ==> exists j :: k < j < |path| && IsSeparator(path[j]))
  {
    if i == 0 || IsSeparator(path[i - 1]) {
    } else if path[i - 1] == '.' {
      var e := path[i - 1..];
      assert e[1..] == path[i..];
      assert forall k :: 0 <= k < |e| ==> e[k] == path[i - 1 + k];
    } else {
      ExtBeforeSpec(path, i - 1);
    }
  }

  /** trimExt / TrimExt: the name without the suffix filepath.Ext reports. */
  function TrimExt(name: string): string {
    name[..|name| - |Ext(name)|]
  }

  /** trimExt removes exactly the extension: putting it back gives the name. */
  lemma TrimExtSpec(name: string)
    ensures TrimExt(name) + Ext(name) == name
  {
    ExtSpec(name);
  }

  /** Strips trailing separators, and nothing else. */
  function StripTrailing(path: string): (r: string)
    ensures r == "" || !IsSeparator(r[|r| - 1])
    ensures HasPrefixOf(path, r)
    ensures forall k :: |r| <= k < |path| ==> IsSeparator(path[k])
  {
    if |path| > 0 && IsSeparator(path[|path| - 1]) then StripTrailing(path[..|path| - 1]) else path
  }

  predicate HasPrefixOf(s: string, prefix: string) {
    |prefix| <= |s| && s[..|prefix|] == prefix
  }

  /** The final element after the last separator: all of it, up to that separator or the start. */
  function LastElement(path: string): (r: string)
    ensures forall k :: 0 <= k < |r| ==> !IsSeparator(r[k])
    ensures HasSuffixOf(path, r)
    ensures |r| == |path| || IsSeparator(path[|path| - |r| - 1])
  {
    if |path| == 0 || IsSeparator(path[|path| - 1]) then ""
    else LastElement(path[..|path| - 1]) + [path[|path| - 1]]
  }

  /**
   * filepath.Base: "." for the empty path, "/" for a path of separators
   * only, otherwise the last element with trailing separators removed.
   */
  function Base(path: string): string {
    if path == "" then "."
    else
      var stripped := StripTrailing(path);
      var last := LastElement(stripped);
      if last == "" then "/" else last
  }

  /**
   * `r` is the element of `path` that ends at j: it holds no separator, only
   * separators follow j, and a separator or the start of the path comes
   * before it.
   */
  predicate ElementEndingAt(path: string, r: string, j: nat) {
    && |r| <= j <= |path| && path[j - |r|..j] == r
    && (forall k :: 0 <= k < |r| ==> !IsSeparator(r[k]))
    && (forall k :: j <= k < |path| ==> IsSeparator(path[k]))
    && (j == |r| || IsSeparator(path[j - |r| - 1]))
  }

  /**
   * Base is never empty; it is "/" exactly when the path is made of
   * separators only; otherwise it is the last non-empty element of the path.
   */
  lemma BaseSpec(path: string)
    ensures var r := Base(path);
      && r != ""
      && (path == "" ==> r == ".")
      && (path != "" ==> (r == "/" <==> forall k :: 0 <= k < |path| ==> IsSeparator(path[k])))
      && (path != "" && r != "/" ==> r != "" && ElementEndingAt(path, r, |StripTrailing(path)|))
  {
    if path != "" {
      var stripped := StripTrailing(path);
      StripTrailingEmpty(path);
      if stripped != "" {
        LastElementOfStripped(path, stripped);
      }
    }
  }

  /** StripTrailing leaves nothing exactly when the path is separators only. */
  lemma StripTrailingEmpty(path: string)
    ensures StripTrailing(path) == "" <==> forall k :: 0 <= k < |path| ==> IsSeparator(path[k])
  {
    var stripped := StripTrailing(path);
    if stripped != "" {
      assert stripped[|stripped| - 1] == path[|stripped| - 1];
    }
  }

  /** The last element of a non-empty stripped path is the element of the path ending where the stripping stopped. */
  lemma LastElementOfStripped(path: string, stripped: string)
    requires stripped == StripTrailing(path) && stripped != ""
    ensures LastElement(stripped) != ""
    ensures ElementEndingAt(path, LastElement(stripped), |stripped|)
  {
    var j := |stripped|;
    var last := LastElement(stripped);
    assert stripped == path[..j];
    assert last == stripped[j - |last|..];
    if j != |last| {
      assert path[j - |last| - 1] == stripped[j - |last| - 1];
    }
  }
}

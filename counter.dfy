/**
 * Match counters of the regex tools (cmd/regex/count.go; cmd/dfind/main.go
 * repeats the same code reading the two flags from globals, so both are
 * modelled here once with the flags as parameters).
 *
 * A `Counter` tallies matched texts under a canonical key. `Actual` keeps the
 * first text seen for each key, `Matches` how often the key was seen, in
 * total and per file. A `Match` is a value here: the Go code updates it
 * through a reference that only its own counter holds. The in-memory `File`
 * of cmd/dfind/main.go sits at the end.
 */
module Counting {
  import opened Text

  /** The key a text is counted under. */
  function Canon(text: string, ignoreCase: bool, ignoreSpace: bool): (canon: string)
    ensures ignoreSpace ==> ' ' !in canon && '\t' !in canon && '\n' !in canon
    ensures !ignoreSpace ==> |canon| == |text|
    ensures !ignoreCase && !ignoreSpace ==> canon == text
    ensures ignoreCase ==> forall ch :: ch in canon ==> !('A' <= ch <= 'Z')
  {
    var c := if ignoreCase then Lower(text) else text;
    LowerHasNoUpper(text);
    if ignoreSpace then Delete(Delete(Delete(c, ' '), '\t'), '\n') else c
  }

  lemma LowerHasNoUpper(s: string)
    ensures forall ch :: ch in Lower(s) ==> !('A' <= ch <= 'Z')
  {
    forall ch | ch in Lower(s)
      ensures !('A' <= ch <= 'Z')
    {
      var i :| 0 <= i < |s| && Lower(s)[i] == ch;
    }
  }

  lemma DeleteAbsent(s: string, x: char)
    requires x !in s
    ensures Delete(s, x) == s
  {
  }

  lemma DeleteCons(c: char, t: string, x: char)
    ensures Delete([c] + t, x) == (if c == x then [] else [c]) + Delete(t, x)
  {
    assert ([c] + t)[1..] == t;
  }

  lemma LowerCons(c: char, t: string)
    ensures Lower([c] + t) == [LowerChar(c)] + Lower(t)
  {
  }

  lemma {:induction false} DeleteLower(s: string, x: char)
    requires !('A' <= x <= 'Z') && !('a' <= x <= 'z')
    ensures Lower(Delete(s, x)) == Delete(Lower(s), x)
  {
    if |s| > 0 {
      var c, t := s[0], s[1..];
      assert s == [c] + t;
      var kept := if c == x then [] else [c];
      calc {
        Lower(Delete(s, x));
      == { DeleteCons(c, t, x); }
        Lower(kept + Delete(t, x));
      == { LowerAppend(kept, Delete(t, x)); }
        Lower(kept) + Lower(Delete(t, x));
      == { DeleteLower(t, x); }
        Lower(kept) + Delete(Lower(t), x);
      == { assert Lower(kept) == if LowerChar(c) == x then [] else [LowerChar(c)]; DeleteCons(LowerChar(c), Lower(t), x); }
        Delete([LowerChar(c)] + Lower(t), x);
      == { LowerCons(c, t); }
        Delete(Lower(s), x);
      }
    }
  }

  /** A canonical key is its own key: counting a key again lands on the same entry. */
  lemma CanonIdempotent(text: string, ignoreCase: bool, ignoreSpace: bool)
    ensures var canon := Canon(text, ignoreCase, ignoreSpace);
      Canon(canon, ignoreCase, ignoreSpace) == canon
  {
    var canon := Canon(text, ignoreCase, ignoreSpace);
    var c := if ignoreCase then Lower(text) else text;
    if ignoreCase {
      LowerIdempotent(text);
    }
    if ignoreSpace {
      var d1 := Delete(c, ' ');
      var d2 := Delete(d1, '\t');
      assert canon == Delete(d2, '\n');
      var c' := if ignoreCase then Lower(canon) else canon;
      if ignoreCase {
        DeleteLower(c, ' ');
        DeleteLower(d1, '\t');
        DeleteLower(d2, '\n');
        assert Lower(canon) == canon;
      }
      assert c' == canon;
      DeleteAbsent(canon, ' ');
      DeleteAbsent(canon, '\t');
      DeleteAbsent(canon, '\n');
    }
  }

  /** A missing key reads as Go's zero value. */
  function Get(m: map<string, int>, k: string): int {
    if k in m then m[k] else 0
  }

  ghost function Sum(m: map<string, int>): int
    decreases |m|
  {
    if m == map[] then 0
    else
      var k :| k in m;
      m[k] + Sum(m - {k})
  }

  lemma {:induction false} SumRemove(m: map<string, int>, k: string)
    requires k in m
    ensures Sum(m) == m[k] + Sum(m - {k})
    decreases |m|
  {
    var j :| j in m && Sum(m) == m[j] + Sum(m - {j});
    if j != k {
      SumRemove(m - {j}, k);
      SumRemove(m - {k}, j);
      assert m - {j} - {k} == m - {k} - {j};
    }
  }

  lemma SumUpdate(m: map<string, int>, k: string, v: int)
    ensures Sum(m[k := v]) == Sum(m) - Get(m, k) + v
  {
    SumRemove(m[k := v], k);
    assert m[k := v] - {k} == m - {k};
    if k in m {
      SumRemove(m, k);
    } else {
      assert m - {k} == m;
    }
  }

  /** Pointwise addition of two tallies, missing keys counting zero. */
  function Combine(a: map<string, int>, b: map<string, int>): (r: map<string, int>)
    ensures r.Keys == a.Keys + b.Keys
  {
    map k | k in a.Keys + b.Keys :: Get(a, k) + Get(b, k)
  }

  lemma CombineNone(a: map<string, int>)
    ensures Combine(a, map[]) == a
  {
  }

  lemma CombineRemove(a: map<string, int>, b: map<string, int>, k: string)
    requires k in b
    ensures Combine(a, b) == Combine(a, b - {k})[k := Get(a, k) + b[k]]
  {
  }

  lemma SumCombineStep(a: map<string, int>, b: map<string, int>, k: string)
    requires k in b
    requires Sum(Combine(a, b - {k})) == Sum(a) + Sum(b - {k})
    ensures Sum(Combine(a, b)) == Sum(a) + Sum(b)
  {
    var rest := Combine(a, b - {k});
    CombineRemove(a, b, k);
    assert Get(rest, k) == Get(a, k);
    SumUpdate(rest, k, Get(a, k) + b[k]);
    SumRemove(b, k);
  }

  lemma {:induction false} SumCombine(a: map<string, int>, b: map<string, int>)
    ensures Sum(Combine(a, b)) == Sum(a) + Sum(b)
    decreases |b|
  {
    if b == map[] {
      CombineNone(a);
    } else {
      var k :| k in b;
      SumCombine(a, b - {k});
      SumCombineStep(a, b, k);
    }
  }

  datatype Match = Match(Count: int, Files: map<string, int>) {

    /** Match.Add: one more occurrence, in `file`. */
    function Add(file: string): (r: Match)
      ensures r.Count == Count + 1
      ensures r.Files.Keys == Files.Keys + {file} && r.Files[file] == Get(Files, file) + 1
      ensures forall f :: f in Files && f != file ==> r.Files[f] == Files[f]
      ensures Tallied(this) ==> Tallied(r)
    {
      SumUpdate(Files, file, Get(Files, file) + 1);
      Match(Count + 1, Files[file := Get(Files, file) + 1])
    }

    /** Match.Merge: counts and per-file counts are added pointwise. */
    method Merge(other: Match) returns (r: Match)
      ensures r.Count == Count + other.Count
      ensures r.Files == Combine(Files, other.Files)
    {
      var files := Files;
      var todo := other.Files.Keys;
      while todo != {}
        invariant todo <= other.Files.Keys
        invariant files.Keys == Files.Keys + (other.Files.Keys - todo)
        invariant forall f :: f in files ==> files[f] == Get(Files, f) + if f in other.Files && f !in todo then other.Files[f] else 0
        decreases |todo|
      {
        var file :| file in todo;
        files := files[file := Get(files, file) + other.Files[file]];
        todo := todo - {file};
      }
      MergedFiles(Files, other.Files, files);
      r := Match(Count + other.Count, files);
    }
  }

  const NewMatch := Match(0, map[])

  /** Each Count is the sum of its per-file counts. */
  ghost predicate Tallied(m: Match) {
    m.Count == Sum(m.Files)
  }

  function Plus(m: Match, other: Match): Match {
    Match(m.Count + other.Count, Combine(m.Files, other.Files))
  }

  lemma MergedFiles(a: map<string, int>, b: map<string, int>, c: map<string, int>)
    requires c.Keys == a.Keys + (b.Keys - {})
    requires forall f :: f in c ==> c[f] == Get(a, f) + if f in b && f !in {} then b[f] else 0
    ensures c == Combine(a, b)
  {
  }

  lemma PlusTallied(m: Match, other: Match)
    requires Tallied(m) && Tallied(other)
    ensures Tallied(Plus(m, other))
  {
    SumCombine(m.Files, other.Files);
  }

  lemma PlusNew(m: Match)
    ensures Plus(m, NewMatch) == m
  {
    CombineNone(m.Files);
  }

  function MatchOf(ms: map<string, Match>, k: string): Match {
    if k in ms then ms[k] else NewMatch
  }

  function Counts(ms: map<string, Match>): (r: map<string, int>)
    ensures r.Keys == ms.Keys
  {
    map k | k in ms :: ms[k].Count
  }

  lemma CountsUpdate(ms: map<string, Match>, k: string, m: Match)
    ensures Counts(ms[k := m]) == Counts(ms)[k := m.Count]
  {
  }

  /** The counter invariant kept by Add and Merge. */
  ghost predicate Consistent(total: int, matches: map<string, Match>, actual: map<string, string>) {
    && actual.Keys == matches.Keys
    && total == Sum(Counts(matches))
    && forall k :: k in matches ==> Tallied(matches[k])
  }

  class Counter {
    var Total: int
    var Matches: map<string, Match>
    var Actual: map<string, string>

    ghost predicate Valid()
      reads this
    {
      Consistent(Total, Matches, Actual)
    }

    /** NewCounter. */
    constructor ()
      ensures Valid()
      ensures Total == 0 && Matches == map[] && Actual == map[]
    {
      Total, Matches, Actual := 0, map[], map[];
    }

    /**
     * Counter.Add: `text`, found in `file`, is counted under its canonical
     * key; the first text seen for a key is the one `Actual` keeps.
     */
    method Add(file: string, text: string, ignoreCase: bool, ignoreSpace: bool)
      requires Valid()
      modifies this
      ensures Valid()
      ensures var canon := Canon(text, ignoreCase, ignoreSpace);
        && Total == old(Total) + 1
        && Actual == (if canon in old(Actual) then old(Actual) else old(Actual)[canon := text])
        && Matches == old(Matches)[canon := MatchOf(old(Matches), canon).Add(file)]
    {
      var canon := Canon(text, ignoreCase, ignoreSpace);
      if canon !in Actual {
        Actual := Actual[canon := text];
        Matches := Matches[canon := NewMatch];
      }
      ghost var ready := Matches;
      Total := Total + 1;
      Matches := Matches[canon := Matches[canon].Add(file)];
      AddShape(old(Matches), ready, Matches, canon, file);
      AddKeeps(old(Matches), ready, Matches, canon, file);
    }

    /**
     * Counter.Merge: totals add up, keys missing here are adopted with the
     * other counter's text, and every Match is merged pointwise.
     */
    method Merge(other: Counter)
      requires Valid() && other.Valid() && other != this
      modifies this
      ensures Valid()
      ensures Total == old(Total) + other.Total
      ensures Actual == other.Actual + old(Actual)
      ensures Matches.Keys == old(Matches).Keys + other.Matches.Keys
      ensures forall k :: k in Matches ==> Matches[k] == Plus(MatchOf(old(Matches), k), MatchOf(other.Matches, k))
    {
      Total := Total + other.Total;
      var ready;
      Actual, ready := Adopt(Actual, Matches, other.Actual);
      Matches := MergeEach(ready, other.Matches);
      MergeKeeps(old(Total), old(Matches), old(Actual), other.Total, other.Matches, other.Actual, Actual, ready, Matches);
    }
  }

  /**
   * The first loop of Counter.Merge: every key of `theirs` missing from
   * `actual` is adopted with their text and a fresh Match.
   */
  method Adopt(actual: map<string, string>, matches: map<string, Match>, theirs: map<string, string>)
    returns (actual': map<string, string>, matches': map<string, Match>)
    requires actual.Keys == matches.Keys
    ensures actual' == theirs + actual
    ensures matches'.Keys == actual'.Keys
    ensures forall k :: k in matches' ==> matches'[k] == MatchOf(matches, k)
  {
    actual', matches' := actual, matches;
    var todo := theirs.Keys;
    while todo != {}
      invariant todo <= theirs.Keys
      invariant actual'.Keys == actual.Keys + (theirs.Keys - todo)
      invariant forall k :: k in actual' ==> actual'[k] == if k in actual then actual[k] else theirs[k]
      invariant matches'.Keys == actual'.Keys
      invariant forall k :: k in matches' ==> matches'[k] == MatchOf(matches, k)
      decreases |todo|
    {
      var canon :| canon in todo;
      if canon !in actual' {
        actual' := actual'[canon := theirs[canon]];
        matches' := matches'[canon := NewMatch];
      }
      todo := todo - {canon};
    }
    FirstWins(actual, theirs, actual');
  }

  lemma FirstWins(actual: map<string, string>, theirs: map<string, string>, result: map<string, string>)
    requires result.Keys == actual.Keys + (theirs.Keys - {})
    requires forall k :: k in result ==> result[k] == if k in actual then actual[k] else theirs[k]
    ensures result == theirs + actual
  {
  }

  /** The second loop of Counter.Merge: each of their Matches is merged into ours. */
  method MergeEach(ready: map<string, Match>, theirs: map<string, Match>) returns (after: map<string, Match>)
    requires theirs.Keys <= ready.Keys
    ensures after.Keys == ready.Keys
    ensures forall k :: k in after ==> after[k] == if k in theirs then Plus(ready[k], theirs[k]) else ready[k]
  {
    after := ready;
    var todo := theirs.Keys;
    while todo != {}
      invariant todo <= theirs.Keys
      invariant after.Keys == ready.Keys
      invariant forall k :: k in after ==> after[k] == if k in theirs && k !in todo then Plus(ready[k], theirs[k]) else ready[k]
      decreases |todo|
    {
      var canon :| canon in todo;
      var merged := after[canon].Merge(theirs[canon]);
      after := after[canon := merged];
      todo := todo - {canon};
    }
  }

  lemma AddShape(before: map<string, Match>, ready: map<string, Match>, after: map<string, Match>, canon: string, file: string)
    requires ready == (if canon in before then before else before[canon := NewMatch])
    requires after == ready[canon := ready[canon].Add(file)]
    ensures after == before[canon := MatchOf(before, canon).Add(file)]
  {
    assert ready[canon] == MatchOf(before, canon);
  }

  lemma AddKeeps(before: map<string, Match>, ready: map<string, Match>, after: map<string, Match>, canon: string, file: string)
    requires forall k :: k in before ==> Tallied(before[k])
    requires ready == (if canon in before then before else before[canon := NewMatch])
    requires after == ready[canon := ready[canon].Add(file)]
    ensures Sum(Counts(after)) == Sum(Counts(before)) + 1
    ensures forall k :: k in after ==> Tallied(after[k])
  {
    if canon !in before {
      CountsUpdate(before, canon, NewMatch);
      SumUpdate(Counts(before), canon, 0);
    }
    assert Tallied(ready[canon]);
    CountsUpdate(ready, canon, ready[canon].Add(file));
    SumUpdate(Counts(ready), canon, ready[canon].Count + 1);
  }

  lemma MergedPointwise(before: map<string, Match>, other: map<string, Match>, ready: map<string, Match>, after: map<string, Match>)
    requires forall k :: k in before ==> Tallied(before[k])
    requires forall k :: k in other ==> Tallied(other[k])
    requires forall k :: k in ready ==> ready[k] == MatchOf(before, k)
    requires after.Keys == ready.Keys
    requires forall k :: k in after ==> after[k] == if k in other then Plus(ready[k], other[k]) else ready[k]
    ensures forall k :: k in after ==> after[k] == Plus(MatchOf(before, k), MatchOf(other, k)) && Tallied(after[k])
  {
    forall k | k in after
      ensures after[k] == Plus(MatchOf(before, k), MatchOf(other, k)) && Tallied(after[k])
    {
      var m := MatchOf(before, k);
      assert Tallied(m);
      if k in other {
        PlusTallied(m, other[k]);
      } else {
        PlusNew(m);
      }
    }
  }

  lemma MergeKeeps(total: int, before: map<string, Match>, actualBefore: map<string, string>,
                   otherTotal: int, other: map<string, Match>, otherActual: map<string, string>,
                   actual: map<string, string>, ready: map<string, Match>, after: map<string, Match>)
    requires Consistent(total, before, actualBefore) && Consistent(otherTotal, other, otherActual)
    requires actual == otherActual + actualBefore
    requires ready.Keys == actual.Keys
    requires forall k :: k in ready ==> ready[k] == MatchOf(before, k)
    requires after.Keys == ready.Keys
    requires forall k :: k in after ==> after[k] == if k in other then Plus(ready[k], other[k]) else ready[k]
    ensures Consistent(total + otherTotal, after, actual)
    ensures after.Keys == before.Keys + other.Keys
    ensures forall k :: k in after ==> after[k] == Plus(MatchOf(before, k), MatchOf(other, k))
  {
    MergedPointwise(before, other, ready, after);
    MergedCounts(before, other, after);
  }

  lemma MergedCounts(before: map<string, Match>, other: map<string, Match>, after: map<string, Match>)
    requires after.Keys == before.Keys + other.Keys
    requires forall k :: k in after ==> after[k] == Plus(MatchOf(before, k), MatchOf(other, k))
    ensures Sum(Counts(after)) == Sum(Counts(before)) + Sum(Counts(other))
  {
    CountsCombine(before, other, after);
    SumCombine(Counts(before), Counts(other));
  }

  lemma CountsCombine(before: map<string, Match>, other: map<string, Match>, after: map<string, Match>)
    requires after.Keys == before.Keys + other.Keys
    requires forall k :: k in after ==> after[k] == Plus(MatchOf(before, k), MatchOf(other, k))
    ensures Counts(after) == Combine(Counts(before), Counts(other))
  {
    var c, d := Counts(after), Combine(Counts(before), Counts(other));
    forall k | k in c
      ensures c[k] == d[k]
    {
      assert after[k].Count == MatchOf(before, k).Count + MatchOf(other, k).Count;
    }
  }
  /** A file held in memory by dfind: its bytes as read and as rewritten. */
  datatype File = File(Path: string, Source: seq<Byte>, Modified: seq<Byte>) {
    /** Changed: the rewritten bytes differ from those read. */
    predicate Changed() {
      Source != Modified
    }
  }

  /**
   * LoadFile: `read` is what reading the path gives, None when it fails;
   * the bytes read become both the source and the rewritten text.
   */
  function LoadFile(path: string, read: Option<seq<Byte>>): (r: Option<File>)
    ensures r.None? <==> read.None?
    ensures r.Some? ==> r.value.Path == path && r.value.Source == read.value && !r.value.Changed()
  {
    if read.None? then None else Some(File(path, read.value, read.value))
  }
}

/**
 * Byte strings and the small string operations of Go's `strings` package
 * that the toolkit relies on. A Go string is a sequence of bytes; here it is
 * a Dafny `string` and a source buffer is a `seq<Byte>`, where every `Byte`
 * is a character below 256, so a byte slice is also a string.
 *
 * Case folding is ASCII only: Go's Unicode-aware ToLower/EqualFold agree
 * with it on ASCII text.
 */
module Text {

  type Byte = c: char | c as int < 256 witness 'a'

  datatype Option<T> = None | Some(value: T)

  function LowerChar(c: char): char {
    if 'A' <= c <= 'Z' then (c as int + 32) as char else c
  }

  /** strings.ToLower on ASCII text. */
  function Lower(s: string): string {
    seq(|s|, i requires 0 <= i < |s| => LowerChar(s[i]))
  }

  /** strings.EqualFold on ASCII text. */
  predicate EqualFold(a: string, b: string) {
    Lower(a) == Lower(b)
  }

  predicate HasPrefix(s: string, prefix: string) {
    |prefix| <= |s| && s[..|prefix|] == prefix
  }

  predicate HasSuffix(s: string, suffix: string) {
    |suffix| <= |s| && s[|s| - |suffix|..] == suffix
  }

  /** Go's `<` on strings: byte-wise lexicographic order. */
  predicate Less(a: string, b: string) {
    if |a| == 0 then |b| > 0
    else if |b| == 0 then false
    else if a[0] != b[0] then a[0] < b[0]
    else Less(a[1..], b[1..])
  }

  lemma LowerIdempotent(s: string)
    ensures Lower(Lower(s)) == Lower(s)
  {
  }

  lemma LowerAppend(a: string, b: string)
    ensures Lower(a + b) == Lower(a) + Lower(b)
  {
  }

  lemma {:induction false} LessIrreflexive(a: string)
    ensures !Less(a, a)
  {
    if |a| > 0 {
      LessIrreflexive(a[1..]);
    }
  }

  lemma {:induction false} LessTrichotomy(a: string, b: string)
    ensures a == b || Less(a, b) || Less(b, a)
  {
    if |a| > 0 && |b| > 0 && a[0] == b[0] {
      LessTrichotomy(a[1..], b[1..]);
      if a[1..] == b[1..] {
        assert a == [a[0]] + a[1..] && b == [b[0]] + b[1..];
      }
    }
  }

  lemma {:induction false} LessAsymmetric(a: string, b: string)
    ensures !(Less(a, b) && Less(b, a))
  {
    if |a| > 0 && |b| > 0 && a[0] == b[0] {
      LessAsymmetric(a[1..], b[1..]);
    }
  }

  lemma {:induction false} LessTransitive(a: string, b: string, c: string)
    requires Less(a, b) && Less(b, c)
    ensures Less(a, c)
  {
    if |a| > 0 && |b| > 0 && |c| > 0 && a[0] == b[0] && b[0] == c[0] {
      LessTransitive(a[1..], b[1..], c[1..]);
    }
  }

  /** The elements of a list, as a set. */
  function Elems(s: seq<string>): set<string> {
    set x | x in s
  }

  /** No element occurs twice. */
  predicate Distinct<T(==)>(s: seq<T>) {
    forall i, j :: 0 <= i < j < |s| ==> s[i] != s[j]
  }

  lemma DistinctConcat<T>(a: seq<T>, b: seq<T>)
    requires Distinct(a) && Distinct(b) && (forall x :: x in b ==> x !in a)
    ensures Distinct(a + b)
  {
    forall i, j | 0 <= i < j < |a + b|
      ensures (a + b)[i] != (a + b)[j]
    {
      if i < |a| && j >= |a| {
        assert (a + b)[j] == b[j - |a|] && b[j - |a|] in b;
      } else if i >= |a| {
        assert (a + b)[i] == b[i - |a|] && (a + b)[j] == b[j - |a|];
      }
    }
  }

  /** Strictly ascending in Go's string order, hence without repeats. */
  predicate Ascending(a: seq<string>) {
    forall i, j :: 0 <= i < j < |a| ==> Less(a[i], a[j])
  }

  lemma ElemsEmpty(s: seq<string>)
    ensures Elems(s) == {} <==> |s| == 0
  {
    if |s| > 0 {
      assert s[0] in Elems(s);
    }
  }

  lemma PrefixMembers(s: seq<string>, n: nat)
    requires n <= |s|
    ensures forall x :: x in s[..n] ==> x in s
  {
  }

  /** Two ascending lists with the same elements are the same list. */
  lemma {:induction false} AscendingUnique(a: seq<string>, b: seq<string>)
    requires Ascending(a) && Ascending(b)
    requires Elems(a) == Elems(b)
    ensures a == b
  {
    ElemsEmpty(a);
    ElemsEmpty(b);
    if |a| > 0 && |b| > 0 {
      assert a[0] in Elems(b);
      var j :| 0 <= j < |b| && b[j] == a[0];
      assert b[0] in Elems(a);
      var i :| 0 <= i < |a| && a[i] == b[0];
      if i > 0 && j > 0 {
        assert Less(a[0], a[i]);
        assert Less(b[0], b[j]);
        LessAsymmetric(a[0], b[0]);
      }
      assert a[0] == b[0];
      forall x | x in a[1..]
        ensures x != a[0]
      {
        var k :| 0 <= k < |a[1..]| && a[1..][k] == x;
        assert Less(a[0], a[k + 1]);
        LessIrreflexive(a[0]);
      }
      forall x | x in b[1..]
        ensures x != b[0]
      {
        var k :| 0 <= k < |b[1..]| && b[1..][k] == x;
        assert Less(b[0], b[k + 1]);
        LessIrreflexive(b[0]);
      }
      assert a == [a[0]] + a[1..] && b == [b[0]] + b[1..];
      assert Elems(a[1..]) == Elems(a) - {a[0]};
      assert Elems(b[1..]) == Elems(b) - {b[0]};
      AscendingUnique(a[1..], b[1..]);
    }
  }

  lemma AppendAssociative<T>(a: seq<T>, b: seq<T>, c: seq<T>)
    ensures a + (b + c) == (a + b) + c
  {
  }

  lemma SplitLast<T>(s: seq<T>)
    requires |s| > 0
    ensures s == s[..|s| - 1] + [s[|s| - 1]]
  {
  }

  lemma TakeSnoc<T>(s: seq<T>, i: nat)
    requires i < |s|
    ensures s[..i + 1][..i] == s[..i] && s[..i + 1] == s[..i] + [s[i]]
  {
  }

  lemma TakeWhole<T>(s: seq<T>)
    ensures s[..|s|] == s
  {
  }

  lemma SliceDrop<T>(s: seq<T>, a: nat, b: nat, d: nat)
    requires a + d <= b <= |s|
    ensures s[a..b][d..] == s[a + d..b]
  {
  }

  lemma TakeAppend<T>(a: seq<T>, b: seq<T>, m: nat)
    requires m <= |a| + |b|
    ensures m <= |a| ==> (a + b)[..m] == a[..m]
    ensures m >= |a| ==> (a + b)[..m] == a + b[..m - |a|]
  {
  }

  /** strings.Join. */
  function Join(parts: seq<string>, sep: string): string {
    if |parts| == 0 then ""
    else if |parts| == 1 then parts[0]
    else parts[0] + sep + Join(parts[1..], sep)
  }

  /** True when some element equals `value` under case folding. */
  predicate ContainsFold(list: seq<string>, value: string) {
    exists i :: 0 <= i < |list| && EqualFold(list[i], value)
  }

  /**
   * `contains` of cmd/test/utils.go (cmd/uses/utils.go holds the same
   * function): a read-only search with an early return.
   */
  method Contains(value: string, list: seq<string>) returns (found: bool)
    ensures found <==> ContainsFold(list, value)
    ensures list == [] ==> !found
  {
    for i := 0 to |list|
      invariant forall j :: 0 <= j < i ==> !EqualFold(list[j], value)
    {
      if EqualFold(list[i], value) {
        return true;
      }
    }
    return false;
  }

  /** Membership under case folding depends neither on order nor on case. */
  lemma ContainsFoldInvariant(list: seq<string>, other: seq<string>, value: string, value': string)
    requires multiset(list) == multiset(other)
    requires Lower(value) == Lower(value')
    ensures ContainsFold(list, value) <==> ContainsFold(other, value')
  {
    if ContainsFold(list, value) {
      var i :| 0 <= i < |list| && EqualFold(list[i], value);
      assert list[i] in multiset(other);
      var j :| 0 <= j < |other| && other[j] == list[i];
    }
    if ContainsFold(other, value') {
      var j :| 0 <= j < |other| && EqualFold(other[j], value');
      assert other[j] in multiset(list);
      var i :| 0 <= i < |list| && list[i] == other[j];
    }
  }

  /** strings.Replace(s, x, "", -1) for a one-byte x: every x is deleted. */
  function Delete(s: string, x: char): (r: string)
    ensures x !in r
    ensures forall y :: y != x ==> (y in r <==> y in s)
    ensures multiset(r) == multiset(s)[x := 0]
  {
    if |s| == 0 then []
    else
      assert s == [s[0]] + s[1..];
      if s[0] == x then Delete(s[1..], x) else [s[0]] + Delete(s[1..], x)
  }

  lemma {:induction false} DeleteAppend(a: string, b: string, x: char)
    ensures Delete(a + b, x) == Delete(a, x) + Delete(b, x)
  {
    if |a| > 0 {
      assert (a + b)[0] == a[0] && (a + b)[1..] == a[1..] + b;
      DeleteAppend(a[1..], b, x);
      if a[0] != x {
        assert [a[0]] + Delete(a[1..], x) + Delete(b, x) == [a[0]] + (Delete(a[1..], x) + Delete(b, x));
      }
    } else {
      assert a + b == b;
    }
  }

  /**
   * strings.Replace / bytes.Replace with n = -1: every occurrence of `pattern`,
   * scanning left to right without overlap, becomes `replacement`.
   */
  function Replace(s: string, pattern: string, replacement: string): string
    requires |pattern| > 0
    decreases |s|
  {
    if |s| == 0 then s
    else if HasPrefix(s, pattern) then replacement + Replace(s[|pattern|..], pattern, replacement)
    else [s[0]] + Replace(s[1..], pattern, replacement)
  }

  /**
   * Replacing one text replacement another that differs from it only in `x` characters
   * changes nothing once every `x` is deleted.
   */
  lemma {:induction false} ReplaceKeepsDeleted(s: string, pattern: string, replacement: string, x: char)
    requires |pattern| > 0 && Delete(pattern, x) == Delete(replacement, x)
    ensures Delete(Replace(s, pattern, replacement), x) == Delete(s, x)
    decreases |s|
  {
    if |s| > 0 {
      if HasPrefix(s, pattern) {
        ReplaceKeepsDeleted(s[|pattern|..], pattern, replacement, x);
        ReplaceMatched(s, pattern, replacement, x);
      } else {
        ReplaceKeepsDeleted(s[1..], pattern, replacement, x);
        ReplaceUnmatched(s, pattern, replacement, x);
      }
    }
  }

  /** The step of ReplaceKeepsDeleted where the text starts with the pattern. */
  lemma ReplaceMatched(s: string, pattern: string, replacement: string, x: char)
    requires |pattern| > 0 && |s| > 0 && HasPrefix(s, pattern) && Delete(pattern, x) == Delete(replacement, x)
    requires Delete(Replace(s[|pattern|..], pattern, replacement), x) == Delete(s[|pattern|..], x)
    ensures Delete(Replace(s, pattern, replacement), x) == Delete(s, x)
  {
    var rest := s[|pattern|..];
    assert s == pattern + rest;
    DeleteAppend(replacement, Replace(rest, pattern, replacement), x);
    DeleteAppend(pattern, rest, x);
  }

  /** The step of ReplaceKeepsDeleted where the first character is copied. */
  lemma ReplaceUnmatched(s: string, pattern: string, replacement: string, x: char)
    requires |pattern| > 0 && |s| > 0 && !HasPrefix(s, pattern)
    requires Delete(Replace(s[1..], pattern, replacement), x) == Delete(s[1..], x)
    ensures Delete(Replace(s, pattern, replacement), x) == Delete(s, x)
  {
    assert s == [s[0]] + s[1..];
    DeleteAppend([s[0]], Replace(s[1..], pattern, replacement), x);
    DeleteAppend([s[0]], s[1..], x);
  }

  /** strings.Split with a one-byte separator. */
  function Split(s: string, sep: char): (r: seq<string>)
    ensures |r| >= 1
    ensures forall p :: p in r ==> sep !in p
  {
    if |s| == 0 then [""]
    else
      var rest := Split(s[1..], sep);
      if s[0] == sep then [""] + rest else [[s[0]] + rest[0]] + rest[1..]
  }

  /** Joining the pieces with the separator gives the text back. */
  lemma {:induction false} JoinSplit(s: string, sep: char)
    ensures Join(Split(s, sep), [sep]) == s
  {
    if |s| > 0 {
      var rest := Split(s[1..], sep);
      JoinSplit(s[1..], sep);
      if s[0] == sep {
        assert ([""] + rest)[1..] == rest;
      } else {
        var r := [[s[0]] + rest[0]] + rest[1..];
        assert r[1..] == rest[1..];
        if |rest| > 1 {
          assert Join(rest, [sep]) == rest[0] + [sep] + Join(rest[1..], [sep]);
        }
        assert s == [s[0]] + s[1..];
      }
    }
  }

  lemma {:induction false} SplitNoSeparator(s: string, sep: char)
    requires sep !in s
    ensures Split(s, sep) == [s]
  {
    if |s| > 0 {
      SplitNoSeparator(s[1..], sep);
      assert s == [s[0]] + s[1..];
    }
  }

  lemma {:induction false} SplitAfter(a: string, b: string, sep: char)
    requires sep !in a
    ensures Split(a + [sep] + b, sep) == [a] + Split(b, sep)
  {
    if |a| == 0 {
      assert (a + [sep] + b)[1..] == b;
    } else {
      assert (a + [sep] + b)[1..] == a[1..] + [sep] + b;
      SplitAfter(a[1..], b, sep);
      assert a == [a[0]] + a[1..];
    }
  }

  /** Pieces free of the separator come back from their join. */
  lemma {:induction false} SplitJoin(parts: seq<string>, sep: char)
    requires |parts| >= 1
    requires forall p :: p in parts ==> sep !in p
    ensures Split(Join(parts, [sep]), sep) == parts
  {
    if |parts| == 1 {
      SplitNoSeparator(parts[0], sep);
    } else {
      assert parts[0] in parts;
      assert forall p :: p in parts[1..] ==> p in parts;
      SplitJoin(parts[1..], sep);
      SplitAfter(parts[0], Join(parts[1..], [sep]), sep);
      assert parts == [parts[0]] + parts[1..];
    }
  }

  /** unicode.IsSpace on ASCII: tab, newline, vertical tab, form feed, carriage return, space. */
  predicate IsSpace(c: char) {
    c == ' ' || '\t' <= c <= '\r'
  }

  function TrimLeft(s: string): (r: string)
    ensures |r| <= |s| && r == s[|s| - |r|..]
    ensures r == "" || !IsSpace(r[0])
  {
    if |s| > 0 && IsSpace(s[0]) then TrimLeft(s[1..]) else s
  }

  function TrimRight(s: string): (r: string)
    ensures |r| <= |s| && r == s[..|r|]
    ensures r == "" || !IsSpace(r[|r| - 1])
  {
    if |s| > 0 && IsSpace(s[|s| - 1]) then TrimRight(s[..|s| - 1]) else s
  }

  /** TrimLeft drops white space only. */
  lemma {:induction false} TrimLeftDrops(s: string)
    ensures forall k :: 0 <= k < |s| - |TrimLeft(s)| ==> IsSpace(s[k])
  {
    if |s| > 0 && IsSpace(s[0]) {
      TrimLeftDrops(s[1..]);
    }
  }

  /** TrimRight drops white space only. */
  lemma {:induction false} TrimRightDrops(s: string)
    ensures forall k :: |TrimRight(s)| <= k < |s| ==> IsSpace(s[k])
  {
    if |s| > 0 && IsSpace(s[|s| - 1]) {
      TrimRightDrops(s[..|s| - 1]);
    }
  }

  /**
   * strings.TrimSpace on ASCII white space: the text between the leading and
   * the trailing white space.
   */
  function TrimSpace(s: string): (r: string)
    ensures |r| <= |s|
    ensures r == "" || (!IsSpace(r[0]) && !IsSpace(r[|r| - 1]))
  {
    TrimRight(TrimLeft(s))
  }

  /** strings.ContainsAny. */
  predicate ContainsAny(s: string, chars: string) {
    exists i :: 0 <= i < |s| && s[i] in chars
  }
}

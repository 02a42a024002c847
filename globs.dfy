/**
 * The `-care` style glob flag (internal/walk/globs.go): a list of globs
 * and extensions read from a ';'- or ':'-separated value.
 */
module Globs {
  import opened Text
  import opened Paths

  /** A piece holding any of these characters is a glob. */
  const Wildcards := "*[]?"

  /** Where Set puts one trimmed piece. */
  datatype Kind = Skip | Glob | Extension

  function KindOf(v: string): (k: Kind)
    ensures k == Skip <==> v == ""
  {
    if v == "" then Skip
    else if ContainsAny(v, Wildcards) then Glob
    else if v[0] == '.' then Extension
    else Glob
  }

  lemma {:induction false} ReplaceDropsChar(s: string, c: char, d: char)
    requires c != d
    ensures forall y :: y in Replace(s, [c], [d]) ==> y != c && (y == d || y in s)
    decreases |s|
  {
    if |s| > 0 {
      if HasPrefix(s, [c]) {
        ReplaceDropsChar(s[1..], c, d);
      } else {
        ReplaceDropsChar(s[1..], c, d);
        assert s[0] != c;
      }
    }
  }

  lemma {:induction false} ReplaceAbsent(s: string, c: char, d: char)
    requires c !in s
    ensures Replace(s, [c], [d]) == s
    decreases |s|
  {
    if |s| > 0 {
      assert s[0] != c && !HasPrefix(s, [c]);
      ReplaceAbsent(s[1..], c, d);
    }
  }

  lemma {:induction false} SplitChars(s: string, sep: char)
    ensures forall p, y :: p in Split(s, sep) && y in p ==> y in s
  {
    if |s| > 0 {
      SplitChars(s[1..], sep);
      var rest := Split(s[1..], sep);
      assert rest[0] in rest;
      assert forall p :: p in rest[1..] ==> p in rest;
    }
  }

  lemma {:induction false} JoinChars(parts: seq<string>, sep: string, y: char)
    requires y !in sep && forall p :: p in parts ==> y !in p
    ensures y !in Join(parts, sep)
  {
    if |parts| > 1 {
      assert parts[0] in parts;
      assert forall p :: p in parts[1..] ==> p in parts;
      JoinChars(parts[1..], sep, y);
    } else if |parts| == 1 {
      assert parts[0] in parts;
    }
  }

  /** The pieces Set reads: ':' counts as ';'. */
  function Pieces(value: string): (r: seq<string>)
    ensures |r| >= 1
  {
    Split(Replace(value, ":", ";"), ';')
  }

  /** No piece holds a separator. */
  lemma PiecesClean(value: string)
    ensures forall p, y :: p in Pieces(value) && y in p ==> y != ';' && y != ':'
  {
    ReplaceDropsChar(value, ':', ';');
    SplitChars(Replace(value, ":", ";"), ';');
  }

  /** The trimmed pieces of the given kind, in order. */
  function OfKind(pieces: seq<string>, kind: Kind): (r: seq<string>)
    ensures |r| <= |pieces|
  {
    if |pieces| == 0 then []
    else
      var v := TrimSpace(pieces[|pieces| - 1]);
      OfKind(pieces[..|pieces| - 1], kind) + (if KindOf(v) == kind then [v] else [])
  }

  lemma OfKindStep(pieces: seq<string>, i: nat)
    requires i < |pieces|
    ensures var v := TrimSpace(pieces[i]);
      forall kind :: OfKind(pieces[..i + 1], kind) == OfKind(pieces[..i], kind) + (if KindOf(v) == kind then [v] else [])
  {
    assert pieces[..i + 1][..i] == pieces[..i];
  }

  lemma OfKindWhole(pieces: seq<string>)
    ensures forall kind :: OfKind(pieces[..|pieces|], kind) == OfKind(pieces, kind)
  {
    assert pieces[..|pieces|] == pieces;
  }

  /** Every piece is skipped, kept as a glob or kept as an extension, exactly once. */
  lemma {:induction false} OfKindPartition(pieces: seq<string>)
    ensures |OfKind(pieces, Skip)| + |OfKind(pieces, Glob)| + |OfKind(pieces, Extension)| == |pieces|
  {
    if |pieces| > 0 {
      OfKindPartition(pieces[..|pieces| - 1]);
    }
  }

  lemma SliceChars(s: string, i: nat, j: nat)
    requires i <= j <= |s|
    ensures forall y :: y in s[i..j] ==> y in s
  {
    forall y | y in s[i..j]
      ensures y in s
    {
      var k :| 0 <= k < j - i && s[i..j][k] == y;
      assert s[i + k] == y;
    }
  }

  /** A trimmed piece's characters are characters of the piece. */
  lemma TrimSpaceChars(s: string)
    ensures forall y :: y in TrimSpace(s) ==> y in s
  {
    var l := TrimLeft(s);
    SliceChars(s, |s| - |l|, |s|);
    SliceChars(l, 0, |TrimRight(l)|);
    assert l == s[|s| - |l|..|s|];
    assert TrimRight(l) == l[0..|TrimRight(l)|];
  }

  /**
   * What Set keeps from a value: non-empty, without surrounding white space
   * and without separators; extensions start with '.' and hold no wildcard.
   */
  lemma {:induction false} OfKindClean(pieces: seq<string>, kind: Kind)
    requires forall p, y :: p in pieces && y in p ==> y != ';' && y != ':'
    ensures forall v :: v in OfKind(pieces, kind) ==>
      && KindOf(v) == kind
      && (kind != Skip ==> v != "" && !IsSpace(v[0]) && !IsSpace(v[|v| - 1]))
      && (kind == Extension ==> v[0] == '.' && !ContainsAny(v, Wildcards))
      && ';' !in v && ':' !in v
  {
    if |pieces| > 0 {
      var front := pieces[..|pieces| - 1];
      assert forall p :: p in front ==> p in pieces;
      OfKindClean(front, kind);
      var last := pieces[|pieces| - 1];
      assert last in pieces;
      TrimSpaceChars(last);
    }
  }

  predicate Trimmed(g: string) {
    g != "" && !IsSpace(g[0]) && !IsSpace(g[|g| - 1])
  }

  /** A glob that String writes out and Set reads back unchanged. */
  predicate CleanGlob(g: string) {
    Trimmed(g) && ';' !in g && ':' !in g && KindOf(g) == Glob
  }

  lemma TrimSpaceTrimmed(g: string)
    requires Trimmed(g)
    ensures TrimSpace(g) == g
  {
    assert TrimLeft(g) == g;
    assert TrimRight(g) == g;
  }

  lemma OfKindSnocGlob(front: seq<string>, g: string)
    requires CleanGlob(g)
    ensures OfKind(front + [g], Glob) == OfKind(front, Glob) + [g]
    ensures OfKind(front + [g], Extension) == OfKind(front, Extension)
  {
    TrimSpaceTrimmed(g);
    assert (front + [g])[..|front|] == front;
  }

  lemma {:induction false} OfKindGlobs(all: seq<string>)
    requires forall i :: 0 <= i < |all| ==> CleanGlob(all[i])
    ensures OfKind(all, Glob) == all && OfKind(all, Extension) == []
  {
    if |all| > 0 {
      var front, g := all[..|all| - 1], all[|all| - 1];
      OfKindGlobs(front);
      OfKindSnocGlob(front, g);
      SplitLast(all);
    }
  }

  /** Reading back what String writes: clean globs come back as they were. */
  lemma PiecesOfJoin(all: seq<string>)
    requires |all| >= 1 && forall i :: 0 <= i < |all| ==> CleanGlob(all[i])
    ensures OfKind(Pieces(Join(all, ";")), Glob) == all
    ensures OfKind(Pieces(Join(all, ";")), Extension) == []
  {
    var s := Join(all, ";");
    assert forall p :: p in all ==> ':' !in p && ';' !in p;
    JoinChars(all, ";", ':');
    ReplaceAbsent(s, ':', ';');
    SplitJoin(all, ';');
    assert Pieces(s) == all;
    OfKindGlobs(all);
  }

  /** The loop of GlobsFlag.Set over the pieces, on the two lists it appends to. */
  method SetEach(values: seq<string>, additional0: seq<string>, extensions0: seq<string>)
    returns (additional: seq<string>, extensions: seq<string>)
    ensures additional == additional0 + OfKind(values, Glob)
    ensures extensions == extensions0 + OfKind(values, Extension)
  {
    additional, extensions := additional0, extensions0;
    for i := 0 to |values|
      invariant additional == additional0 + OfKind(values[..i], Glob)
      invariant extensions == extensions0 + OfKind(values[..i], Extension)
    {
      var v := TrimSpace(values[i]);
      OfKindStep(values, i);
      AppendAssociative(additional0, OfKind(values[..i], Glob), [v]);
      AppendAssociative(extensions0, OfKind(values[..i], Extension), [v]);
      if v == "" {
        continue;
      }
      if ContainsAny(v, Wildcards) {
        additional := additional + [v];
      } else if v[0] == '.' {
        extensions := extensions + [v];
      } else {
        additional := additional + [v];
      }
    }
    OfKindWhole(values);
  }

  class GlobsFlag {
    var NoDefault: bool
    var Default: seq<string>
    var Additional: seq<string>
    var Extensions: seq<string>

    /** The zero value of the flag. */
    constructor ()
      ensures !NoDefault && Default == [] && Additional == [] && Extensions == []
    {
      NoDefault := false;
      Default := [];
      Additional := [];
      Extensions := [];
    }

    /** No globs and no extensions, whatever NoDefault says. */
    function IsEmpty(): (r: bool)
      reads this
      ensures r ==> All() == [] && String() == ""
      ensures !r ==> All() != [] || Extensions != [] || (NoDefault && Default != [])
    {
      |Default| == 0 && |Additional| == 0 && |Extensions| == 0
    }

    /** The globs in force: Additional alone under NoDefault, else Default then Additional. */
    function All(): (r: seq<string>)
      reads this
      ensures forall g :: g in r <==> g in Additional || (!NoDefault && g in Default)
      ensures |r| == |Additional| + (if NoDefault then 0 else |Default|)
      ensures r[|r| - |Additional|..] == Additional
      ensures !NoDefault ==> r[..|Default|] == Default
    {
      if NoDefault then Additional else Default + Additional
    }

    /** The globs in force joined by ';'; splitting gives them back. */
    function String(): (r: string)
      reads this
      ensures All() == [] ==> r == ""
      ensures |All()| >= 1 && (forall g :: g in All() ==> ';' !in g) ==> Split(r, ';') == All()
    {
      var all := All();
      if |all| >= 1 && (forall g :: g in all ==> ';' !in g) then
        SplitJoin(all, ';');
        Join(all, ";")
      else
        Join(all, ";")
    }

    /**
     * Set: appends each non-empty trimmed piece to Additional or Extensions;
     * Default and NoDefault are left alone and no error is reported.
     */
    method Set(value: string) returns (err: Option<string>)
      modifies this
      ensures err == None
      ensures NoDefault == old(NoDefault) && Default == old(Default)
      ensures Additional == old(Additional) + OfKind(Pieces(value), Glob)
      ensures Extensions == old(Extensions) + OfKind(Pieces(value), Extension)
    {
      Additional, Extensions := SetEach(Pieces(value), Additional, Extensions);
      return None;
    }

    /**
     * Matches: the file's extension equals a listed extension ignoring case,
     * or a Default or Additional glob matches its base name. `matchGlob`
     * stands for filepath.Match, a malformed pattern counting as no match.
     */
    method Matches(file: string, matchGlob: (string, string) -> bool) returns (r: bool)
      ensures r <==>
        || (exists e :: e in Extensions && EqualFold(Ext(file), e))
        || (exists g :: g in Default && matchGlob(g, Base(file)))
        || (exists g :: g in Additional && matchGlob(g, Base(file)))
    {
      var name := Base(file);
      var ext := Ext(file);
      for i := 0 to |Extensions|
        invariant forall k :: 0 <= k < i ==> !EqualFold(ext, Extensions[k])
      {
        if EqualFold(ext, Extensions[i]) {
          return true;
        }
      }
      for i := 0 to |Default|
        invariant forall k :: 0 <= k < i ==> !matchGlob(Default[k], name)
      {
        if matchGlob(Default[i], name) {
          return true;
        }
      }
      for i := 0 to |Additional|
        invariant forall k :: 0 <= k < i ==> !matchGlob(Additional[k], name)
      {
        if matchGlob(Additional[i], name) {
          return true;
        }
      }
      return false;
    }
  }

  /**
   * Feeding String's output back to Set adds the globs in force to
   * Additional and nothing to Extensions, when each is a clean glob.
   */
  lemma StringReadsBack(f: GlobsFlag)
    requires |f.All()| >= 1 && forall i :: 0 <= i < |f.All()| ==> CleanGlob(f.All()[i])
    ensures OfKind(Pieces(f.String()), Glob) == f.All()
    ensures OfKind(Pieces(f.String()), Extension) == []
  {
    PiecesOfJoin(f.All());
  }
}

/**
 * What cmd/uses and cmd/dunits share: the uses lists of a unit, the sorted
 * case-insensitive insert `includeString` / `IncludeString`, the include
 * directives they follow, and the interface/implementation state machine
 * that fills the lists from a unit's tokens.
 */
module Units {
  import opened Text
  import opened Token
  import opened Lexical
  import opened Paths

  /** A unit and the units its interface and implementation sections use. */
  datatype UnitUses = UnitUses(unit: string, interface: seq<string>, implementation: seq<string>)

  /** Strictly ascending by lower-case form: sorted, with no case-insensitive duplicates. */
  predicate SortedFold(a: seq<string>) {
    forall i, j :: 0 <= i < j < |a| ==> Less(Lower(a[i]), Lower(a[j]))
  }

  /**
   * Where the loop of includeString stops for `citem`: at the first element
   * whose lower-case form equals it or is greater, or at the end.
   */
  function InsertPoint(arr: seq<string>, citem: string): (i: nat)
    ensures i <= |arr|
    ensures forall j :: 0 <= j < i ==> Lower(arr[j]) != citem && !Less(citem, Lower(arr[j]))
    ensures i < |arr| ==> Lower(arr[i]) == citem || Less(citem, Lower(arr[i]))
  {
    if |arr| == 0 then 0
    else if Lower(arr[0]) == citem || Less(citem, Lower(arr[0])) then 0
    else 1 + InsertPoint(arr[1..], citem)
  }

  /** The stopping point is the only position with those two properties. */
  lemma {:induction false} InsertPointUnique(arr: seq<string>, citem: string, i: nat)
    requires i <= |arr|
    requires forall j :: 0 <= j < i ==> Lower(arr[j]) != citem && !Less(citem, Lower(arr[j]))
    requires i < |arr| ==> Lower(arr[i]) == citem || Less(citem, Lower(arr[i]))
    ensures InsertPoint(arr, citem) == i
  {
    if |arr| > 0 && i > 0 {
      InsertPointUnique(arr[1..], citem, i - 1);
    }
  }

  /**
   * The value includeString returns: `arr` itself when an element equals
   * `item` ignoring case, otherwise `item` put in front of the first
   * greater element.
   */
  function Include(arr: seq<string>, item: string): seq<string> {
    var i := InsertPoint(arr, Lower(item));
    if i < |arr| && Lower(arr[i]) == Lower(item) then arr else arr[..i] + [item] + arr[i..]
  }

  /**
   * includeString (cmd/uses/utils.go) and IncludeString (cmd/dunits/main.go),
   * which are the same: a search, then a one-slot growth and a shift of the
   * tail by one place.
   */
  method IncludeString(arr: seq<string>, item: string) returns (r: seq<string>)
    ensures r == Include(arr, item)
  {
    var citem := Lower(item);
    for i := 0 to |arr|
      invariant forall j :: 0 <= j < i ==> Lower(arr[j]) != citem && !Less(citem, Lower(arr[j]))
    {
      var cuse := Lower(arr[i]);
      if cuse == citem {
        InsertPointUnique(arr, citem, i);
        return arr;
      }
      if Less(citem, cuse) {
        InsertPointUnique(arr, citem, i);
        r := InsertAt(arr, i, item);
        return;
      }
    }
    InsertPointUnique(arr, citem, |arr|);
    return arr + [item];
  }

  /** The growth and shift of includeString: one empty slot at the end, the tail moved up by one, the item put at i. */
  method InsertAt(arr: seq<string>, i: nat, item: string) returns (r: seq<string>)
    requires i <= |arr|
    ensures r == arr[..i] + [item] + arr[i..]
  {
    r := arr + [""];
    var k := |arr|;
    while k > i
      invariant i <= k <= |arr| && |r| == |arr| + 1
      invariant r[..k] == arr[..k] && r[k + 1..] == arr[k..]
    {
      r := r[k := r[k - 1]];
      k := k - 1;
    }
    r := r[i := item];
    assert r[..i] == arr[..i] && r[i + 1..] == arr[i..];
  }

  /** Around the insertion point of a sorted list, elements are below, then above the item. */
  lemma InsertPointSplits(arr: seq<string>, citem: string)
    requires SortedFold(arr)
    requires var i := InsertPoint(arr, citem); !(i < |arr| && Lower(arr[i]) == citem)
    ensures var i := InsertPoint(arr, citem);
      && (forall j :: 0 <= j < i ==> Less(Lower(arr[j]), citem))
      && (forall j :: i <= j < |arr| ==> Less(citem, Lower(arr[j])))
  {
    var i := InsertPoint(arr, citem);
    forall j | 0 <= j < i
      ensures Less(Lower(arr[j]), citem)
    {
      LessTrichotomy(Lower(arr[j]), citem);
    }
    forall j | i <= j < |arr|
      ensures Less(citem, Lower(arr[j]))
    {
      if j > i {
        LessTransitive(citem, Lower(arr[i]), Lower(arr[j]));
      }
    }
  }

  /** Putting an item between the smaller and the greater elements keeps the list sorted. */
  lemma InsertKeepsSorted(arr: seq<string>, item: string, i: nat)
    requires SortedFold(arr) && i <= |arr|
    requires forall j :: 0 <= j < i ==> Less(Lower(arr[j]), Lower(item))
    requires forall j :: i <= j < |arr| ==> Less(Lower(item), Lower(arr[j]))
    ensures SortedFold(arr[..i] + [item] + arr[i..])
  {
    var r := arr[..i] + [item] + arr[i..];
    forall a, b | 0 <= a < b < |r|
      ensures Less(Lower(r[a]), Lower(r[b]))
    {
      if a < i && b > i {
        assert r[b] == arr[b - 1];
        LessTransitive(Lower(arr[a]), Lower(item), Lower(arr[b - 1]));
      } else if a == i {
        assert r[b] == arr[b - 1];
      } else if a > i {
        assert r[a] == arr[a - 1] && r[b] == arr[b - 1];
      }
    }
  }

  /** On a sorted list the insert keeps it sorted and duplicate-free. */
  lemma IncludeSorted(arr: seq<string>, item: string)
    requires SortedFold(arr)
    ensures SortedFold(Include(arr, item))
  {
    var citem := Lower(item);
    var i := InsertPoint(arr, citem);
    if !(i < |arr| && Lower(arr[i]) == citem) {
      InsertPointSplits(arr, citem);
      InsertKeepsSorted(arr, item, i);
    }
  }

  /** On a sorted list the insert changes nothing exactly when the item is already there ignoring case. */
  lemma IncludeUnchanged(arr: seq<string>, item: string)
    requires SortedFold(arr)
    ensures ContainsFold(arr, item) <==> Include(arr, item) == arr
  {
    var citem := Lower(item);
    var i := InsertPoint(arr, citem);
    if i < |arr| && Lower(arr[i]) == citem {
      assert EqualFold(arr[i], item);
    } else {
      assert |arr[..i] + [item] + arr[i..]| == |arr| + 1;
      if ContainsFold(arr, item) {
        InsertPointSplits(arr, citem);
        var j :| 0 <= j < |arr| && EqualFold(arr[j], item);
        LessIrreflexive(citem);
      }
    }
  }

  /** An item that is not there ignoring case is added, and nothing else. */
  lemma IncludeAdds(arr: seq<string>, item: string)
    ensures !ContainsFold(arr, item) ==> multiset(Include(arr, item)) == multiset(arr) + multiset{item}
  {
    var citem := Lower(item);
    var i := InsertPoint(arr, citem);
    if i < |arr| && Lower(arr[i]) == citem {
      assert EqualFold(arr[i], item);
    } else {
      InsertAdds(arr, i, item);
    }
  }

  /** Putting one element into a sequence adds just that element. */
  lemma InsertAdds<T>(a: seq<T>, i: nat, x: T)
    requires i <= |a|
    ensures multiset(a[..i] + [x] + a[i..]) == multiset(a) + multiset{x}
  {
    assert a == a[..i] + a[i..];
  }

  /** A directive cmd/uses and cmd/dunits follow: `{$i ` or `{$include `, in any case. */
  predicate IsIncludeDirective(lit: string) {
    HasPrefix(Lower(lit), "{$i ") || HasPrefix(Lower(lit), "{$include ")
  }

  /** strings.IndexRune: the index of the first occurrence of c, or -1. */
  function IndexOf(s: string, c: char): (i: int)
    ensures -1 <= i < |s|
    ensures i >= 0 ==> s[i] == c && c !in s[..i]
    ensures i < 0 ==> c !in s
  {
    if |s| == 0 then -1
    else if s[0] == c then 0
    else
      var j := IndexOf(s[1..], c);
      assert s[1..][..j + 1] == s[1..j + 2] by { }
      if j < 0 then -1 else j + 1
  }

  /** strings.Trim: leading and trailing characters of the cut set removed. */
  function Trim(s: string, cutset: set<char>): (r: string)
    ensures r == "" || (r[0] !in cutset && r[|r| - 1] !in cutset)
  {
    TrimRight(TrimLeft(s, cutset), cutset)
  }

  function TrimLeft(s: string, cutset: set<char>): (r: string)
    ensures r == "" || r[0] !in cutset
    ensures HasSuffix(s, r)
  {
    if |s| > 0 && s[0] in cutset then
      var r := TrimLeft(s[1..], cutset);
      assert s[1..][|s| - 1 - |r|..] == s[|s| - |r|..];
      r
    else s
  }

  function TrimRight(s: string, cutset: set<char>): (r: string)
    ensures r == "" || r[|r| - 1] !in cutset
    ensures HasPrefix(s, r)
  {
    if |s| > 0 && s[|s| - 1] in cutset then TrimRight(s[..|s| - 1], cutset) else s
  }

  /** TrimLeft drops characters of the cut set only. */
  lemma {:induction false} TrimLeftCut(s: string, cutset: set<char>)
    ensures forall k :: 0 <= k < |s| - |TrimLeft(s, cutset)| ==> s[k] in cutset
  {
    if |s| > 0 && s[0] in cutset {
      TrimLeftCut(s[1..], cutset);
    }
  }

  /** TrimRight drops characters of the cut set only. */
  lemma {:induction false} TrimRightCut(s: string, cutset: set<char>)
    ensures forall k :: |TrimRight(s, cutset)| <= k < |s| ==> s[k] in cutset
  {
    if |s| > 0 && s[|s| - 1] in cutset {
      TrimRightCut(s[..|s| - 1], cutset);
    }
  }

  /**
   * `r` is the middle of `s` from position i: everything dropped at either
   * end is in the cut set, and `r` is empty exactly when every character is.
   */
  predicate TrimmedFrom(s: string, r: string, i: nat, cutset: set<char>) {
    && i + |r| <= |s| && r == s[i..i + |r|]
    && (forall k :: 0 <= k < i ==> s[k] in cutset)
    && (forall k :: i + |r| <= k < |s| ==> s[k] in cutset)
    && (r == "" <==> forall k :: 0 <= k < |s| ==> s[k] in cutset)
  }

  /**
   * strings.Trim keeps the middle of the text, from the first character
   * outside the cut set to the last one.
   */
  lemma TrimSpec(s: string, cutset: set<char>)
    ensures TrimmedFrom(s, Trim(s, cutset), |s| - |TrimLeft(s, cutset)|, cutset)
  {
    var left := TrimLeft(s, cutset);
    TrimLeftCut(s, cutset);
    TrimSlice(s, left, TrimRight(left, cutset), cutset);
  }

  /** TrimSpec for `left` a suffix of `s` and `r` what TrimRight leaves of it. */
  lemma TrimSlice(s: string, left: string, r: string, cutset: set<char>)
    requires HasSuffix(s, left) && r == TrimRight(left, cutset)
    requires left == "" || left[0] !in cutset
    requires forall k :: 0 <= k < |s| - |left| ==> s[k] in cutset
    ensures TrimmedFrom(s, r, |s| - |left|, cutset)
  {
    var i := |s| - |left|;
    TrimRightCut(left, cutset);
    assert left == s[i..];
    assert r == s[i..i + |r|] by {
      assert r == left[..|r|];
    }
    assert forall k :: i + |r| <= k < |s| ==> s[k] in cutset by {
      forall k | i + |r| <= k < |s| ensures s[k] in cutset {
        assert s[k] == left[k - i];
      }
    }
    if r != "" {
      assert s[i] == r[0] && r[0] !in cutset;
    }
  }

  /** An include directive holds a space, since its prefix does. */
  lemma IncludeDirectiveHasSpace(lit: string)
    requires IsIncludeDirective(lit)
    ensures IndexOf(lit, ' ') >= 0
  {
    var k := if HasPrefix(Lower(lit), "{$i ") then 3 else 9;
    assert Lower(lit)[k] == ' ';
    assert lit[k] == ' ';
  }

  /**
   * handleInclude's key: the text from the first space, trimmed of braces,
   * quotes and spaces, without its extension, in lower case.
   */
  function IncludeKey(directive: string): string
    requires IsIncludeDirective(directive)
  {
    IncludeDirectiveHasSpace(directive);
    var p := IndexOf(directive, ' ');
    var name := Trim(directive[p..], {'{', '}', '\'', '"', ' '});
    Lower(TrimExt(name))
  }

  /**
   * What scanning depends on: the tokens the handler sees for each readable
   * file (see FileTokens), the unit and include path tables, and the
   * interface-only switch.
   */
  datatype Env = Env(tokens: map<string, seq<(Token, string)>>, path: map<string, string>,
                     incPath: map<string, string>, interfaceOnly: bool)

  /**
   * The tokens the handler sees for a file's bytes: those of a Scanner
   * driven until EOF (`direct`, cmd/dunits), or those the package-level
   * Scan delivers before its cut-off after more than ten errors (cmd/uses).
   * Comments are skipped in both; the EOF token has no effect on the lists.
   */
  function FileTokens(direct: bool, src: seq<Byte>): seq<(Token, string)> {
    if direct then Pairs(Stream(src, 0, ILLEGAL, false))
    else Drive(src, 0, Always).delivered
  }

  /**
   * One token of the state machine, other than a directive: IMPLEMENTATION
   * moves to state 2; an identifier naming a known unit other than the one
   * being scanned goes into the interface list in state 1 and into the
   * implementation list in state 2 unless only interfaces are wanted.
   */
  function Absorb(env: Env, u: UnitUses, tok: Token, lit: string, state: int): (UnitUses, int) {
    if tok == IMPLEMENTATION then (u, 2)
    else if tok != IDENT then (u, state)
    else
      var cuse := Lower(lit);
      if cuse == Lower(u.unit) || cuse !in env.path then (u, state)
      else if state == 1 then (u.(interface := Include(u.interface, lit)), state)
      else if state == 2 && !env.interfaceOnly then (u.(implementation := Include(u.implementation, lit)), state)
      else (u, state)
  }

  /**
   * scanUses / iterate on a file: a file that cannot be read changes
   * nothing; otherwise its tokens are run through the state machine.
   * `fuel` bounds the depth of nested includes.
   */
  function CollectFile(env: Env, u: UnitUses, path: string, state: int, fuel: nat): UnitUses
    decreases fuel, 2, 0
  {
    if path !in env.tokens then u else CollectTokens(env, u, env.tokens[path], 0, state, fuel)
  }

  /** The handler over the tokens from index i on, starting in `state`. */
  function CollectTokens(env: Env, u: UnitUses, toks: seq<(Token, string)>, i: nat, state: int, fuel: nat): UnitUses
    requires i <= |toks|
    decreases fuel, 1, |toks| - i
  {
    if i == |toks| then u
    else
      var (u', state') := Handle(env, u, toks[i].0, toks[i].1, state, fuel);
      CollectTokens(env, u', toks, i + 1, state', fuel)
  }

  /** One step of the scan: the first token through the handler, then the rest. */
  lemma CollectTokensStep(env: Env, u: UnitUses, toks: seq<(Token, string)>, i: nat, state: int, fuel: nat)
    requires i < |toks|
    ensures CollectTokens(env, u, toks, i, state, fuel)
      == CollectTokens(env, Handle(env, u, toks[i].0, toks[i].1, state, fuel).0, toks, i + 1,
                       Handle(env, u, toks[i].0, toks[i].1, state, fuel).1, fuel)
  {
  }

  /**
   * The handler for one token: an include directive is followed with the
   * current state, any other directive is ignored, and every other token
   * goes through the state machine.
   */
  function Handle(env: Env, u: UnitUses, tok: Token, lit: string, state: int, fuel: nat): (UnitUses, int)
    decreases fuel, 0, 1
  {
    if tok == CDIRECTIVE then
      (if IsIncludeDirective(lit) then CollectInclude(env, u, IncludeKey(lit), state, fuel) else u, state)
    else Absorb(env, u, tok, lit, state)
  }

  /**
   * handleInclude: an include found in the include table is scanned with
   * the current state, which does not flow back; an unknown one is skipped.
   */
  function CollectInclude(env: Env, u: UnitUses, key: string, state: int, fuel: nat): UnitUses
    decreases fuel, 0, 0
  {
    if key !in env.incPath || fuel == 0 then u
    else CollectFile(env, u, env.incPath[key], state, fuel - 1)
  }

  /** A known include is scanned with one unit of fuel less. */
  lemma CollectIncludeStep(env: Env, u: UnitUses, key: string, state: int, fuel: nat, depth: nat, r: UnitUses)
    requires key in env.incPath && depth + 1 == fuel
    requires r == CollectFile(env, u, env.incPath[key], state, depth)
    ensures r == CollectInclude(env, u, key, state, fuel)
  {
  }

  /**
   * What scanning does to a unit's lists: the unit name stays, sorted lists
   * stay sorted, nothing is removed, every added name is a known unit other
   * than the one scanned, and with only interfaces wanted the
   * implementation list is untouched.
   */
  predicate Grows(env: Env, u: UnitUses, r: UnitUses) {
    && r.unit == u.unit
    && (SortedFold(u.interface) ==> SortedFold(r.interface))
    && (SortedFold(u.implementation) ==> SortedFold(r.implementation))
    && (forall x :: x in u.interface ==> x in r.interface)
    && (forall x :: x in u.implementation ==> x in r.implementation)
    && (forall x :: x in r.interface && x !in u.interface ==> Lower(x) in env.path && Lower(x) != Lower(u.unit))
    && (forall x :: x in r.implementation && x !in u.implementation ==> Lower(x) in env.path && Lower(x) != Lower(u.unit))
    && (env.interfaceOnly ==> r.implementation == u.implementation)
  }

  lemma GrowsTransitive(env: Env, u1: UnitUses, u2: UnitUses, u3: UnitUses)
    requires Grows(env, u1, u2) && Grows(env, u2, u3)
    ensures Grows(env, u1, u3)
  {
  }

  /** Inserting into a list keeps what was there and adds only the item. */
  lemma IncludeMembers(arr: seq<string>, item: string)
    ensures forall x :: x in arr ==> x in Include(arr, item)
    ensures forall x :: x in Include(arr, item) && x !in arr ==> x == item
  {
    var i := InsertPoint(arr, Lower(item));
    assert arr == arr[..i] + arr[i..];
  }

  lemma GrowsReflexive(env: Env, u: UnitUses)
    ensures Grows(env, u, u)
  {
  }

  lemma IncludeInterfaceGrows(env: Env, u: UnitUses, lit: string)
    requires Lower(lit) in env.path && Lower(lit) != Lower(u.unit)
    ensures Grows(env, u, u.(interface := Include(u.interface, lit)))
  {
    IncludeMembers(u.interface, lit);
    if SortedFold(u.interface) {
      IncludeSorted(u.interface, lit);
    }
  }

  lemma IncludeImplementationGrows(env: Env, u: UnitUses, lit: string)
    requires Lower(lit) in env.path && Lower(lit) != Lower(u.unit) && !env.interfaceOnly
    ensures Grows(env, u, u.(implementation := Include(u.implementation, lit)))
  {
    IncludeMembers(u.implementation, lit);
    if SortedFold(u.implementation) {
      IncludeSorted(u.implementation, lit);
    }
  }

  lemma AbsorbGrows(env: Env, u: UnitUses, tok: Token, lit: string, state: int)
    ensures Grows(env, u, Absorb(env, u, tok, lit, state).0)
  {
    var cuse := Lower(lit);
    if tok != IDENT || cuse == Lower(u.unit) || cuse !in env.path {
      GrowsReflexive(env, u);
    } else if state == 1 {
      IncludeInterfaceGrows(env, u, lit);
    } else if state == 2 && !env.interfaceOnly {
      IncludeImplementationGrows(env, u, lit);
    } else {
      GrowsReflexive(env, u);
    }
  }

  /** Scanning a file, with everything it includes, only grows the lists as Grows says. */
  lemma {:induction false} CollectFileGrows(env: Env, u: UnitUses, path: string, state: int, fuel: nat)
    ensures Grows(env, u, CollectFile(env, u, path, state, fuel))
    decreases fuel, 2, 0
  {
    if path in env.tokens {
      CollectTokensGrows(env, u, env.tokens[path], 0, state, fuel);
    }
  }

  lemma {:induction false} CollectTokensGrows(env: Env, u: UnitUses, toks: seq<(Token, string)>, i: nat, state: int, fuel: nat)
    requires i <= |toks|
    ensures Grows(env, u, CollectTokens(env, u, toks, i, state, fuel))
    decreases fuel, 1, |toks| - i
  {
    if i < |toks| {
      var (u', state') := Handle(env, u, toks[i].0, toks[i].1, state, fuel);
      HandleGrows(env, u, toks[i].0, toks[i].1, state, fuel);
      CollectTokensGrows(env, u', toks, i + 1, state', fuel);
      GrowsTransitive(env, u, u', CollectTokens(env, u', toks, i + 1, state', fuel));
    }
  }

  lemma {:induction false} HandleGrows(env: Env, u: UnitUses, tok: Token, lit: string, state: int, fuel: nat)
    ensures Grows(env, u, Handle(env, u, tok, lit, state, fuel).0)
    decreases fuel, 0, 1
  {
    if tok != CDIRECTIVE {
      AbsorbGrows(env, u, tok, lit, state);
    } else if IsIncludeDirective(lit) {
      CollectIncludeGrows(env, u, IncludeKey(lit), state, fuel);
    } else {
      GrowsReflexive(env, u);
    }
  }

  lemma {:induction false} CollectIncludeGrows(env: Env, u: UnitUses, key: string, state: int, fuel: nat)
    ensures Grows(env, u, CollectInclude(env, u, key, state, fuel))
    decreases fuel, 0, 0
  {
    if key in env.incPath && fuel > 0 {
      CollectFileGrows(env, u, env.incPath[key], state, fuel - 1);
    } else {
      GrowsReflexive(env, u);
    }
  }

  /**
   * Once in state 2 (after IMPLEMENTATION), nothing more reaches the
   * interface list, in the file or in anything it includes.
   */
  lemma {:induction false} ImplementationStateKeepsInterface(env: Env, u: UnitUses, path: string, fuel: nat)
    ensures CollectFile(env, u, path, 2, fuel).interface == u.interface
    decreases fuel, 2, 0
  {
    if path in env.tokens {
      TokensKeepInterface(env, u, env.tokens[path], 0, fuel);
    }
  }

  lemma {:induction false} TokensKeepInterface(env: Env, u: UnitUses, toks: seq<(Token, string)>, i: nat, fuel: nat)
    requires i <= |toks|
    ensures CollectTokens(env, u, toks, i, 2, fuel).interface == u.interface
    decreases fuel, 1, |toks| - i
  {
    if i < |toks| {
      var (tok, lit) := toks[i];
      var h := Handle(env, u, tok, lit, 2, fuel);
      if tok != CDIRECTIVE {
        assert h == Absorb(env, u, tok, lit, 2);
      } else if IsIncludeDirective(lit) {
        var key := IncludeKey(lit);
        assert h == (CollectInclude(env, u, key, 2, fuel), 2);
        if key in env.incPath && fuel > 0 {
          ImplementationStateKeepsInterface(env, u, env.incPath[key], fuel - 1);
        }
      }
      TokensKeepInterface(env, h.0, toks, i + 1, fuel);
    }
  }
}

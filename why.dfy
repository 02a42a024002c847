/**
 * `Why` of cmd/uses/why.go: every chain of "is used by" links that leads
 * from a unit up to one of the root files of an index.
 *
 * The reverse graph `usedBy` maps a lower-case unit name to the sorted,
 * duplicate-free list of the (lower-case) entries that mention it. A depth
 * first walk climbs it from the target; each time it stands on a root it
 * records the chain it climbed, written from the top down as ">a>b>c".
 */
module Why {
  import opened Text
  import opened Paths
  import opened Units
  import opened UsesIndex

  /** `usedBy[t]`, which is nil for a unit nobody mentions. */
  function Parents(usedBy: map<string, seq<string>>, t: string): seq<string> {
    if t in usedBy then usedBy[t] else []
  }

  /** The units some list of `usedBy` holds. */
  function Nodes(usedBy: map<string, seq<string>>): set<string> {
    set t, p | t in usedBy && p in usedBy[t] :: p
  }

  /** `U` holds every parent: the walk never leaves it. */
  predicate ParentsIn(usedBy: map<string, seq<string>>, U: set<string>) {
    forall t, p :: t in usedBy && p in usedBy[t] ==> p in U
  }

  // ---------------------------------------------------------------- reverse graph

  /** Every element is its own lower-case form. */
  predicate Lowered(s: seq<string>) {
    forall x :: x in s ==> Lower(x) == x
  }

  /** The shape includeString gives each list: non-empty, lower case, strictly sorted. */
  predicate ListsOK(m: map<string, seq<string>>) {
    forall t :: t in m ==> |m[t]| > 0 && SortedFold(m[t]) && Lowered(m[t])
  }

  /** The parents recorded for `t`. */
  function Listed(m: map<string, seq<string>>, t: string): set<string> {
    if t in m then Elems(m[t]) else {}
  }

  /** The lower-case names of the entries among `done` whose lists mention `t`. */
  function Users(uses: map<string, UnitUses>, done: set<string>, t: string): set<string> {
    set k | k in done && k in uses && t in LowerSet(Used(uses[k])) :: Lower(k)
  }

  /** What the first loop of Why builds: for each unit, exactly the entries that mention it. */
  ghost predicate UsedByOK(uses: map<string, UnitUses>, usedBy: map<string, seq<string>>) {
    ListsOK(usedBy) && forall t :: Listed(usedBy, t) == Users(uses, uses.Keys, t)
  }

  /** includeString of a lower-case name into a lower-case list always leaves the name in it. */
  lemma IncludeHas(arr: seq<string>, item: string)
    requires Lowered(arr) && Lower(item) == item
    ensures item in Include(arr, item)
  {
    var i := InsertPoint(arr, Lower(item));
    if i < |arr| && Lower(arr[i]) == Lower(item) {
      assert arr[i] in arr;
    } else {
      assert Include(arr, item)[i] == item;
    }
  }

  /** One call of includeString keeps the shape of the lists and adds `p` under `t` only. */
  lemma AddUser(m: map<string, seq<string>>, t: string, p: string)
    requires ListsOK(m) && Lower(p) == p
    ensures ListsOK(m[t := Include(Parents(m, t), p)])
    ensures forall t' :: Listed(m[t := Include(Parents(m, t), p)], t') == Listed(m, t') + (if t' == t then {p} else {})
  {
    var old' := Parents(m, t);
    var new' := Include(old', p);
    IncludeMembers(old', p);
    IncludeHas(old', p);
    IncludeSorted(old', p);
    assert Elems(new') == Elems(old') + {p};
  }

  /** The lower-case forms of a prefix one longer. */
  lemma LowerSetStep(s: seq<string>, i: nat)
    requires i < |s|
    ensures LowerSet(s[..i + 1]) == LowerSet(s[..i]) + {Lower(s[i])}
  {
    assert s[..i + 1] == s[..i] + [s[i]];
  }

  lemma LowerSetAppend(a: seq<string>, b: seq<string>)
    ensures LowerSet(a + b) == LowerSet(a) + LowerSet(b)
  {
  }

  /** One more processed entry adds its name under each unit it mentions. */
  lemma UsersStep(uses: map<string, UnitUses>, done: set<string>, k: string)
    requires k in uses
    ensures forall t :: Users(uses, done + {k}, t) == Users(uses, done, t) + (if t in LowerSet(Used(uses[k])) then {Lower(k)} else {})
  {
  }

  /** One loop of Why over a list of targets, adding `path` under each one's lower-case form. */
  method AddAll(usedBy: map<string, seq<string>>, targets: seq<string>, path: string) returns (m: map<string, seq<string>>)
    requires ListsOK(usedBy) && Lower(path) == path
    ensures ListsOK(m)
    ensures forall t :: Listed(m, t) == Listed(usedBy, t) + (if t in LowerSet(targets) then {path} else {})
  {
    m := usedBy;
    for i := 0 to |targets|
      invariant ListsOK(m)
      invariant forall t :: Listed(m, t) == Listed(usedBy, t) + (if t in LowerSet(targets[..i]) then {path} else {})
    {
      var target := Lower(targets[i]);
      var list := IncludeString(Parents(m, target), path);
      AddUser(m, target, path);
      LowerSetStep(targets, i);
      m := m[target := list];
    }
    assert targets[..|targets|] == targets;
  }

  /** The first loop of Why, over the entries of the index in an arbitrary order. */
  method BuildUsedBy(uses: map<string, UnitUses>) returns (usedBy: map<string, seq<string>>)
    ensures UsedByOK(uses, usedBy)
  {
    usedBy := map[];
    var todo := uses.Keys;
    while todo != {}
      invariant todo <= uses.Keys
      invariant ListsOK(usedBy)
      invariant forall t :: Listed(usedBy, t) == Users(uses, uses.Keys - todo, t)
      decreases todo
    {
      var key :| key in todo;
      var path := Lower(key);
      LowerIdempotent(key);
      var m := AddAll(usedBy, uses[key].interface, path);
      usedBy := AddAll(m, uses[key].implementation, path);
      LowerSetAppend(uses[key].interface, uses[key].implementation);
      UsersStep(uses, uses.Keys - todo, key);
      assert uses.Keys - (todo - {key}) == (uses.Keys - todo) + {key};
      todo := todo - {key};
    }
  }

  /** A strictly sorted lower-case list is ascending in Go's string order. */
  lemma LoweredAscending(a: seq<string>)
    requires SortedFold(a) && Lowered(a)
    ensures Ascending(a)
  {
    forall i, j | 0 <= i < j < |a|
      ensures Less(a[i], a[j])
    {
      assert a[i] in a && a[j] in a;
    }
  }

  /**
   * The reverse graph does not depend on the order in which the entries of
   * the index were visited: there is only one map of that shape.
   */
  lemma UsedByUnique(uses: map<string, UnitUses>, a: map<string, seq<string>>, b: map<string, seq<string>>)
    requires UsedByOK(uses, a) && UsedByOK(uses, b)
    ensures a == b
  {
    forall t | t in a
      ensures t in b && a[t] == b[t]
    {
      assert Listed(a, t) == Listed(b, t);
      assert a[t][0] in Listed(a, t);
      LoweredAscending(a[t]);
      LoweredAscending(b[t]);
      AscendingUnique(a[t], b[t]);
    }
    forall t | t in b
      ensures t in a
    {
      assert Listed(a, t) == Listed(b, t);
      assert b[t][0] in Listed(b, t);
    }
  }

  // ---------------------------------------------------------------- the walk

  /** The text recorded for a chain: '>' and each unit, from the last one back to the first. */
  function Reason(chain: seq<string>): string {
    if |chain| == 0 then "" else ">" + chain[|chain| - 1] + Reason(chain[..|chain| - 1])
  }

  /** Growing the chain by a unit it lacks shrinks what is left of `U`. */
  lemma ChainGrows(U: set<string>, chain: seq<string>, t: string)
    requires t in U && (forall c :: c in chain ==> c in U) && !ContainsFold(chain, t)
    ensures |U - Elems(chain + [t])| < |U - Elems(chain)|
  {
    assert EqualFold(t, t);
    assert t !in chain;
    assert U - Elems(chain + [t]) == (U - Elems(chain)) - {t};
  }

  /**
   * The reasons `reverse(target, chain)` appends, in order: one for a root,
   * none for a unit already on the chain (compared ignoring case), otherwise
   * those of each parent in turn with the target pushed on the chain.
   */
  function Walk(usedBy: map<string, seq<string>>, roots: set<string>, U: set<string>, target: string, chain: seq<string>): (r: seq<string>)
    requires target in U && (forall c :: c in chain ==> c in U) && ParentsIn(usedBy, U)
    decreases |U - Elems(chain)|, 0, 0
  {
    if target in roots then [Reason(chain)]
    else if ContainsFold(chain, target) then []
    else
      ChainGrows(U, chain, target);
      WalkAll(usedBy, roots, U, Parents(usedBy, target), chain + [target])
  }

  /** The reasons of the loop over `parents`, each walked with the same chain. */
  function WalkAll(usedBy: map<string, seq<string>>, roots: set<string>, U: set<string>, parents: seq<string>, chain: seq<string>): (r: seq<string>)
    requires (forall p :: p in parents ==> p in U) && (forall c :: c in chain ==> c in U) && ParentsIn(usedBy, U)
    decreases |U - Elems(chain)|, 1, |parents|
  {
    if |parents| == 0 then []
    else
      WalkAll(usedBy, roots, U, parents[..|parents| - 1], chain)
      + Walk(usedBy, roots, U, parents[|parents| - 1], chain)
  }

  /** The loop that writes a reason, walking the chain downwards. */
  method Render(chain: seq<string>) returns (reason: string)
    ensures reason == Reason(chain)
  {
    reason := "";
    var i := |chain|;
    assert chain[..i] == chain;
    while i > 0
      invariant 0 <= i <= |chain|
      invariant reason + Reason(chain[..i]) == Reason(chain)
      decreases i
    {
      i := i - 1;
      assert chain[..i + 1][..i] == chain[..i];
      assert Reason(chain[..i + 1]) == ">" + chain[i] + Reason(chain[..i]);
      assert reason + Reason(chain[..i + 1]) == (reason + ">" + chain[i]) + Reason(chain[..i]);
      reason := reason + ">" + chain[i];
    }
  }

  /** The recursive closure `reverse`; `found` are the reasons it appends. */
  method Reverse(usedBy: map<string, seq<string>>, roots: set<string>, ghost U: set<string>, target: string, chain: seq<string>)
    returns (found: seq<string>)
    requires target in U && (forall c :: c in chain ==> c in U) && ParentsIn(usedBy, U)
    ensures found == Walk(usedBy, roots, U, target, chain)
    decreases |U - Elems(chain)|, 0, 0
  {
    if target in roots {
      var reason := Render(chain);
      return [reason];
    }
    var seen := Contains(target, chain);
    if seen {
      return [];
    }
    ChainGrows(U, chain, target);
    var chain' := chain + [target];
    var parents := Parents(usedBy, target);
    found := [];
    for i := 0 to |parents|
      invariant found == WalkAll(usedBy, roots, U, parents[..i], chain')
    {
      assert parents[..i + 1][..i] == parents[..i];
      var more := Reverse(usedBy, roots, U, parents[i], chain');
      found := found + more;
    }
    assert parents[..|parents|] == parents;
  }

  /** Every unit the walk from `t` can reach, `t` included. */
  function Universe(usedBy: map<string, seq<string>>, t: string): (U: set<string>)
    ensures t in U && ParentsIn(usedBy, U)
  {
    Nodes(usedBy) + {t}
  }

  /**
   * Why: the reverse graph of the index, its lower-case root names, and the
   * walk from the lower-case base name of `mainTarget` without its extension.
   * `usedBy` is ghost because the loop that fills it visits the entries in
   * map order; UsedByUnique shows the outcome does not depend on it.
   */
  method Why(index: Index, mainTarget: string) returns (reasons: seq<string>, ghost usedBy: map<string, seq<string>>)
    ensures UsedByOK(index.Uses, usedBy)
    ensures reasons == Walk(usedBy, LowerSet(index.RootFiles), Universe(usedBy, Lower(TrimExt(Base(mainTarget)))),
                            Lower(TrimExt(Base(mainTarget))), [])
  {
    var target := TrimExt(Base(mainTarget));
    var graph := BuildUsedBy(index.Uses);
    usedBy := graph;
    var roots: set<string> := {};
    for i := 0 to |index.RootFiles|
      invariant roots == LowerSet(index.RootFiles[..i])
    {
      LowerSetStep(index.RootFiles, i);
      roots := roots + {Lower(index.RootFiles[i])};
    }
    assert index.RootFiles[..|index.RootFiles|] == index.RootFiles;
    reasons := Reverse(graph, roots, Universe(graph, Lower(target)), Lower(target), []);
  }

  // ---------------------------------------------------------------- what the reasons mean

  /** A chain climbed from `t0`: linked by "is used by", without repeats, with no root on it. */
  ghost predicate Climb(usedBy: map<string, seq<string>>, roots: set<string>, t0: string, c: seq<string>) {
    && (|c| > 0 ==> c[0] == t0)
    && (forall i :: 0 <= i < |c| - 1 ==> c[i + 1] in Parents(usedBy, c[i]))
    && (forall i :: 0 <= i < |c| ==> c[i] !in roots)
    && (forall i, j :: 0 <= i < j < |c| ==> c[i] != c[j])
  }

  /** A climb whose next step is the root `p` (for the empty climb, `t0` is that root). */
  ghost predicate Trail(usedBy: map<string, seq<string>>, roots: set<string>, t0: string, c: seq<string>, p: string) {
    && Climb(usedBy, roots, t0, c)
    && p in roots
    && (if |c| == 0 then p == t0 else p in Parents(usedBy, c[|c| - 1]))
  }

  /** Some root ends the climb `c`. */
  ghost predicate Reaches(usedBy: map<string, seq<string>>, roots: set<string>, t0: string, c: seq<string>) {
    exists p :: Trail(usedBy, roots, t0, c, p)
  }

  /** A unit that is no root and not yet on the chain is walked through its parents. */
  lemma WalkUnfold(usedBy: map<string, seq<string>>, roots: set<string>, U: set<string>, target: string, chain: seq<string>)
    requires target in U && (forall c :: c in chain ==> c in U) && ParentsIn(usedBy, U)
    requires target !in roots && !ContainsFold(chain, target)
    ensures Walk(usedBy, roots, U, target, chain) == WalkAll(usedBy, roots, U, Parents(usedBy, target), chain + [target])
  {
  }

  /** Stepping to a parent that is no root and not yet on the chain keeps it a climb. */
  lemma ClimbGrows(usedBy: map<string, seq<string>>, roots: set<string>, t0: string, chain: seq<string>, target: string)
    requires Climb(usedBy, roots, t0, chain)
    requires if |chain| == 0 then target == t0 else target in Parents(usedBy, chain[|chain| - 1])
    requires target !in roots && !ContainsFold(chain, target)
    ensures Climb(usedBy, roots, t0, chain + [target])
  {
    assert EqualFold(target, target);
    assert target !in chain;
  }

  /** Soundness of one call: each reason found from a climb is the reason of a trail. */
  lemma {:induction false} WalkSound(usedBy: map<string, seq<string>>, roots: set<string>, U: set<string>, t0: string,
                                     target: string, chain: seq<string>)
    requires target in U && (forall c :: c in chain ==> c in U) && ParentsIn(usedBy, U)
    requires Climb(usedBy, roots, t0, chain)
    requires if |chain| == 0 then target == t0 else target in Parents(usedBy, chain[|chain| - 1])
    ensures forall r :: r in Walk(usedBy, roots, U, target, chain) ==> exists c :: Reaches(usedBy, roots, t0, c) && r == Reason(c)
    decreases |U - Elems(chain)|, 0, 0
  {
    if target in roots {
      assert Trail(usedBy, roots, t0, chain, target);
      assert Reaches(usedBy, roots, t0, chain);
    } else if !ContainsFold(chain, target) {
      ChainGrows(U, chain, target);
      ClimbGrows(usedBy, roots, t0, chain, target);
      WalkUnfold(usedBy, roots, U, target, chain);
      WalkAllSound(usedBy, roots, U, t0, Parents(usedBy, target), chain + [target]);
    }
  }

  lemma {:induction false} WalkAllSound(usedBy: map<string, seq<string>>, roots: set<string>, U: set<string>, t0: string,
                                        parents: seq<string>, chain: seq<string>)
    requires (forall p :: p in parents ==> p in U) && (forall c :: c in chain ==> c in U) && ParentsIn(usedBy, U)
    requires Climb(usedBy, roots, t0, chain) && |chain| > 0
    requires forall p :: p in parents ==> p in Parents(usedBy, chain[|chain| - 1])
    ensures forall r :: r in WalkAll(usedBy, roots, U, parents, chain) ==> exists c :: Reaches(usedBy, roots, t0, c) && r == Reason(c)
    decreases |U - Elems(chain)|, 1, |parents|
  {
    if |parents| > 0 {
      PrefixMembers(parents, |parents| - 1);
      WalkAllSound(usedBy, roots, U, t0, parents[..|parents| - 1], chain);
      WalkSound(usedBy, roots, U, t0, parents[|parents| - 1], chain);
    }
  }

  /** A reason found for one parent is among those of the whole loop. */
  lemma {:induction false} WalkAllHas(usedBy: map<string, seq<string>>, roots: set<string>, U: set<string>,
                                      parents: seq<string>, chain: seq<string>, i: nat, r: string)
    requires (forall p :: p in parents ==> p in U) && (forall c :: c in chain ==> c in U) && ParentsIn(usedBy, U)
    requires i < |parents| && r in Walk(usedBy, roots, U, parents[i], chain)
    ensures r in WalkAll(usedBy, roots, U, parents, chain)
    decreases |parents|
  {
    if i < |parents| - 1 {
      WalkAllHas(usedBy, roots, U, parents[..|parents| - 1], chain, i, r);
    }
  }

  /** Lower-case units differ under case folding exactly when they differ. */
  lemma NotOnChain(c: seq<string>, k: nat)
    requires k < |c| && Lowered(c) && forall i, j :: 0 <= i < j < |c| ==> c[i] != c[j]
    ensures !ContainsFold(c[..k], c[k])
  {
    forall j | 0 <= j < k
      ensures !EqualFold(c[..k][j], c[k])
    {
      assert c[j] in c && c[k] in c;
    }
  }

  /** Completeness, from step `k` of a trail: the walk standing there finds the trail's reason. */
  lemma {:induction false} WalkFinds(usedBy: map<string, seq<string>>, roots: set<string>, U: set<string>, t0: string,
                                     c: seq<string>, p: string, k: nat)
    requires ParentsIn(usedBy, U) && Trail(usedBy, roots, t0, c, p) && Lowered(c)
    requires (forall x :: x in c ==> x in U) && p in U
    requires k <= |c|
    ensures Reason(c) in Walk(usedBy, roots, U, if k < |c| then c[k] else p, c[..k])
    decreases |c| - k
  {
    if k == |c| {
      assert c[..k] == c;
    } else {
      WalkFinds(usedBy, roots, U, t0, c, p, k + 1);
      TrailStep(usedBy, roots, t0, c, p, k);
      PrefixMembers(c, k);
      assert c[..k] + [c[k]] == c[..k + 1];
      assert c[k] in c;
      WalkHasParent(usedBy, roots, U, c[k], c[..k], if k + 1 < |c| then c[k + 1] else p, Reason(c));
    }
  }

  /** A reason the walk finds from a parent, it also finds from the unit itself. */
  lemma WalkHasParent(usedBy: map<string, seq<string>>, roots: set<string>, U: set<string>,
                      target: string, chain: seq<string>, next: string, r: string)
    requires target in U && (forall c :: c in chain ==> c in U) && ParentsIn(usedBy, U)
    requires target !in roots && !ContainsFold(chain, target)
    requires next in Parents(usedBy, target) && next in U
    requires r in Walk(usedBy, roots, U, next, chain + [target])
    ensures r in Walk(usedBy, roots, U, target, chain)
  {
    WalkUnfold(usedBy, roots, U, target, chain);
    var parents := Parents(usedBy, target);
    var i :| 0 <= i < |parents| && parents[i] == next;
    WalkAllHas(usedBy, roots, U, parents, chain + [target], i, r);
  }

  /** Step `k` of a trail: no root, not met before, and the next unit is one of its parents. */
  lemma TrailStep(usedBy: map<string, seq<string>>, roots: set<string>, t0: string, c: seq<string>, p: string, k: nat)
    requires Trail(usedBy, roots, t0, c, p) && Lowered(c) && k < |c|
    ensures c[k] !in roots && !ContainsFold(c[..k], c[k])
    ensures (if k + 1 < |c| then c[k + 1] else p) in Parents(usedBy, c[k])
  {
    NotOnChain(c, k);
  }

  /** The units of a climb from a lower-case target are lower case and within the universe. */
  lemma ClimbInside(usedBy: map<string, seq<string>>, roots: set<string>, t0: string, c: seq<string>, p: string)
    requires ListsOK(usedBy) && Lower(t0) == t0 && Trail(usedBy, roots, t0, c, p)
    ensures Lowered(c) && (forall x :: x in c ==> x in Universe(usedBy, t0)) && p in Universe(usedBy, t0)
  {
    forall i | 0 <= i < |c|
      ensures Lower(c[i]) == c[i] && c[i] in Universe(usedBy, t0)
    {
      if i > 0 {
        assert c[i] in Parents(usedBy, c[i - 1]);
        assert c[i - 1] in usedBy;
      }
    }
  }

  /**
   * What Why returns: exactly the reasons of the trails from the target,
   * i.e. of the chains of distinct non-root units, each used by the next,
   * that end below a root.
   */
  lemma WhyReasons(usedBy: map<string, seq<string>>, roots: set<string>, t0: string)
    requires ListsOK(usedBy) && Lower(t0) == t0
    ensures forall r :: r in Walk(usedBy, roots, Universe(usedBy, t0), t0, []) <==> exists c :: Reaches(usedBy, roots, t0, c) && r == Reason(c)
  {
    var U := Universe(usedBy, t0);
    WalkSound(usedBy, roots, U, t0, t0, []);
    forall r, c | Reaches(usedBy, roots, t0, c) && r == Reason(c)
      ensures r in Walk(usedBy, roots, U, t0, [])
    {
      var p :| Trail(usedBy, roots, t0, c, p);
      ClimbInside(usedBy, roots, t0, c, p);
      WalkFinds(usedBy, roots, U, t0, c, p, 0);
      assert c[..0] == [];
    }
  }

  /** A root target has the single empty reason. */
  lemma WhyRoot(usedBy: map<string, seq<string>>, roots: set<string>, t0: string)
    requires t0 in roots
    ensures Walk(usedBy, roots, Universe(usedBy, t0), t0, []) == [""]
  {
  }

  /** A unit that is no root and that nobody uses has no reason. */
  lemma WhyUnused(usedBy: map<string, seq<string>>, roots: set<string>, t0: string)
    requires t0 !in roots && t0 !in usedBy
    ensures Walk(usedBy, roots, Universe(usedBy, t0), t0, []) == []
  {
    assert !ContainsFold([], t0);
  }
}

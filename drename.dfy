/**
 * cmd/drename: batch renaming of identifiers. A batch maps unit names to
 * the identifiers to rename in code that uses the unit, and each identifier
 * to its replacement. A file is rewritten token by token: the bytes between
 * tokens are copied, and an identifier that a unit named earlier in the file
 * maps is replaced.
 */
module Rename {
  import opened Text
  import opened Token
  import opened Lexical
  import opened LexicalFacts
  import opened Scanning

  /** A unit's renames: identifier to replacement. */
  type Mapping = map<string, string>

  /** The lower-case forms of a set of names. */
  function LowerOf(names: set<string>): set<string> {
    set x | x in names :: Lower(x)
  }

  /** No two names of the set differ only in case. */
  predicate FoldDistinct(names: set<string>) {
    forall a, b :: a in names && b in names && Lower(a) == Lower(b) ==> a == b
  }

  /**
   * c is m with every key in lower case and every replacement kept: each key
   * of c comes from a key of m that lower-cases to it, with that key's value.
   */
  predicate CanonicalOf(m: Mapping, c: Mapping) {
    && c.Keys == LowerOf(m.Keys)
    && forall i :: i in c ==> exists j :: j in m && Lower(j) == i && c[i] == m[j]
  }

  /** When no two keys of m differ only in case, each key's value is found under its lower-case form. */
  lemma CanonicalDistinct(m: Mapping, c: Mapping)
    requires CanonicalOf(m, c) && FoldDistinct(m.Keys)
    ensures forall j :: j in m ==> Lower(j) in c && c[Lower(j)] == m[j]
  {
    forall j | j in m
      ensures Lower(j) in c && c[Lower(j)] == m[j]
    {
      assert Lower(j) in LowerOf(m.Keys);
      var j' :| j' in m && Lower(j') == Lower(j) && c[Lower(j)] == m[j'];
    }
  }

  /** The inner loop of canonicalize: a fresh mapping keyed by Canonical identifiers. */
  method CanonicalMapping(m: Mapping) returns (c: Mapping)
    ensures CanonicalOf(m, c)
  {
    c := map[];
    var todo := m.Keys;
    while todo != {}
      invariant todo <= m.Keys
      invariant c.Keys == LowerOf(m.Keys - todo)
      invariant forall i :: i in c ==> exists j :: j in m && Lower(j) == i && c[i] == m[j]
      decreases |todo|
    {
      var ident :| ident in todo;
      c := c[Lower(ident) := m[ident]];
      todo := todo - {ident};
      assert m.Keys - todo == (m.Keys - (todo + {ident})) + {ident};
    }
    assert m.Keys - todo == m.Keys;
  }

  /** One (unit, identifier, replacement) triple of a batch. */
  datatype Entry = Entry(unit: string, ident: string, name: string)

  predicate IsEntry(units: map<string, Mapping>, e: Entry) {
    e.unit in units && e.ident in units[e.unit] && units[e.unit][e.ident] == e.name
  }

  /** No two different entries have replacements that differ only in case. */
  ghost predicate ValuesFoldDistinct(units: map<string, Mapping>) {
    forall e, f :: IsEntry(units, e) && IsEntry(units, f) && e != f ==> Lower(e.name) != Lower(f.name)
  }

  /** The lower-case replacements of the entries visited so far: the keys of `duplicate`. */
  function Folded(vs: seq<Entry>): set<string> {
    set k | 0 <= k < |vs| :: Lower(vs[k].name)
  }

  /** CheckDuplicates' report for entries visited in this order: "unit: name" for each repeated replacement. */
  function DupErrors(vs: seq<Entry>): seq<string>
    decreases |vs|
  {
    if |vs| == 0 then []
    else
      var e := vs[|vs| - 1];
      DupErrors(vs[..|vs| - 1]) + (if Lower(e.name) in Folded(vs[..|vs| - 1]) then [e.unit + ": " + e.name] else [])
  }

  /** The visited replacements are pairwise different in lower case. */
  predicate NamesFoldDistinct(vs: seq<Entry>) {
    forall a, b :: 0 <= a < b < |vs| ==> Lower(vs[a].name) != Lower(vs[b].name)
  }

  /** No error is reported exactly when no replacement repeats another in lower case. */
  lemma {:induction false} DupErrorsNone(vs: seq<Entry>)
    ensures |DupErrors(vs)| == 0 <==> NamesFoldDistinct(vs)
    decreases |vs|
  {
    if |vs| > 0 {
      var front := vs[..|vs| - 1];
      DupErrorsNone(front);
      var e := vs[|vs| - 1];
      if Lower(e.name) in Folded(front) {
        var a :| 0 <= a < |front| && Lower(front[a].name) == Lower(e.name);
        assert Lower(vs[a].name) == Lower(vs[|vs| - 1].name);
      } else if NamesFoldDistinct(front) {
        forall a, b | 0 <= a < b < |vs|
          ensures Lower(vs[a].name) != Lower(vs[b].name)
        {
          if b < |vs| - 1 {
            assert vs[a] == front[a] && vs[b] == front[b];
          } else {
            assert Lower(front[a].name) in Folded(front);
          }
        }
      } else {
        var a, b :| 0 <= a < b < |front| && Lower(front[a].name) == Lower(front[b].name);
        assert vs[a] == front[a] && vs[b] == front[b];
      }
    }
  }

  /** Over an enumeration of a batch's entries, each entry once, the two notions of distinctness agree. */
  lemma EnumerationDistinct(units: map<string, Mapping>, vs: seq<Entry>)
    requires Distinct(vs)
    requires forall e :: e in vs <==> IsEntry(units, e)
    ensures NamesFoldDistinct(vs) <==> ValuesFoldDistinct(units)
  {
    if NamesFoldDistinct(vs) {
      forall e, f | IsEntry(units, e) && IsEntry(units, f) && e != f
        ensures Lower(e.name) != Lower(f.name)
      {
        var a :| 0 <= a < |vs| && vs[a] == e;
        var b :| 0 <= b < |vs| && vs[b] == f;
        assert a != b;
        if a < b {
          assert Lower(vs[a].name) != Lower(vs[b].name);
        } else {
          assert Lower(vs[b].name) != Lower(vs[a].name);
        }
      }
    }
    if ValuesFoldDistinct(units) {
      forall a, b | 0 <= a < b < |vs|
        ensures Lower(vs[a].name) != Lower(vs[b].name)
      {
        assert vs[a] in vs && vs[b] in vs;
        assert vs[a] != vs[b];
      }
    }
  }

  /** Appending one visited entry to the report. */
  lemma DupErrorsSnoc(vs: seq<Entry>, e: Entry)
    ensures DupErrors(vs + [e]) == DupErrors(vs) + (if Lower(e.name) in Folded(vs) then [e.unit + ": " + e.name] else [])
    ensures Folded(vs + [e]) == Folded(vs) + {Lower(e.name)}
  {
    assert (vs + [e])[..|vs|] == vs;
    assert forall k :: 0 <= k < |vs| ==> (vs + [e])[k] == vs[k];
  }

  /** The inner loop of CheckDuplicates over one unit's replacements, in map order. */
  method CheckMapping(unit: string, mapping: Mapping, dups0: seq<string>, duplicate0: set<string>, ghost visits0: seq<Entry>)
    returns (dups: seq<string>, duplicate: set<string>, ghost added: seq<Entry>)
    requires dups0 == DupErrors(visits0) && duplicate0 == Folded(visits0)
    ensures dups == DupErrors(visits0 + added) && duplicate == Folded(visits0 + added)
    ensures Distinct(added)
    ensures forall e :: e in added <==> e.unit == unit && e.ident in mapping && e.name == mapping[e.ident]
  {
    dups, duplicate, added := dups0, duplicate0, [];
    assert visits0 + added == visits0;
    var todo := mapping.Keys;
    while todo != {}
      invariant todo <= mapping.Keys
      invariant dups == DupErrors(visits0 + added) && duplicate == Folded(visits0 + added)
      invariant Distinct(added)
      invariant forall e :: e in added <==> e.unit == unit && e.ident in mapping - todo && e.name == mapping[e.ident]
      decreases |todo|
    {
      var ident :| ident in todo;
      var name := mapping[ident];
      var cname := Lower(name);
      if cname in duplicate {
        dups := dups + [unit + ": " + name];
      }
      duplicate := duplicate + {cname};
      DupErrorsSnoc(visits0 + added, Entry(unit, ident, name));
      AppendAssociative(visits0, added, [Entry(unit, ident, name)]);
      added := added + [Entry(unit, ident, name)];
      todo := todo - {ident};
    }
  }

  /** IsUnit: the identifier is a unit name of the batch. */
  predicate IsUnit(units: map<string, Mapping>, ident: string) {
    ident in units
  }

  /** The unit's mapping renames the identifier. */
  predicate Maps(units: map<string, Mapping>, unit: string, ident: string) {
    unit in units && ident in units[unit]
  }

  /**
   * Lookup: the replacement that the first unit of `uses`, in order, whose
   * mapping has the identifier gives it; ("", false) when there is none.
   */
  function Lookup(units: map<string, Mapping>, uses: seq<string>, ident: string): (r: (string, bool))
    ensures r.1 ==> exists j :: 0 <= j < |uses| && Maps(units, uses[j], ident) && r.0 == units[uses[j]][ident]
                      && forall k :: 0 <= k < j ==> !Maps(units, uses[k], ident)
    ensures !r.1 ==> r.0 == "" && forall j :: 0 <= j < |uses| ==> !Maps(units, uses[j], ident)
    decreases |uses|
  {
    if |uses| == 0 then ("", false)
    else if Maps(units, uses[0], ident) then (units[uses[0]][ident], true)
    else
      var r := Lookup(units, uses[1..], ident);
      assert forall j :: 1 <= j < |uses| ==> uses[j] == uses[1..][j - 1];
      r
  }

  /** A batch rename: for each unit, the identifiers to rename where the unit is used. */
  class BatchRename {
    var Unit: map<string, Mapping>

    constructor (units: map<string, Mapping>)
      ensures Unit == units
    {
      Unit := units;
    }

    /**
     * canonicalize: unit names and identifiers in lower case, replacements
     * untouched. Of two names that differ only in case, the one the map
     * order visits last wins.
     */
    method Canonicalize()
      modifies this`Unit
      ensures Unit.Keys == LowerOf(old(Unit).Keys)
      ensures forall u :: u in Unit ==> exists k :: k in old(Unit) && Lower(k) == u && CanonicalOf(old(Unit)[k], Unit[u])
    {
      var units: map<string, Mapping> := map[];
      var todo := Unit.Keys;
      while todo != {}
        invariant Unit == old(Unit) && todo <= Unit.Keys
        invariant units.Keys == LowerOf(Unit.Keys - todo)
        invariant forall u :: u in units ==> exists k :: k in Unit && Lower(k) == u && CanonicalOf(Unit[k], units[u])
        decreases |todo|
      {
        var unit :| unit in todo;
        var cmapping := CanonicalMapping(Unit[unit]);
        units := units[Lower(unit) := cmapping];
        todo := todo - {unit};
        assert Unit.Keys - todo == (Unit.Keys - (todo + {unit})) + {unit};
      }
      assert Unit.Keys - todo == Unit.Keys;
      Unit := units;
    }

    /**
     * CheckDuplicates: visiting every (unit, identifier, replacement) entry
     * once, in map order, one "unit: name" error per replacement whose lower
     * case was seen before; none exactly when all replacements are distinct
     * ignoring case.
     */
    method CheckDuplicates() returns (dups: seq<string>, ghost visits: seq<Entry>)
      ensures Distinct(visits) && (forall e :: e in visits <==> IsEntry(Unit, e))
      ensures dups == DupErrors(visits)
      ensures |dups| == 0 <==> ValuesFoldDistinct(Unit)
    {
      dups := [];
      var duplicate: set<string> := {};
      visits := [];
      var todo := Unit.Keys;
      while todo != {}
        invariant todo <= Unit.Keys
        invariant dups == DupErrors(visits) && duplicate == Folded(visits)
        invariant Distinct(visits)
        invariant forall e :: e in visits <==> IsEntry(Unit, e) && e.unit !in todo
        decreases |todo|
      {
        var unit :| unit in todo;
        ghost var added;
        dups, duplicate, added := CheckMapping(unit, Unit[unit], dups, duplicate, visits);
        DistinctConcat(visits, added);
        visits := visits + added;
        todo := todo - {unit};
      }
      DupErrorsNone(visits);
      EnumerationDistinct(Unit, visits);
    }
  }

  /** A rewrite: the `len` bytes at `at` are replaced by `text`. */
  datatype Edit = Edit(at: nat, len: nat, text: string)

  /** The edits are in order, do not overlap and end by `to`. */
  predicate Fits(edits: seq<Edit>, to: nat)
    decreases |edits|
  {
    |edits| == 0 || (edits[|edits| - 1].at + edits[|edits| - 1].len <= to && Fits(edits[..|edits| - 1], edits[|edits| - 1].at))
  }

  /** The first `to` bytes of src with the edits applied: every byte outside the edits copied as it is. */
  function Render(src: seq<Byte>, edits: seq<Edit>, to: nat): string
    requires to <= |src| && Fits(edits, to)
    decreases |edits|
  {
    if |edits| == 0 then src[..to]
    else
      var e := edits[|edits| - 1];
      Render(src, edits[..|edits| - 1], e.at) + e.text + src[e.at + e.len..to]
  }

  /** Copying the source bytes from a to b extends the rendering. */
  lemma RenderExtend(src: seq<Byte>, edits: seq<Edit>, a: nat, b: nat)
    requires a <= b <= |src| && Fits(edits, a)
    ensures Fits(edits, b) && Render(src, edits, b) == Render(src, edits, a) + src[a..b]
  {
    if |edits| == 0 {
      assert src[..b] == src[..a] + src[a..b];
    } else {
      var e := edits[|edits| - 1];
      var front := Render(src, edits[..|edits| - 1], e.at);
      assert src[e.at + e.len..b] == src[e.at + e.len..a] + src[a..b];
      assert front + e.text + src[e.at + e.len..b] == (front + e.text + src[e.at + e.len..a]) + src[a..b];
    }
  }

  /** Rendering with one more edit at the end. */
  lemma RenderEdit(src: seq<Byte>, edits: seq<Edit>, e: Edit)
    requires e.at + e.len <= |src| && Fits(edits, e.at)
    ensures Fits(edits + [e], e.at + e.len)
    ensures Render(src, edits + [e], e.at + e.len) == Render(src, edits, e.at) + e.text
  {
    assert (edits + [e])[..|edits|] == edits;
    assert src[e.at + e.len..e.at + e.len] == [];
  }

  /** What the rewrite loop has decided after some tokens: the units used so far and the edits. */
  datatype Pass = Pass(uses: seq<string>, edits: seq<Edit>)

  /**
   * One token of the rewrite loop. Only identifiers count: one naming a unit
   * of the batch joins `uses` the first time it is seen and is never
   * replaced; any other is replaced when Lookup over `uses` finds it.
   */
  function Visit(units: map<string, Mapping>, p: Pass, it: Item): Pass
  {
    if it.tok != IDENT then p
    else
      var lit := Lower(it.lit);
      if IsUnit(units, lit) then
        if lit in p.uses then p else p.(uses := p.uses + [lit])
      else
        var r := Lookup(units, p.uses, lit);
        if r.1 then p.(edits := p.edits + [Edit(it.offset, |lit|, r.0)]) else p
  }

  /** The decisions of the rewrite loop after the tokens `items`. */
  function Decide(units: map<string, Mapping>, items: seq<Item>): Pass
    decreases |items|
  {
    if |items| == 0 then Pass([], [])
    else Visit(units, Decide(units, items[..|items| - 1]), items[|items| - 1])
  }

  /**
   * `uses` lists each unit named by an identifier of the file exactly once,
   * and nothing else.
   */
  lemma {:induction false} DecideUses(units: map<string, Mapping>, items: seq<Item>)
    ensures var uses := Decide(units, items).uses;
      && Distinct(uses)
      && (forall u :: u in uses ==> u in units)
      && (forall k :: 0 <= k < |items| && items[k].tok == IDENT && Lower(items[k].lit) in units ==> Lower(items[k].lit) in uses)
      && (forall u :: u in uses ==> exists k :: 0 <= k < |items| && items[k].tok == IDENT && Lower(items[k].lit) == u)
    decreases |items|
  {
    if |items| > 0 {
      var front := items[..|items| - 1];
      DecideUses(units, front);
      var p := Decide(units, front);
      assert forall k :: 0 <= k < |front| ==> items[k] == front[k];
      assert forall u :: u in p.uses ==> u in Decide(units, items).uses;
      forall u | u in Decide(units, items).uses
        ensures exists k :: 0 <= k < |items| && items[k].tok == IDENT && Lower(items[k].lit) == u
      {
        if u !in p.uses {
          assert items[|items| - 1].tok == IDENT && Lower(items[|items| - 1].lit) == u;
        }
      }
    }
  }

  /**
   * `uses` is in the order of first sight: its i-th unit is named by the
   * identifier at ks[i], no earlier identifier names it, and the positions
   * increase.
   */
  lemma {:induction false} DecideUsesFirstSeen(units: map<string, Mapping>, items: seq<Item>) returns (ks: seq<nat>)
    ensures var uses := Decide(units, items).uses;
      && |ks| == |uses|
      && (forall i :: 0 <= i < |ks| ==> ks[i] < |items| && items[ks[i]].tok == IDENT && Lower(items[ks[i]].lit) == uses[i])
      && (forall i, k :: 0 <= i < |ks| && 0 <= k < ks[i] && items[k].tok == IDENT ==> Lower(items[k].lit) != uses[i])
      && (forall i, j :: 0 <= i < j < |ks| ==> ks[i] < ks[j])
    decreases |items|
  {
    if |items| == 0 {
      ks := [];
    } else {
      var n := |items| - 1;
      var front := items[..n];
      ks := DecideUsesFirstSeen(units, front);
      assert forall k :: 0 <= k < n ==> items[k] == front[k];
      var p := Decide(units, front);
      var it := items[n];
      if it.tok == IDENT && IsUnit(units, Lower(it.lit)) && Lower(it.lit) !in p.uses {
        DecideUses(units, front);
        ks := ks + [n];
      }
    }
  }

  /** An edit made at token k: the token is an identifier that names no unit, replaced by what Lookup over the units seen before it gives. */
  predicate EditAt(units: map<string, Mapping>, items: seq<Item>, k: nat, e: Edit)
    requires k < |items|
  {
    var lit := Lower(items[k].lit);
    var r := Lookup(units, Decide(units, items[..k]).uses, lit);
    && items[k].tok == IDENT && lit !in units && r.1
    && e == Edit(items[k].offset, |lit|, r.0)
  }

  /** Every edit replaces one identifier token, as Lookup says; every other token is left alone. */
  lemma {:induction false} DecideEdits(units: map<string, Mapping>, items: seq<Item>)
    ensures forall e :: e in Decide(units, items).edits ==> exists k :: 0 <= k < |items| && EditAt(units, items, k, e)
    decreases |items|
  {
    if |items| > 0 {
      var n := |items| - 1;
      var front := items[..n];
      DecideEdits(units, front);
      forall e | e in Decide(units, items).edits
        ensures exists k :: 0 <= k < |items| && EditAt(units, items, k, e)
      {
        if e in Decide(units, front).edits {
          var k :| 0 <= k < |front| && EditAt(units, front, k, e);
          assert front[..k] == items[..k] && front[k] == items[k];
          assert EditAt(units, items, k, e);
        } else {
          assert items[..n] == front;
          assert EditAt(units, items, n, e);
        }
      }
    }
  }

  /** A batch whose units rename nothing leaves every file as it is. */
  lemma {:induction false} DecideNothing(units: map<string, Mapping>, items: seq<Item>)
    requires forall u :: u in units ==> units[u] == map[]
    ensures Decide(units, items).edits == []
    decreases |items|
  {
    if |items| > 0 {
      DecideNothing(units, items[..|items| - 1]);
      var p := Decide(units, items[..|items| - 1]);
      var it := items[|items| - 1];
      if it.tok == IDENT && Lower(it.lit) !in units {
        var lit := Lower(it.lit);
        assert forall j :: 0 <= j < |p.uses| ==> !Maps(units, p.uses[j], lit);
        assert !Lookup(units, p.uses, lit).1;
      }
    }
  }

  /** The edit replaces source bytes that spell, ignoring case, an identifier some unit of the batch maps to the edit's text. */
  predicate Replaces(units: map<string, Mapping>, src: seq<Byte>, e: Edit)
  {
    && e.at + e.len <= |src|
    && exists u :: u in units && Lower(src[e.at..e.at + e.len]) in units[u]
         && e.text == units[u][Lower(src[e.at..e.at + e.len])]
  }

  /** The exact-match membership loop over `uses`. */
  method InUses(uses: seq<string>, lit: string) returns (contains: bool)
    ensures contains <==> lit in uses
  {
    contains := false;
    var j := 0;
    while j < |uses|
      invariant 0 <= j <= |uses|
      invariant lit !in uses[..j]
    {
      if uses[j] == lit {
        contains := true;
        return;
      }
      assert uses[..j + 1] == uses[..j] + [uses[j]];
      j := j + 1;
    }
    assert uses[..j] == uses;
  }

  /** Deciding one more token. */
  lemma DecideSnoc(units: map<string, Mapping>, seen: seq<Item>, it: Item)
    ensures Decide(units, seen + [it]) == Visit(units, Decide(units, seen), it)
  {
    assert (seen + [it])[..|seen|] == seen;
  }

  /** An edit made from a successful Lookup on the identifier's own bytes replaces what the batch maps. */
  lemma LookupReplaces(units: map<string, Mapping>, src: seq<Byte>, offset: nat, lit: string, uses: seq<string>)
    requires offset + |lit| <= |src| && lit == src[offset..offset + |lit|]
    requires Lookup(units, uses, Lower(lit)).1
    ensures Replaces(units, src, Edit(offset, |lit|, Lookup(units, uses, Lower(lit)).0))
  {
    var r := Lookup(units, uses, Lower(lit));
    var j :| 0 <= j < |uses| && Maps(units, uses[j], Lower(lit)) && r.0 == units[uses[j]][Lower(lit)];
    assert uses[j] in units;
  }

  /**
   * The rewrite loop on an identifier at `offset`, once the bytes before it
   * are written: a unit name joins `uses`; a name Lookup finds is skipped
   * in the source and its replacement written.
   */
  method Identifier(units: map<string, Mapping>, src: seq<Byte>, offset: nat, lit: string, uses: seq<string>, start: nat, out: string,
                    ghost seen: seq<Item>, ghost edits: seq<Edit>)
    returns (uses': seq<string>, start': nat, out': string, ghost edits': seq<Edit>)
    requires start == offset && offset + |lit| <= |src| && lit == src[offset..offset + |lit|]
    requires Decide(units, seen) == Pass(uses, edits) && Fits(edits, start) && out == Render(src, edits, start)
    ensures Decide(units, seen + [Item(offset, IDENT, lit)]) == Pass(uses', edits')
    ensures start <= start' <= offset + |lit| && Fits(edits', start') && out' == Render(src, edits', start')
  {
    DecideSnoc(units, seen, Item(offset, IDENT, lit));
    uses', start', out', edits' := uses, start, out, edits;
    var name := Lower(lit);
    if IsUnit(units, name) {
      var contains := InUses(uses, name);
      if !contains {
        uses' := uses + [name];
      }
      return;
    }
    var r := Lookup(units, uses, name);
    if r.1 {
      ghost var e := Edit(offset, |name|, r.0);
      RenderEdit(src, edits, e);
      start' := start + |name|;
      out' := out + r.0;
      edits' := edits + [e];
    }
  }

  /** The rewrite loop on reaching a token at `offset`: the source bytes not yet written, up to it, are written. */
  method Flush(src: seq<Byte>, ghost edits: seq<Edit>, start: nat, out: string, offset: nat) returns (start': nat, out': string)
    requires start <= offset <= |src| && Fits(edits, start) && out == Render(src, edits, start)
    ensures start' == offset && Fits(edits, offset) && out' == Render(src, edits, offset)
  {
    start', out' := start, out;
    if start < offset {
      RenderExtend(src, edits, start, offset);
      out' := out + src[start..offset];
      start' := offset;
    }
  }

  /** The output so far: the source up to `start` with the edits applied. */
  predicate Written(units: map<string, Mapping>, src: seq<Byte>, edits: seq<Edit>, start: nat, out: string)
  {
    start <= |src| && Fits(edits, start) && out == Render(src, edits, start)
  }

  /**
   * The body of the rewrite loop for one token from Scan at `offset`, with
   * the scanner's cursor at `next` after it: the pending bytes are written,
   * then an identifier is handled; any other token only passes by.
   */
  method Consume(units: map<string, Mapping>, src: seq<Byte>, offset: nat, tok: Token, lit: string,
                 uses: seq<string>, start: nat, out: string, ghost seen: seq<Item>, ghost edits: seq<Edit>, ghost next: nat)
    returns (uses': seq<string>, start': nat, out': string, ghost edits': seq<Edit>)
    requires start <= offset <= next <= |src|
    requires tok == IDENT ==> offset + |lit| == next && lit == src[offset..next]
    requires tok == EOF ==> offset == |src|
    requires Decide(units, seen) == Pass(uses, edits) && Written(units, src, edits, start, out)
    ensures Decide(units, seen + [Item(offset, tok, lit)]) == Pass(uses', edits')
    ensures Written(units, src, edits', start', out') && start' <= next
    ensures tok == EOF ==> start' == |src|
  {
    uses', edits' := uses, edits;
    start', out' := Flush(src, edits, start, out, offset);
    if tok == EOF {
      DecideSnoc(units, seen, Item(offset, tok, lit));
      return;
    } else if tok != IDENT {
      DecideSnoc(units, seen, Item(offset, tok, lit));
      return;
    }
    uses', start', out', edits' := Identifier(units, src, offset, lit, uses, start', out', seen, edits);
  }

  /** How far a token reaches in the source for the rewrite loop: an identifier's end, any other token's start. */
  function Reach(it: Item): nat {
    if it.tok == IDENT then it.offset + |it.lit| else it.offset
  }

  /**
   * The layout of a token list over src: tokens in order without overlap,
   * identifiers spelled by the bytes they cover, and one EOF, at the end of
   * the source, to close the list.
   */
  ghost predicate Laid(src: seq<Byte>, items: seq<Item>)
    decreases |items|
  {
    && |items| >= 1 && Reach(items[0]) <= |src|
    && (items[0].tok == IDENT ==> items[0].lit == src[items[0].offset..Reach(items[0])])
    && if items[0].tok == EOF then |items| == 1 && items[0].offset == |src|
       else |items| >= 2 && Reach(items[0]) <= items[1].offset && Laid(src, items[1..])
  }

  /** The layout, token by token. */
  lemma {:induction false} LaidAt(src: seq<Byte>, items: seq<Item>, k: nat)
    requires Laid(src, items) && k < |items|
    ensures Reach(items[k]) <= |src|
    ensures items[k].tok == IDENT ==> items[k].lit == src[items[k].offset..Reach(items[k])]
    ensures items[k].tok == EOF <==> k == |items| - 1
    ensures items[k].tok == EOF ==> items[k].offset == |src|
    ensures k < |items| - 1 ==> Reach(items[k]) <= items[k + 1].offset
    decreases k
  {
    if k > 0 {
      LaidAt(src, items[1..], k - 1);
    }
  }

  /** One more token in front of a laid-out list. */
  lemma LaidCons(src: seq<Byte>, x: Item, rest: seq<Item>)
    requires Laid(src, rest) && x.tok != EOF && Reach(x) <= rest[0].offset
    requires x.tok == IDENT ==> x.lit == src[x.offset..Reach(x)]
    ensures Laid(src, [x] + rest)
  {
    assert ([x] + rest)[1..] == rest;
  }

  /** The first token Scan returns from cursor i, and where the scanner stands after it. */
  lemma StreamHead(src: seq<Byte>, i: nat, last: Token, comments: bool) returns (next: nat, nlast: Token)
    requires i <= |src|
    ensures var items := Items(Stream(src, i, last, comments));
      && |items| >= 1 && i <= items[0].offset && Reach(items[0]) <= next <= |src|
      && (items[0].tok == IDENT ==> items[0].lit == src[items[0].offset..Reach(items[0])])
      && (items[0].tok == EOF ==> |items| == 1 && items[0].offset == |src|)
      && (items[0].tok != EOF ==> i < next && items == [items[0]] + Items(Stream(src, next, nlast, comments)))
  {
    var r := Lex(src, i, last, comments);
    StreamItems(src, i, last, comments);
    IdentLiteral(src, i, last, comments);
    next, nlast := r.end, NextLast(last, r.tok);
  }

  /** The tokens Scan returns from cursor i are laid out over the source from i on. */
  lemma {:induction false} StreamLaid(src: seq<Byte>, i: nat, last: Token, comments: bool)
    requires i <= |src|
    ensures var items := Items(Stream(src, i, last, comments));
      Laid(src, items) && i <= items[0].offset
    decreases |src| - i
  {
    var items := Items(Stream(src, i, last, comments));
    var next, nlast := StreamHead(src, i, last, comments);
    if items[0].tok != EOF {
      StreamLaid(src, next, nlast, comments);
      LaidCons(src, items[0], Items(Stream(src, next, nlast, comments)));
    }
  }

  /** Every edit the rewrite loop decides on a laid-out token list replaces an identifier the batch maps. */
  lemma DecideReplaces(units: map<string, Mapping>, src: seq<Byte>, items: seq<Item>)
    requires Laid(src, items)
    ensures forall e :: e in Decide(units, items).edits ==> Replaces(units, src, e)
  {
    DecideEdits(units, items);
    forall e | e in Decide(units, items).edits
      ensures Replaces(units, src, e)
    {
      var k :| 0 <= k < |items| && EditAt(units, items, k, e);
      LaidAt(src, items, k);
      LookupReplaces(units, src, items[k].offset, items[k].lit, Decide(units, items[..k]).uses);
    }
  }

  /**
   * The main processing block of process, over the tokens Scan returns: the
   * bytes from the last copied offset up to each token are written out; a
   * replaced identifier's bytes are skipped and its replacement written
   * instead; at EOF the remaining bytes are written.
   */
  method Rewrite(units: map<string, Mapping>, src: seq<Byte>, items: seq<Item>) returns (out: string, ghost edits: seq<Edit>)
    requires Laid(src, items)
    ensures Fits(edits, |src|) && out == Render(src, edits, |src|)
    ensures edits == Decide(units, items).edits
  {
    var uses: seq<string> := [];
    var start: nat := 0;
    out := [];
    edits := [];
    var i := 0;
    while i < |items|
      invariant 0 <= i <= |items|
      invariant Decide(units, items[..i]) == Pass(uses, edits)
      invariant Written(units, src, edits, start, out)
      invariant i < |items| ==> start <= items[i].offset
      invariant i == |items| ==> start == |src|
    {
      var it := items[i];
      LaidAt(src, items, i);
      assert items[..i + 1] == items[..i] + [it];
      uses, start, out, edits := Consume(units, src, it.offset, it.tok, it.lit, uses, start, out, items[..i], edits, Reach(it));
      if it.tok == EOF {
        assert i + 1 == |items|;
        i := i + 1;
        break;
      }
      assert start <= items[i + 1].offset;
      i := i + 1;
    }
    assert items[..i] == items;
  }

  /**
   * process: a file's bytes rewritten by the batch. The output is the
   * source with the decided edits applied, each replacing an identifier the
   * batch maps; with no edit it is the source itself. `modified` says
   * whether the result differs from the file (the source then writes or
   * reports it).
   */
  method Process(batch: BatchRename, src: seq<Byte>) returns (out: string, modified: bool, ghost edits: seq<Edit>)
    ensures Fits(edits, |src|) && out == Render(src, edits, |src|)
    ensures edits == Decide(batch.Unit, Items(Stream(src, 0, ILLEGAL, ScanComments(0)))).edits
    ensures forall e :: e in edits ==> Replaces(batch.Unit, src, e)
    ensures edits == [] ==> out == src
    ensures modified <==> out != src
  {
    var items := Tokenize(src, 0, true);
    StreamLaid(src, 0, ILLEGAL, ScanComments(0));
    out, edits := Rewrite(batch.Unit, src, items);
    DecideReplaces(batch.Unit, src, items);
    modified := src != out;
  }
}

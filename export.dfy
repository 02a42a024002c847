/**
 * The report writers of cmd/uses/export.go (cmd/dunits/main.go holds the
 * same four functions, line for line): a text listing in key order, a
 * Graphviz DOT graph, a TGF graph and a plain edge list.
 *
 * Every writer sends its lines through a `write` closure that does nothing
 * once an error has been recorded and otherwise adds the bytes written to
 * `n`. The destination is a Sink whose behaviour on each write is a
 * parameter, so that short writes and errors can happen anywhere.
 */
module Export {
  import opened Text
  import opened Units
  import opened UsesIndex
  import Token

  /**
   * How many bytes of `s` the destination takes on its `k`-th write:
   * `accept(k, s)` itself up to |s|; a value above |s| stands for a write
   * that took every byte and still returned an error.
   */
  function Taken(accept: (nat, string) -> nat, k: nat, s: string): (x: nat)
    ensures x <= |s|
  {
    if accept(k, s) < |s| then accept(k, s) else |s|
  }

  /** Whether the `k`-th write of `s` returns an error: any answer but exactly |s|. */
  predicate Refused(accept: (nat, string) -> nat, k: nat, s: string) {
    accept(k, s) != |s|
  }

  /**
   * The io.Writer behind `out`: `accept(k, s)` says how many bytes of `s`
   * it takes on its `k`-th write and whether that write returns an error
   * (see Taken and Refused); as io.Writer demands, a write that takes fewer
   * than all of them returns an error.
   */
  class Sink {
    const accept: (nat, string) -> nat
    var data: string
    var calls: nat

    constructor(accept: (nat, string) -> nat)
      ensures this.accept == accept && data == "" && calls == 0
    {
      this.accept := accept;
      data := "";
      calls := 0;
    }

    /** fmt.Fprintf of a line already formatted. */
    method Fprintf(s: string) returns (x: nat, failed: bool)
      modifies this
      ensures x == Taken(accept, old(calls), s) && failed == Refused(accept, old(calls), s)
      ensures x < |s| ==> failed
      ensures data == old(data) + s[..x] && calls == old(calls) + 1
    {
      x := Taken(accept, calls, s);
      failed := accept(calls, s) != |s|;
      data := data + s[..x];
      calls := calls + 1;
    }
  }

  // ---------------------------------------------------------------- the write closure

  /** What the destination holds and how often it was written, with the closure's `n` and `err != nil`. */
  datatype Emitted = Emitted(data: string, calls: nat, n: nat, failed: bool)

  /** One call of `write`: nothing once an error is recorded, otherwise one Fprintf. */
  function Emit(accept: (nat, string) -> nat, e: Emitted, s: string): Emitted {
    if e.failed then e
    else
      var x := Taken(accept, e.calls, s);
      Emitted(e.data + s[..x], e.calls + 1, e.n + x, Refused(accept, e.calls, s))
  }

  /** `write` called on each line in turn. */
  function EmitAll(accept: (nat, string) -> nat, e: Emitted, lines: seq<string>): Emitted {
    if |lines| == 0 then e else Emit(accept, EmitAll(accept, e, lines[..|lines| - 1]), lines[|lines| - 1])
  }

  /** The text of a list of lines. */
  function Concat(lines: seq<string>): string {
    if |lines| == 0 then "" else Concat(lines[..|lines| - 1]) + lines[|lines| - 1]
  }

  /** The closure `write`. */
  method Write(sink: Sink, n: nat, failed: bool, s: string) returns (n': nat, failed': bool)
    modifies sink
    ensures Emitted(sink.data, sink.calls, n', failed') == Emit(sink.accept, Emitted(old(sink.data), old(sink.calls), n, failed), s)
  {
    n', failed' := n, failed;
    if !failed {
      var x, err := sink.Fprintf(s);
      n', failed' := n + x, err;
    }
  }

  lemma {:induction false} EmitAllAppend(accept: (nat, string) -> nat, e: Emitted, a: seq<string>, b: seq<string>)
    ensures EmitAll(accept, e, a + b) == EmitAll(accept, EmitAll(accept, e, a), b)
    decreases |b|
  {
    if |b| == 0 {
      assert a + b == a;
    } else {
      assert (a + b)[..|a + b| - 1] == a + b[..|b| - 1];
      EmitAllAppend(accept, e, a, b[..|b| - 1]);
    }
  }

  lemma EmitAllSnoc(accept: (nat, string) -> nat, e: Emitted, a: seq<string>, s: string)
    ensures EmitAll(accept, e, a + [s]) == Emit(accept, EmitAll(accept, e, a), s)
  {
    assert (a + [s])[..|a|] == a;
  }

  /** Once an error is recorded, `write` changes nothing. */
  lemma {:induction false} EmitAllStops(accept: (nat, string) -> nat, e: Emitted, lines: seq<string>)
    requires e.failed
    ensures EmitAll(accept, e, lines) == e
  {
    if |lines| > 0 {
      EmitAllStops(accept, e, lines[..|lines| - 1]);
    }
  }

  /** After the first failing write no further write reaches the destination. */
  lemma NoWriteAfterError(accept: (nat, string) -> nat, e: Emitted, lines: seq<string>, i: nat)
    requires i <= |lines| && EmitAll(accept, e, lines[..i]).failed
    ensures EmitAll(accept, e, lines) == EmitAll(accept, e, lines[..i])
  {
    assert lines == lines[..i] + lines[i..];
    EmitAllAppend(accept, e, lines[..i], lines[i..]);
    EmitAllStops(accept, EmitAll(accept, e, lines[..i]), lines[i..]);
  }

  /**
   * `n` counts exactly the bytes the destination took, which are the text
   * of the lines up to the failing write; without an error they are the
   * whole text, one write per line.
   */
  lemma {:induction false} EmitAllWritten(accept: (nat, string) -> nat, e: Emitted, lines: seq<string>)
    requires !e.failed
    ensures var r := EmitAll(accept, e, lines);
      && e.n <= r.n <= e.n + |Concat(lines)|
      && r.data == e.data + Concat(lines)[..r.n - e.n]
      && (!r.failed ==> r.n == e.n + |Concat(lines)| && r.calls == e.calls + |lines|)
  {
    if |lines| > 0 {
      var front := lines[..|lines| - 1];
      var s := lines[|lines| - 1];
      EmitAllWritten(accept, e, front);
      var r := EmitAll(accept, e, front);
      assert Concat(lines) == Concat(front) + s;
      if !r.failed {
        assert r.data == e.data + Concat(front);
        var x := Taken(accept, r.calls, s);
        TakeAppend(Concat(front), s, |Concat(front)| + x);
      } else {
        TakeAppend(Concat(front), s, r.n - e.n);
      }
    }
  }

  /** A destination that takes every byte receives the whole text, and `n` is its length. */
  lemma {:induction false} EmitAllAccepting(accept: (nat, string) -> nat, e: Emitted, lines: seq<string>)
    requires !e.failed && forall k, s :: accept(k, s) == |s|
    ensures !EmitAll(accept, e, lines).failed
    ensures EmitAll(accept, e, lines).data == e.data + Concat(lines)
    ensures EmitAll(accept, e, lines).n == e.n + |Concat(lines)|
  {
    if |lines| > 0 {
      EmitAllAccepting(accept, e, lines[..|lines| - 1]);
    }
  }

  // ---------------------------------------------------------------- the lines of each format

  /** The lines of a list of keys, block by block. */
  function Blocks(f: string -> seq<string>, order: seq<string>): seq<string> {
    if |order| == 0 then [] else Blocks(f, order[..|order| - 1]) + f(order[|order| - 1])
  }

  lemma BlocksSnoc(f: string -> seq<string>, order: seq<string>, key: string)
    ensures Blocks(f, order + [key]) == Blocks(f, order) + f(key)
  {
    assert (order + [key])[..|order|] == order;
  }

  lemma {:induction false} BlocksAppend(f: string -> seq<string>, a: seq<string>, b: seq<string>)
    ensures Blocks(f, a + b) == Blocks(f, a) + Blocks(f, b)
    decreases |b|
  {
    if |b| == 0 {
      assert a + b == a;
    } else {
      assert (a + b)[..|a + b| - 1] == a + b[..|b| - 1];
      BlocksAppend(f, a, b[..|b| - 1]);
    }
  }

  /** Taking one key out of the middle takes its block out of the lines. */
  lemma BlocksRemove(f: string -> seq<string>, a: seq<string>, x: string, b: seq<string>)
    ensures multiset(Blocks(f, a + [x] + b)) == multiset(Blocks(f, a + b)) + multiset(f(x))
  {
    BlocksAppend(f, a + [x], b);
    BlocksSnoc(f, a, x);
    BlocksAppend(f, a, b);
  }

  /** The lines of the blocks, counted with repeats, do not depend on the order of the keys. */
  lemma {:induction false} BlocksOrderFree(f: string -> seq<string>, o1: seq<string>, o2: seq<string>)
    requires multiset(o1) == multiset(o2)
    ensures multiset(Blocks(f, o1)) == multiset(Blocks(f, o2))
    decreases |o1|
  {
    if |o1| == 0 {
      assert |o2| == |multiset(o2)|;
    } else {
      var x := o1[|o1| - 1];
      var front := o1[..|o1| - 1];
      assert o1 == front + [x];
      assert multiset(o1) == multiset(front) + multiset{x};
      assert x in multiset(o2);
      var i :| 0 <= i < |o2| && o2[i] == x;
      var rest := o2[..i] + o2[i + 1..];
      assert o2 == o2[..i] + [x] + o2[i + 1..];
      assert multiset(o2) == multiset(rest) + multiset{x};
      assert multiset(front) == multiset(o1) - multiset{x};
      assert multiset(rest) == multiset(o2) - multiset{x};
      BlocksOrderFree(f, front, rest);
      BlocksRemove(f, o2[..i], x, o2[i + 1..]);
    }
  }

  /** A name as `%v` prints a unit use: the spelling of its entry. */
  function UseLines(uses: map<string, UnitUses>, mark: string, names: seq<string>): (r: seq<string>)
    ensures |r| == |names|
  {
    if |names| == 0 then []
    else UseLines(uses, mark, names[..|names| - 1]) + ["\t" + mark + " " + NormalNameIn(uses, names[|names| - 1]) + "\n"]
  }

  /** fmt's `%v` of a []string: the elements between brackets, separated by spaces. */
  function Brackets(list: seq<string>): string {
    "[" + Join(list, " ") + "]"
  }

  function CycleLines(cycles: seq<seq<string>>): (r: seq<string>)
    ensures |r| == |cycles|
  {
    if |cycles| == 0 then [] else CycleLines(cycles[..|cycles| - 1]) + ["\t" + Brackets(cycles[|cycles| - 1]) + "\n"]
  }

  /** The block for the cycles FindCycles reports, empty when there are none. */
  function CycleBlock(cycles: seq<seq<string>>): seq<string> {
    if |cycles| == 0 then [] else ["Circular interface uses:\n"] + CycleLines(cycles) + ["\n"]
  }

  /** The text block of one entry: its name, its interface uses, its implementation uses, a blank line. */
  function UnitBlock(uses: map<string, UnitUses>, key: string): seq<string> {
    if key !in uses then []
    else
      var u := uses[key];
      ["# " + u.unit + "\n"] + UseLines(uses, "+", u.interface) + UseLines(uses, "-", u.implementation) + ["\n"]
  }

  function UnitBlockOf(uses: map<string, UnitUses>): string -> seq<string> {
    key => UnitBlock(uses, key)
  }

  /** The lines WriteTXT writes, for the keys in the order it visits them. */
  function TxtLines(uses: map<string, UnitUses>, cycles: seq<seq<string>>, keys: seq<string>): seq<string> {
    CycleBlock(cycles) + Blocks(UnitBlockOf(uses), keys)
  }

  /** One edge line per name, from `from` to the spelling of the name, closed by `tail`. */
  function EdgeLines(uses: map<string, UnitUses>, from: string, names: seq<string>, tail: string): (r: seq<string>)
    ensures |r| == |names|
  {
    if |names| == 0 then []
    else EdgeLines(uses, from, names[..|names| - 1], tail) + ["\t" + from + " -> " + NormalNameIn(uses, names[|names| - 1]) + tail + "\n"]
  }

  /** The DOT edges of one entry: plain for the interface, dashed for the implementation. */
  function DotBlock(uses: map<string, UnitUses>, key: string): seq<string> {
    if key !in uses then []
    else
      var u := uses[key];
      EdgeLines(uses, u.unit, u.interface, ";") + EdgeLines(uses, u.unit, u.implementation, " [style=dashed;dir=both;weight=0];")
  }

  function DotBlockOf(uses: map<string, UnitUses>): string -> seq<string> {
    key => DotBlock(uses, key)
  }

  function DotLines(uses: map<string, UnitUses>, order: seq<string>): seq<string> {
    ["digraph G{\n"] + Blocks(DotBlockOf(uses), order) + ["}\n"]
  }

  /** The edge-list lines of one entry: the same for both kinds of use. */
  function GlayBlock(uses: map<string, UnitUses>, key: string): seq<string> {
    if key !in uses then []
    else
      var u := uses[key];
      EdgeLines(uses, u.unit, u.interface, ";") + EdgeLines(uses, u.unit, u.implementation, ";")
  }

  function GlayBlockOf(uses: map<string, UnitUses>): string -> seq<string> {
    key => GlayBlock(uses, key)
  }

  function GlayLines(uses: map<string, UnitUses>, order: seq<string>): seq<string> {
    Blocks(GlayBlockOf(uses), order)
  }

  /** The ids of the first loop of WriteTGF: 1, 2, … in visiting order. */
  function Ids(order: seq<string>): map<string, nat> {
    if |order| == 0 then map[] else Ids(order[..|order| - 1])[order[|order| - 1] := |order|]
  }

  /** `ids[name]`, which is 0 for a name with no id. */
  function IdOf(ids: map<string, nat>, name: string): nat {
    if name in ids then ids[name] else 0
  }

  /** The node lines: each entry's id and name. */
  function NodeLines(uses: map<string, UnitUses>, order: seq<string>): (r: seq<string>)
    ensures |r| == |order|
  {
    if |order| == 0 then []
    else
      var key := order[|order| - 1];
      NodeLines(uses, order[..|order| - 1]) + [Token.Decimal(|order|) + " " + (if key in uses then uses[key].unit else "") + "\n"]
  }

  /** One pair line per name: the id of the entry and that of the name's lower-case form. */
  function PairLines(ids: map<string, nat>, from: nat, names: seq<string>): (r: seq<string>)
    ensures |r| == |names|
  {
    if |names| == 0 then []
    else PairLines(ids, from, names[..|names| - 1]) + [Token.Decimal(from) + " " + Token.Decimal(IdOf(ids, Lower(names[|names| - 1]))) + "\n"]
  }

  function TgfBlock(uses: map<string, UnitUses>, ids: map<string, nat>, key: string): seq<string> {
    if key !in uses then []
    else PairLines(ids, IdOf(ids, key), uses[key].interface) + PairLines(ids, IdOf(ids, key), uses[key].implementation)
  }

  function TgfBlockOf(uses: map<string, UnitUses>, ids: map<string, nat>): string -> seq<string> {
    key => TgfBlock(uses, ids, key)
  }

  /** The TGF lines, for the orders of the two loops over the map. */
  function TgfLines(uses: map<string, UnitUses>, nodes: seq<string>, edges: seq<string>): seq<string> {
    NodeLines(uses, nodes) + ["#\n"] + Blocks(TgfBlockOf(uses, Ids(nodes)), edges)
  }

  /** WriteTGF numbers the entries 1 to n, each with its own id. */
  lemma {:induction false} IdsNumbering(order: seq<string>)
    requires Distinct(order)
    ensures Ids(order).Keys == Elems(order)
    ensures forall i :: 0 <= i < |order| ==> Ids(order)[order[i]] == i + 1
  {
    if |order| > 0 {
      IdsNumbering(order[..|order| - 1]);
    }
  }

  /** How many uses the entries listed in `order` hold. */
  function UseCount(uses: map<string, UnitUses>, order: seq<string>): nat {
    if |order| == 0 then 0
    else UseCount(uses, order[..|order| - 1]) + (if order[|order| - 1] in uses then |Used(uses[order[|order| - 1]])| else 0)
  }

  /** DOT: one edge line per use, between the opening and the closing line. */
  lemma {:induction false} DotCount(uses: map<string, UnitUses>, order: seq<string>)
    ensures |DotLines(uses, order)| == UseCount(uses, order) + 2
  {
    DotEdgeCount(uses, order);
  }

  lemma {:induction false} DotEdgeCount(uses: map<string, UnitUses>, order: seq<string>)
    ensures |Blocks(DotBlockOf(uses), order)| == UseCount(uses, order)
  {
    if |order| > 0 {
      DotEdgeCount(uses, order[..|order| - 1]);
    }
  }

  /** The edge list: one line per use of either kind. */
  lemma {:induction false} GlayCount(uses: map<string, UnitUses>, order: seq<string>)
    ensures |GlayLines(uses, order)| == UseCount(uses, order)
  {
    if |order| > 0 {
      GlayCount(uses, order[..|order| - 1]);
    }
  }

  /** TGF: a line per entry, the `#` line, then a pair per use. */
  lemma TgfCount(uses: map<string, UnitUses>, nodes: seq<string>, edges: seq<string>)
    ensures |TgfLines(uses, nodes, edges)| == |nodes| + 1 + UseCount(uses, edges)
  {
    TgfEdgeCount(uses, Ids(nodes), edges);
  }

  lemma {:induction false} TgfEdgeCount(uses: map<string, UnitUses>, ids: map<string, nat>, edges: seq<string>)
    ensures |Blocks(TgfBlockOf(uses, ids), edges)| == UseCount(uses, edges)
  {
    if |edges| > 0 {
      TgfEdgeCount(uses, ids, edges[..|edges| - 1]);
    }
  }

  /** The DOT output holds the same lines whatever order the map is visited in. */
  lemma DotOrderFree(uses: map<string, UnitUses>, o1: seq<string>, o2: seq<string>)
    requires multiset(o1) == multiset(o2)
    ensures multiset(DotLines(uses, o1)) == multiset(DotLines(uses, o2))
  {
    BlocksOrderFree(DotBlockOf(uses), o1, o2);
  }

  /** So does the edge list. */
  lemma GlayOrderFree(uses: map<string, UnitUses>, o1: seq<string>, o2: seq<string>)
    requires multiset(o1) == multiset(o2)
    ensures multiset(GlayLines(uses, o1)) == multiset(GlayLines(uses, o2))
  {
    BlocksOrderFree(GlayBlockOf(uses), o1, o2);
  }

  /** For a fixed numbering, the order of the second TGF loop changes only the order of the pair lines. */
  lemma TgfEdgesOrderFree(uses: map<string, UnitUses>, nodes: seq<string>, o1: seq<string>, o2: seq<string>)
    requires multiset(o1) == multiset(o2)
    ensures multiset(TgfLines(uses, nodes, o1)) == multiset(TgfLines(uses, nodes, o2))
  {
    BlocksOrderFree(TgfBlockOf(uses, Ids(nodes)), o1, o2);
  }

  // ---------------------------------------------------------------- sorting the keys

  predicate NonDecreasing(r: seq<string>) {
    forall i, j :: 0 <= i < j < |r| ==> !Less(r[j], r[i])
  }

  lemma InsertNonDecreasing(r: seq<string>, p: nat, x: string)
    requires NonDecreasing(r) && p <= |r|
    requires forall j :: 0 <= j < p ==> !Less(x, r[j])
    requires p < |r| ==> Less(x, r[p])
    ensures NonDecreasing(r[..p] + [x] + r[p..])
  {
    var s := r[..p] + [x] + r[p..];
    forall j | p <= j < |r|
      ensures !Less(r[j], x)
    {
      LessAsymmetric(x, r[p]);
      if j > p && Less(r[j], x) {
        LessTransitive(r[j], x, r[p]);
      }
    }
    forall i, j | 0 <= i < j < |s|
      ensures !Less(s[j], s[i])
    {
      if i < p && j > p {
        assert s[i] == r[i] && s[j] == r[j - 1];
      } else if i > p {
        assert s[i] == r[i - 1] && s[j] == r[j - 1];
      }
    }
  }

  /** sort.Strings, as an insertion sort. */
  method SortStrings(a: seq<string>) returns (r: seq<string>)
    ensures NonDecreasing(r) && multiset(r) == multiset(a)
  {
    r := [];
    for i := 0 to |a|
      invariant NonDecreasing(r) && multiset(r) == multiset(a[..i])
    {
      var p := 0;
      while p < |r| && !Less(a[i], r[p])
        invariant p <= |r| && forall j :: 0 <= j < p ==> !Less(a[i], r[j])
      {
        p := p + 1;
      }
      InsertNonDecreasing(r, p, a[i]);
      assert r == r[..p] + r[p..];
      assert a[..i + 1] == a[..i] + [a[i]];
      r := r[..p] + [a[i]] + r[p..];
    }
    assert a[..|a|] == a;
  }

  lemma {:induction false} DistinctOnce(s: seq<string>)
    requires Distinct(s)
    ensures forall x :: multiset(s)[x] <= 1
  {
    if |s| > 0 {
      var front := s[..|s| - 1];
      DistinctOnce(front);
      assert s == front + [s[|s| - 1]];
      assert s[|s| - 1] !in front;
    }
  }

  lemma TwiceCounts(s: seq<string>, i: nat, j: nat)
    requires i < j < |s| && s[i] == s[j]
    ensures multiset(s)[s[i]] >= 2
  {
    assert s == s[..i] + [s[i]] + s[i + 1..j] + [s[j]] + s[j + 1..];
  }

  /** The sorted copy of a list of distinct keys is ascending and holds the same keys. */
  lemma SortedKeys(names: seq<string>, r: seq<string>)
    requires Distinct(names) && NonDecreasing(r) && multiset(r) == multiset(names)
    ensures Ascending(r) && Elems(r) == Elems(names)
  {
    DistinctOnce(names);
    forall i, j | 0 <= i < j < |r|
      ensures Less(r[i], r[j])
    {
      if r[i] == r[j] {
        TwiceCounts(r, i, j);
      }
      LessTrichotomy(r[i], r[j]);
    }
    forall x
      ensures x in r <==> x in names
    {
      assert x in r <==> x in multiset(r);
      assert x in names <==> x in multiset(names);
    }
  }

  /** The first loop of WriteTXT: the keys of the map, in its iteration order. */
  method MapKeys(uses: map<string, UnitUses>) returns (names: seq<string>)
    ensures Distinct(names) && Elems(names) == uses.Keys
  {
    names := [];
    var todo := uses.Keys;
    while todo != {}
      invariant todo !! Elems(names) && todo + Elems(names) == uses.Keys && Distinct(names)
      decreases todo
    {
      var key :| key in todo;
      names := names + [key];
      todo := todo - {key};
    }
  }

  // ---------------------------------------------------------------- the writers

  /** The loops over a list of uses in WriteTXT. */
  method WriteUseLines(index: Index, sink: Sink, n: nat, failed: bool, mark: string, names: seq<string>)
    returns (n': nat, failed': bool)
    modifies sink
    ensures Emitted(sink.data, sink.calls, n', failed')
         == EmitAll(sink.accept, Emitted(old(sink.data), old(sink.calls), n, failed), UseLines(index.Uses, mark, names))
  {
    ghost var e0 := Emitted(sink.data, sink.calls, n, failed);
    n', failed' := n, failed;
    for i := 0 to |names|
      invariant Emitted(sink.data, sink.calls, n', failed') == EmitAll(sink.accept, e0, UseLines(index.Uses, mark, names[..i]))
    {
      assert names[..i + 1][..i] == names[..i];
      n', failed' := Write(sink, n', failed', "\t" + mark + " " + index.NormalName(names[i]) + "\n");
    }
    assert names[..|names|] == names;
  }

  method WriteCycleLines(sink: Sink, n: nat, failed: bool, cycles: seq<seq<string>>) returns (n': nat, failed': bool)
    modifies sink
    ensures Emitted(sink.data, sink.calls, n', failed')
         == EmitAll(sink.accept, Emitted(old(sink.data), old(sink.calls), n, failed), CycleLines(cycles))
  {
    ghost var e0 := Emitted(sink.data, sink.calls, n, failed);
    n', failed' := n, failed;
    for i := 0 to |cycles|
      invariant Emitted(sink.data, sink.calls, n', failed') == EmitAll(sink.accept, e0, CycleLines(cycles[..i]))
    {
      assert cycles[..i + 1][..i] == cycles[..i];
      n', failed' := Write(sink, n', failed', "\t" + Brackets(cycles[i]) + "\n");
    }
    assert cycles[..|cycles|] == cycles;
  }

  /** Four writes in a row are the writes of the four pieces joined. */
  lemma EmitPieces(accept: (nat, string) -> nat, e: Emitted, a: seq<string>, b: seq<string>, c: seq<string>, d: seq<string>)
    ensures EmitAll(accept, e, a + b + c + d)
         == EmitAll(accept, EmitAll(accept, EmitAll(accept, EmitAll(accept, e, a), b), c), d)
  {
    EmitAllAppend(accept, e, a + b + c, d);
    EmitAllAppend(accept, e, a + b, c);
    EmitAllAppend(accept, e, a, b);
  }

  lemma EmitOne(accept: (nat, string) -> nat, e: Emitted, s: string)
    ensures EmitAll(accept, e, [s]) == Emit(accept, e, s)
  {
    assert [s][..0] == [];
  }

  /** The body of the loop of WriteTXT, for one entry. */
  method WriteUnit(index: Index, sink: Sink, n: nat, failed: bool, key: string) returns (n': nat, failed': bool)
    requires key in index.Uses
    modifies sink
    ensures Emitted(sink.data, sink.calls, n', failed')
         == EmitAll(sink.accept, Emitted(old(sink.data), old(sink.calls), n, failed), UnitBlock(index.Uses, key))
  {
    ghost var before := Emitted(sink.data, sink.calls, n, failed);
    var u := index.Uses[key];
    n', failed' := Write(sink, n, failed, "# " + u.unit + "\n");
    EmitOne(sink.accept, before, "# " + u.unit + "\n");
    n', failed' := WriteUseLines(index, sink, n', failed', "+", u.interface);
    n', failed' := WriteUseLines(index, sink, n', failed', "-", u.implementation);
    ghost var last := Emitted(sink.data, sink.calls, n', failed');
    n', failed' := Write(sink, n', failed', "\n");
    EmitOne(sink.accept, last, "\n");
    EmitPieces(sink.accept, before, ["# " + u.unit + "\n"], UseLines(index.Uses, "+", u.interface),
               UseLines(index.Uses, "-", u.implementation), ["\n"]);
  }

  /** The block written by the `if` of WriteTXT. */
  method WriteCycles(sink: Sink, n: nat, failed: bool, cycles: seq<seq<string>>) returns (n': nat, failed': bool)
    modifies sink
    ensures Emitted(sink.data, sink.calls, n', failed')
         == EmitAll(sink.accept, Emitted(old(sink.data), old(sink.calls), n, failed), CycleBlock(cycles))
  {
    ghost var e0 := Emitted(sink.data, sink.calls, n, failed);
    n', failed' := n, failed;
    if |cycles| > 0 {
      n', failed' := Write(sink, n', failed', "Circular interface uses:\n");
      EmitOne(sink.accept, e0, "Circular interface uses:\n");
      n', failed' := WriteCycleLines(sink, n', failed', cycles);
      ghost var e2 := Emitted(sink.data, sink.calls, n', failed');
      n', failed' := Write(sink, n', failed', "\n");
      EmitOne(sink.accept, e2, "\n");
      EmitAllAppend(sink.accept, e0, ["Circular interface uses:\n"], CycleLines(cycles));
      EmitAllAppend(sink.accept, e0, ["Circular interface uses:\n"] + CycleLines(cycles), ["\n"]);
    }
  }

  /** Writing the lines of `head`, then the blocks of `order`, then that of `key`. */
  lemma BlocksStep(accept: (nat, string) -> nat, e0: Emitted, head: seq<string>, f: string -> seq<string>, order: seq<string>, key: string,
                   before: Emitted, after: Emitted)
    requires before == EmitAll(accept, e0, head + Blocks(f, order))
    requires after == EmitAll(accept, before, f(key))
    ensures after == EmitAll(accept, e0, head + Blocks(f, order + [key]))
  {
    BlocksSnoc(f, order, key);
    assert head + Blocks(f, order + [key]) == (head + Blocks(f, order)) + f(key);
    EmitAllAppend(accept, e0, head + Blocks(f, order), f(key));
  }

  /** The loop of WriteTXT over the sorted keys. */
  method WriteUnits(index: Index, sink: Sink, n: nat, failed: bool, keys: seq<string>) returns (n': nat, failed': bool)
    requires forall i :: 0 <= i < |keys| ==> keys[i] in index.Uses
    modifies sink
    ensures Emitted(sink.data, sink.calls, n', failed')
         == EmitAll(sink.accept, Emitted(old(sink.data), old(sink.calls), n, failed), Blocks(UnitBlockOf(index.Uses), keys))
  {
    ghost var e0 := Emitted(sink.data, sink.calls, n, failed);
    ghost var f := UnitBlockOf(index.Uses);
    n', failed' := n, failed;
    assert [] + Blocks(f, keys[..0]) == [];
    for i := 0 to |keys|
      invariant Emitted(sink.data, sink.calls, n', failed') == EmitAll(sink.accept, e0, [] + Blocks(f, keys[..i]))
    {
      ghost var before := Emitted(sink.data, sink.calls, n', failed');
      n', failed' := WriteUnit(index, sink, n', failed', keys[i]);
      BlocksStep(sink.accept, e0, [], f, keys[..i], keys[i], before, Emitted(sink.data, sink.calls, n', failed'));
      assert keys[..i + 1] == keys[..i] + [keys[i]];
    }
    assert keys[..|keys|] == keys;
    assert [] + Blocks(f, keys) == Blocks(f, keys);
  }

  /**
   * WriteTXT: the cycles FindCycles reports (a parameter here), then one
   * block per entry in ascending order of the keys. `keys` is that order.
   */
  method WriteTXT(index: Index, cycles: seq<seq<string>>, sink: Sink) returns (n: nat, failed: bool, ghost keys: seq<string>)
    modifies sink
    ensures Ascending(keys) && Elems(keys) == index.Uses.Keys
    ensures Emitted(sink.data, sink.calls, n, failed)
         == EmitAll(sink.accept, Emitted(old(sink.data), old(sink.calls), 0, false), TxtLines(index.Uses, cycles, keys))
  {
    ghost var e0 := Emitted(sink.data, sink.calls, 0, false);
    n, failed := WriteCycles(sink, 0, false, cycles);
    var names := MapKeys(index.Uses);
    var sorted := SortStrings(names);
    SortedKeys(names, sorted);
    keys := sorted;
    assert forall i :: 0 <= i < |sorted| ==> sorted[i] in Elems(sorted);
    n, failed := WriteUnits(index, sink, n, failed, sorted);
    EmitAllAppend(sink.accept, e0, CycleBlock(cycles), Blocks(UnitBlockOf(index.Uses), sorted));
  }

  /** The loops over a list of uses in WriteDOT and WriteGLAY. */
  method WriteEdgeLines(index: Index, sink: Sink, n: nat, failed: bool, from: string, names: seq<string>, tail: string)
    returns (n': nat, failed': bool)
    modifies sink
    ensures Emitted(sink.data, sink.calls, n', failed')
         == EmitAll(sink.accept, Emitted(old(sink.data), old(sink.calls), n, failed), EdgeLines(index.Uses, from, names, tail))
  {
    ghost var e0 := Emitted(sink.data, sink.calls, n, failed);
    n', failed' := n, failed;
    for i := 0 to |names|
      invariant Emitted(sink.data, sink.calls, n', failed') == EmitAll(sink.accept, e0, EdgeLines(index.Uses, from, names[..i], tail))
    {
      assert names[..i + 1][..i] == names[..i];
      n', failed' := Write(sink, n', failed', "\t" + from + " -> " + index.NormalName(names[i]) + tail + "\n");
    }
    assert names[..|names|] == names;
  }

  /** The body of the loop of WriteDOT, for one entry. */
  method WriteDotBlock(index: Index, sink: Sink, n: nat, failed: bool, key: string) returns (n': nat, failed': bool)
    requires key in index.Uses
    modifies sink
    ensures Emitted(sink.data, sink.calls, n', failed')
         == EmitAll(sink.accept, Emitted(old(sink.data), old(sink.calls), n, failed), DotBlock(index.Uses, key))
  {
    ghost var before := Emitted(sink.data, sink.calls, n, failed);
    var u := index.Uses[key];
    n', failed' := WriteEdgeLines(index, sink, n, failed, u.unit, u.interface, ";");
    n', failed' := WriteEdgeLines(index, sink, n', failed', u.unit, u.implementation, " [style=dashed;dir=both;weight=0];");
    EmitAllAppend(sink.accept, before, EdgeLines(index.Uses, u.unit, u.interface, ";"),
                  EdgeLines(index.Uses, u.unit, u.implementation, " [style=dashed;dir=both;weight=0];"));
  }

  /**
   * WriteDOT: the graph header, the edges of every entry in map order
   * (`order`), the closing brace.
   */
  method WriteDOT(index: Index, sink: Sink) returns (n: nat, failed: bool, ghost order: seq<string>)
    modifies sink
    ensures Distinct(order) && Elems(order) == index.Uses.Keys
    ensures Emitted(sink.data, sink.calls, n, failed)
         == EmitAll(sink.accept, Emitted(old(sink.data), old(sink.calls), 0, false), DotLines(index.Uses, order))
  {
    ghost var e0 := Emitted(sink.data, sink.calls, 0, false);
    ghost var f := DotBlockOf(index.Uses);
    n, failed := Write(sink, 0, false, "digraph G{\n");
    EmitOne(sink.accept, e0, "digraph G{\n");
    order := [];
    assert ["digraph G{\n"] + Blocks(f, order) == ["digraph G{\n"];
    var todo := index.Uses.Keys;
    while todo != {}
      invariant todo !! Elems(order) && todo + Elems(order) == index.Uses.Keys && Distinct(order)
      invariant Emitted(sink.data, sink.calls, n, failed) == EmitAll(sink.accept, e0, ["digraph G{\n"] + Blocks(f, order))
      decreases todo
    {
      var key :| key in todo;
      ghost var before := Emitted(sink.data, sink.calls, n, failed);
      n, failed := WriteDotBlock(index, sink, n, failed, key);
      BlocksStep(sink.accept, e0, ["digraph G{\n"], f, order, key, before, Emitted(sink.data, sink.calls, n, failed));
      order := order + [key];
      todo := todo - {key};
    }
    ghost var body := ["digraph G{\n"] + Blocks(f, order);
    n, failed := Write(sink, n, failed, "}\n");
    EmitAllSnoc(sink.accept, e0, body, "}\n");
    assert DotLines(index.Uses, order) == body + ["}\n"];
  }

  /** The body of the loop of WriteGLAY, for one entry. */
  method WriteGlayBlock(index: Index, sink: Sink, n: nat, failed: bool, key: string) returns (n': nat, failed': bool)
    requires key in index.Uses
    modifies sink
    ensures Emitted(sink.data, sink.calls, n', failed')
         == EmitAll(sink.accept, Emitted(old(sink.data), old(sink.calls), n, failed), GlayBlock(index.Uses, key))
  {
    ghost var before := Emitted(sink.data, sink.calls, n, failed);
    var u := index.Uses[key];
    n', failed' := WriteEdgeLines(index, sink, n, failed, u.unit, u.interface, ";");
    n', failed' := WriteEdgeLines(index, sink, n', failed', u.unit, u.implementation, ";");
    EmitAllAppend(sink.accept, before, EdgeLines(index.Uses, u.unit, u.interface, ";"), EdgeLines(index.Uses, u.unit, u.implementation, ";"));
  }

  /** WriteGLAY: one edge line per use in map order; it reports `(0, nil)` whatever happened. */
  method WriteGLAY(index: Index, sink: Sink) returns (n: nat, failed: bool, ghost order: seq<string>)
    modifies sink
    ensures Distinct(order) && Elems(order) == index.Uses.Keys
    ensures var r := EmitAll(sink.accept, Emitted(old(sink.data), old(sink.calls), 0, false), GlayLines(index.Uses, order));
      sink.data == r.data && sink.calls == r.calls
    ensures n == 0 && !failed
  {
    ghost var e0 := Emitted(sink.data, sink.calls, 0, false);
    ghost var f := GlayBlockOf(index.Uses);
    var count, err := 0, false;
    order := [];
    assert [] + Blocks(f, order) == [];
    var todo := index.Uses.Keys;
    while todo != {}
      invariant todo !! Elems(order) && todo + Elems(order) == index.Uses.Keys && Distinct(order)
      invariant Emitted(sink.data, sink.calls, count, err) == EmitAll(sink.accept, e0, [] + Blocks(f, order))
      decreases todo
    {
      var key :| key in todo;
      ghost var before := Emitted(sink.data, sink.calls, count, err);
      count, err := WriteGlayBlock(index, sink, count, err, key);
      BlocksStep(sink.accept, e0, [], f, order, key, before, Emitted(sink.data, sink.calls, count, err));
      order := order + [key];
      todo := todo - {key};
    }
    assert [] + Blocks(f, order) == GlayLines(index.Uses, order);
    return 0, false, order;
  }

  /** The loops over a list of uses in WriteTGF. */
  method WritePairLines(sink: Sink, n: nat, failed: bool, ids: map<string, nat>, from: nat, names: seq<string>)
    returns (n': nat, failed': bool)
    modifies sink
    ensures Emitted(sink.data, sink.calls, n', failed')
         == EmitAll(sink.accept, Emitted(old(sink.data), old(sink.calls), n, failed), PairLines(ids, from, names))
  {
    ghost var e0 := Emitted(sink.data, sink.calls, n, failed);
    n', failed' := n, failed;
    for i := 0 to |names|
      invariant Emitted(sink.data, sink.calls, n', failed') == EmitAll(sink.accept, e0, PairLines(ids, from, names[..i]))
    {
      TakeSnoc(names, i);
      var to := IdOf(ids, Lower(names[i]));
      n', failed' := Write(sink, n', failed', Token.Decimal(from) + " " + Token.Decimal(to) + "\n");
    }
    TakeWhole(names);
  }

  /** The first loop of WriteTGF: numbers the entries and writes a node line for each. */
  method WriteNodes(index: Index, sink: Sink, n: nat, failed: bool) returns (n': nat, failed': bool, ids: map<string, nat>, ghost nodes: seq<string>)
    modifies sink
    ensures Distinct(nodes) && Elems(nodes) == index.Uses.Keys && ids == Ids(nodes)
    ensures Emitted(sink.data, sink.calls, n', failed')
         == EmitAll(sink.accept, Emitted(old(sink.data), old(sink.calls), n, failed), NodeLines(index.Uses, nodes))
  {
    ghost var e0 := Emitted(sink.data, sink.calls, n, failed);
    n', failed' := n, failed;
    ids := map[];
    var id := 0;
    nodes := [];
    var todo := index.Uses.Keys;
    while todo != {}
      invariant todo !! Elems(nodes) && todo + Elems(nodes) == index.Uses.Keys && Distinct(nodes)
      invariant id == |nodes| && ids == Ids(nodes)
      invariant Emitted(sink.data, sink.calls, n', failed') == EmitAll(sink.accept, e0, NodeLines(index.Uses, nodes))
      decreases todo
    {
      var key :| key in todo;
      id := id + 1;
      ids := ids[key := id];
      assert (nodes + [key])[..|nodes|] == nodes;
      n', failed' := Write(sink, n', failed', Token.Decimal(id) + " " + index.Uses[key].unit + "\n");
      nodes := nodes + [key];
      todo := todo - {key};
    }
  }

  /** The body of the second loop of WriteTGF, for one entry. */
  method WriteTgfBlock(index: Index, sink: Sink, n: nat, failed: bool, ids: map<string, nat>, key: string) returns (n': nat, failed': bool)
    requires key in index.Uses
    modifies sink
    ensures Emitted(sink.data, sink.calls, n', failed')
         == EmitAll(sink.accept, Emitted(old(sink.data), old(sink.calls), n, failed), TgfBlock(index.Uses, ids, key))
  {
    ghost var before := Emitted(sink.data, sink.calls, n, failed);
    var u := index.Uses[key];
    var from := IdOf(ids, key);
    n', failed' := WritePairLines(sink, n, failed, ids, from, u.interface);
    n', failed' := WritePairLines(sink, n', failed', ids, from, u.implementation);
    EmitAllAppend(sink.accept, before, PairLines(ids, from, u.interface), PairLines(ids, from, u.implementation));
  }

  /** The second loop of WriteTGF: the pairs of every entry, in map order (`edges`). */
  method WriteEdges(index: Index, sink: Sink, n: nat, failed: bool, ids: map<string, nat>)
    returns (n': nat, failed': bool, ghost edges: seq<string>)
    modifies sink
    ensures Distinct(edges) && Elems(edges) == index.Uses.Keys
    ensures Emitted(sink.data, sink.calls, n', failed')
         == EmitAll(sink.accept, Emitted(old(sink.data), old(sink.calls), n, failed), Blocks(TgfBlockOf(index.Uses, ids), edges))
  {
    ghost var e0 := Emitted(sink.data, sink.calls, n, failed);
    ghost var f := TgfBlockOf(index.Uses, ids);
    n', failed' := n, failed;
    edges := [];
    assert [] + Blocks(f, edges) == [];
    var todo := index.Uses.Keys;
    while todo != {}
      invariant todo !! Elems(edges) && todo + Elems(edges) == index.Uses.Keys && Distinct(edges)
      invariant Emitted(sink.data, sink.calls, n', failed') == EmitAll(sink.accept, e0, [] + Blocks(f, edges))
      decreases todo
    {
      var key :| key in todo;
      ghost var before := Emitted(sink.data, sink.calls, n', failed');
      n', failed' := WriteTgfBlock(index, sink, n', failed', ids, key);
      BlocksStep(sink.accept, e0, [], f, edges, key, before, Emitted(sink.data, sink.calls, n', failed'));
      edges := edges + [key];
      todo := todo - {key};
    }
    assert [] + Blocks(f, edges) == Blocks(f, edges);
  }

  /**
   * WriteTGF: a numbered node line per entry, `#`, then a pair of ids per
   * use; the two loops visit the map in the orders `nodes` and `edges`. It
   * reports `(0, nil)` whatever happened.
   */
  method WriteTGF(index: Index, sink: Sink) returns (n: nat, failed: bool, ghost nodes: seq<string>, ghost edges: seq<string>)
    modifies sink
    ensures Distinct(nodes) && Elems(nodes) == index.Uses.Keys
    ensures Distinct(edges) && Elems(edges) == index.Uses.Keys
    ensures var r := EmitAll(sink.accept, Emitted(old(sink.data), old(sink.calls), 0, false), TgfLines(index.Uses, nodes, edges));
      sink.data == r.data && sink.calls == r.calls
    ensures n == 0 && !failed
  {
    ghost var e0 := Emitted(sink.data, sink.calls, 0, false);
    var count, err, ids;
    count, err, ids, nodes := WriteNodes(index, sink, 0, false);
    count, err := Write(sink, count, err, "#\n");
    EmitAllSnoc(sink.accept, e0, NodeLines(index.Uses, nodes), "#\n");
    ghost var mid := Emitted(sink.data, sink.calls, count, err);
    count, err, edges := WriteEdges(index, sink, count, err, ids);
    EmitAllAppend(sink.accept, e0, NodeLines(index.Uses, nodes) + ["#\n"], Blocks(TgfBlockOf(index.Uses, ids), edges));
    return 0, false, nodes, edges;
  }
}

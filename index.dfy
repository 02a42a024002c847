/**
 * The unit-dependency index of cmd/uses/index.go and its older copy in
 * cmd/dunits/main.go. The file system is a map from path to bytes; the two
 * variants differ only in how a file is tokenized (`direct`), in whether
 * the roots are recorded, and in where the interface-only switch lives.
 */
module UsesIndex {
  import opened Text
  import opened Token
  import opened Lexical
  import opened Scanning
  import opened Paths
  import opened Units

  /** The key a path is registered under: its lower-case base name without extension. */
  function UnitKey(path: string): string {
    Lower(TrimExt(Base(path)))
  }

  /** One registration: a key that is already present keeps its first path. */
  function Enter(table: map<string, string>, path: string): (t: map<string, string>)
    ensures t.Keys == table.Keys + {UnitKey(path)}
    ensures forall k :: k in table ==> t[k] == table[k]
  {
    if UnitKey(path) in table then table else table[UnitKey(path) := path]
  }

  /** A sequence of registrations, in order. */
  function Register(table: map<string, string>, paths: seq<string>): map<string, string>
    decreases |paths|
  {
    if |paths| == 0 then table else Register(Enter(table, paths[0]), paths[1..])
  }

  /** Registration never overwrites an existing entry. */
  lemma {:induction false} RegisterKeeps(table: map<string, string>, paths: seq<string>)
    ensures forall k :: k in table ==> k in Register(table, paths) && Register(table, paths)[k] == table[k]
    decreases |paths|
  {
    if |paths| > 0 {
      RegisterKeeps(Enter(table, paths[0]), paths[1..]);
    }
  }

  /** Registration enters a key for every path, and no key that no path has. */
  lemma {:induction false} RegisterKeys(table: map<string, string>, paths: seq<string>)
    ensures var t := Register(table, paths);
      && (forall i :: 0 <= i < |paths| ==> UnitKey(paths[i]) in t)
      && (forall k :: k in t && k !in table ==> exists i :: 0 <= i < |paths| && UnitKey(paths[i]) == k)
    decreases |paths|
  {
    if |paths| > 0 {
      var table' := Enter(table, paths[0]);
      RegisterKeys(table', paths[1..]);
      RegisterKeeps(table', paths[1..]);
      var t := Register(table, paths);
      assert t == Register(table', paths[1..]);
      forall i | 0 < i < |paths|
        ensures UnitKey(paths[i]) in t
      {
        assert paths[i] == paths[1..][i - 1];
      }
      forall k | k in t && k !in table
        ensures exists i :: 0 <= i < |paths| && UnitKey(paths[i]) == k
      {
        if k != UnitKey(paths[0]) {
          var i :| 0 <= i < |paths[1..]| && UnitKey(paths[1..][i]) == k;
          assert paths[i + 1] == paths[1..][i];
        }
      }
    }
  }

  /**
   * Registration is first-wins: a key that was not in the table maps to the
   * first path registered under it.
   */
  lemma {:induction false} RegisterFirstWins(table: map<string, string>, paths: seq<string>)
    ensures forall i :: 0 <= i < |paths| && UnitKey(paths[i]) !in table
              && (forall j :: 0 <= j < i ==> UnitKey(paths[j]) != UnitKey(paths[i]))
              ==> UnitKey(paths[i]) in Register(table, paths) && Register(table, paths)[UnitKey(paths[i])] == paths[i]
    decreases |paths|
  {
    if |paths| > 0 {
      var table' := Enter(table, paths[0]);
      RegisterFirstWins(table', paths[1..]);
      RegisterKeeps(table', paths[1..]);
      var t := Register(table, paths);
      assert t == Register(table', paths[1..]);
      forall i | 0 < i < |paths| && UnitKey(paths[i]) !in table
          && (forall j :: 0 <= j < i ==> UnitKey(paths[j]) != UnitKey(paths[i]))
        ensures UnitKey(paths[i]) in t && t[UnitKey(paths[i])] == paths[i]
      {
        assert paths[i] == paths[1..][i - 1];
        forall j | 0 <= j < i - 1
          ensures UnitKey(paths[1..][j]) != UnitKey(paths[1..][i - 1])
        {
          assert paths[1..][j] == paths[j + 1];
        }
      }
    }
  }

  /** The names Build queues for its root files: base names without extension. */
  function RootNames(rootfiles: seq<string>): seq<string>
  {
    if |rootfiles| == 0 then [] else RootNames(rootfiles[..|rootfiles| - 1]) + [TrimExt(Base(rootfiles[|rootfiles| - 1]))]
  }

  /** Build queues one name per root file, in order. */
  lemma {:induction false} RootNamesAt(rootfiles: seq<string>)
    ensures |RootNames(rootfiles)| == |rootfiles|
    ensures forall i :: 0 <= i < |rootfiles| ==> RootNames(rootfiles)[i] == TrimExt(Base(rootfiles[i]))
  {
    if |rootfiles| > 0 {
      var prefix := rootfiles[..|rootfiles| - 1];
      RootNamesAt(prefix);
      forall i | 0 <= i < |rootfiles| - 1
        ensures RootNames(rootfiles)[i] == TrimExt(Base(rootfiles[i]))
      {
        assert prefix[i] == rootfiles[i];
      }
    }
  }

  /** The lower-case forms of a list of names. */
  function LowerSet(names: seq<string>): set<string> {
    set x | x in names :: Lower(x)
  }

  /** The spelling an index gives a unit: that of its entry, or "" when it has none. */
  function NormalNameIn(uses: map<string, UnitUses>, name: string): string {
    if Lower(name) in uses then uses[Lower(name)].unit else ""
  }

  /** Every name in either list of an entry. */
  function Used(u: UnitUses): seq<string> {
    u.interface + u.implementation
  }

  /** No entry mentions a unit that has no entry: the index is closed under uses. */
  predicate Closed(uses: map<string, UnitUses>) {
    forall k, x :: k in uses && x in Used(uses[k]) ==> Lower(x) in uses
  }

  /** Entries added to a closed index keep it closed when their names all have entries. */
  lemma ClosedGrows(before: map<string, UnitUses>, after: map<string, UnitUses>)
    requires KeepsEntries(before, after) && NewUsesCovered(before, after, [])
    ensures Closed(before) ==> Closed(after)
  {
  }

  /** A second write to the same key overrides the first. */
  lemma UpdateTwice<K, V>(m: map<K, V>, k: K, a: V, b: V)
    ensures m[k := a][k := b] == m[k := b]
  {
  }

  /** Removing a present element from a finite set shrinks what is left of a universe. */
  lemma DiffShrinks(universe: set<string>, keys: set<string>, a: string)
    requires a in universe && a !in keys
    ensures |universe - (keys + {a})| < |universe - keys|
  {
    assert universe - (keys + {a}) == (universe - keys) - {a};
  }

  /**
   * The entry Load leaves for a unit name that was not loaded before: the
   * unit's own source scanned from state 1, or the empty entry when no
   * source is known.
   */
  function LoadedUnit(env: Env, fuel: nat, unitname: string): UnitUses {
    var empty := UnitUses(unitname, [], []);
    if Lower(unitname) in env.path then CollectFile(env, empty, env.path[Lower(unitname)], 1, fuel) else empty
  }

  /** Every name Load puts into a list is a known unit other than the one loaded. */
  lemma LoadedUnitNames(env: Env, fuel: nat, unitname: string)
    ensures LoadedUnit(env, fuel, unitname).unit == unitname
    ensures forall x :: x in Used(LoadedUnit(env, fuel, unitname)) ==> Lower(x) in env.path && Lower(x) != Lower(unitname)
    ensures env.interfaceOnly ==> LoadedUnit(env, fuel, unitname).implementation == []
    ensures Lower(unitname) !in env.path ==> Used(LoadedUnit(env, fuel, unitname)) == []
  {
    var empty := UnitUses(unitname, [], []);
    if Lower(unitname) in env.path {
      CollectFileGrows(env, empty, env.path[Lower(unitname)], 1, fuel);
    }
  }

  /** The names of a list whose key is not loaded yet, in order. */
  function Unloaded(names: seq<string>, loaded: set<string>): (r: seq<string>)
    ensures forall x :: x in r <==> x in names && Lower(x) !in loaded
  {
    if |names| == 0 then []
    else
      var last := names[|names| - 1];
      assert forall x :: x in names <==> x in names[..|names| - 1] || x == last;
      Unloaded(names[..|names| - 1], loaded) + (if Lower(last) in loaded then [] else [last])
  }

  /** Entries present before are kept unchanged. */
  predicate KeepsEntries(uses0: map<string, UnitUses>, uses: map<string, UnitUses>) {
    forall k :: k in uses0 ==> k in uses && uses[k] == uses0[k]
  }

  /** Every name of the initial queue is loaded or still queued. */
  predicate RootsCovered(queue0: seq<string>, uses: map<string, UnitUses>, queue: seq<string>) {
    forall x :: x in queue0 ==> Lower(x) in uses || x in queue
  }

  /** Every queued name is a known unit or one of the initial names. */
  predicate QueueKnown(env: Env, queue0: seq<string>, queue: seq<string>) {
    forall y :: y in queue ==> Lower(y) in env.path || y in queue0
  }

  /** Every new entry sits under its own key, which is a known unit or an initial name. */
  predicate NewKeysKnown(env: Env, uses0: map<string, UnitUses>, queue0: seq<string>, uses: map<string, UnitUses>) {
    forall k :: k in uses && k !in uses0 ==> Lower(uses[k].unit) == k && (k in env.path || k in LowerSet(queue0))
  }

  /** Every name a new entry mentions is loaded or queued. */
  predicate NewUsesCovered(uses0: map<string, UnitUses>, uses: map<string, UnitUses>, queue: seq<string>) {
    forall k, x :: k in uses && k !in uses0 && x in Used(uses[k]) ==> Lower(x) in uses || x in queue
  }

  /**
   * What holds between the rounds of Build's loop, for the entries `uses0`
   * it started from, its initial queue `queue0`, and the current entries
   * and queue.
   */
  ghost predicate DrainInv(env: Env, uses0: map<string, UnitUses>, queue0: seq<string>, uses: map<string, UnitUses>, queue: seq<string>) {
    && KeepsEntries(uses0, uses)
    && RootsCovered(queue0, uses, queue)
    && QueueKnown(env, queue0, queue)
    && NewKeysKnown(env, uses0, queue0, uses)
    && NewUsesCovered(uses0, uses, queue)
  }

  /** Every new entry is what Load stores for its unit: the scanned lists, or the empty entry when no source is known. */
  predicate NewEntriesLoaded(env: Env, fuel: nat, uses0: map<string, UnitUses>, uses: map<string, UnitUses>) {
    forall k :: k in uses && k !in uses0 ==> uses[k] == LoadedUnit(env, fuel, uses[k].unit)
  }

  /**
   * One round of Build's loop as DrainRound performs it (pop, Load, push the
   * unloaded names the new entry uses) keeps DrainInv and NewEntriesLoaded,
   * and makes progress.
   */
  lemma DrainStep(env: Env, fuel: nat, uses0: map<string, UnitUses>, queue0: seq<string>, universe: set<string>,
                  uses: map<string, UnitUses>, queue: seq<string>, unit: string,
                  uses': map<string, UnitUses>, queue': seq<string>)
    requires universe == uses0.Keys + env.path.Keys + LowerSet(queue0) && uses.Keys <= universe
    requires DrainInv(env, uses0, queue0, uses, queue) && NewEntriesLoaded(env, fuel, uses0, uses)
    requires |queue| > 0 && unit == queue[|queue| - 1]
    requires uses' == if Lower(unit) in uses then uses else uses[Lower(unit) := LoadedUnit(env, fuel, unit)]
    requires queue' == if Lower(unit) !in uses && Lower(unit) in env.path
      then queue[..|queue| - 1] + Unloaded(LoadedUnit(env, fuel, unit).interface, uses'.Keys)
        + Unloaded(LoadedUnit(env, fuel, unit).implementation, uses'.Keys)
      else queue[..|queue| - 1]
    ensures uses'.Keys <= universe
    ensures DrainInv(env, uses0, queue0, uses', queue') && NewEntriesLoaded(env, fuel, uses0, uses')
    ensures (uses' == uses && |queue'| < |queue|) || |universe - uses'.Keys| < |universe - uses.Keys|
  {
    LoadedUnitNames(env, fuel, unit);
    DrainRoundKeeps(env, uses0, queue0, universe, uses, queue, unit, queue[..|queue| - 1], LoadedUnit(env, fuel, unit), uses', queue');
    StepLoaded(env, fuel, uses0, uses, unit, uses');
  }

  /** A round of Build's loop keeps every new entry equal to what Load stores for it. */
  lemma StepLoaded(env: Env, fuel: nat, uses0: map<string, UnitUses>, uses: map<string, UnitUses>,
                   unit: string, uses': map<string, UnitUses>)
    requires NewEntriesLoaded(env, fuel, uses0, uses)
    requires uses' == if Lower(unit) in uses then uses else uses[Lower(unit) := LoadedUnit(env, fuel, unit)]
    ensures NewEntriesLoaded(env, fuel, uses0, uses')
  {
    LoadedUnitNames(env, fuel, unit);
  }

  /** What the two pushes of a round leave: the rest of the queue, then names of the entry that are not loaded. */
  lemma PushedNames(entry: UnitUses, keys: set<string>, rest: seq<string>, queue': seq<string>)
    requires || queue' == rest + Unloaded(entry.interface, keys) + Unloaded(entry.implementation, keys)
             || (queue' == rest && Used(entry) == [])
    ensures forall y :: y in rest ==> y in queue'
    ensures forall y :: y in queue' ==> y in rest || y in Used(entry)
    ensures forall x :: x in Used(entry) ==> Lower(x) in keys || x in queue'
  {
    assert forall x :: x in Used(entry) <==> x in entry.interface || x in entry.implementation;
  }

  /** A round of Build's loop that pops a name already loaded keeps DrainInv and shortens the queue. */
  lemma DrainSkip(env: Env, uses0: map<string, UnitUses>, queue0: seq<string>,
                  uses: map<string, UnitUses>, queue: seq<string>)
    requires DrainInv(env, uses0, queue0, uses, queue) && |queue| > 0
    requires Lower(queue[|queue| - 1]) in uses
    ensures DrainInv(env, uses0, queue0, uses, queue[..|queue| - 1])
  {
    var unit, rest := queue[|queue| - 1], queue[..|queue| - 1];
    assert forall y :: y in queue <==> y in rest || y == unit;
  }

  /**
   * One round of Build's loop keeps DrainInv: the last name is popped and,
   * when it was not loaded, its entry is stored and, when its source is
   * known, the names of its lists that are not loaded are pushed. Each
   * round either shortens the queue or loads a new key of `universe`.
   */
  lemma DrainRoundKeeps(env: Env, uses0: map<string, UnitUses>, queue0: seq<string>, universe: set<string>,
                        uses: map<string, UnitUses>, queue: seq<string>, unit: string, rest: seq<string>,
                        entry: UnitUses, uses': map<string, UnitUses>, queue': seq<string>)
    requires universe == uses0.Keys + env.path.Keys + LowerSet(queue0) && uses.Keys <= universe
    requires DrainInv(env, uses0, queue0, uses, queue)
    requires |queue| > 0 && unit == queue[|queue| - 1] && rest == queue[..|queue| - 1]
    requires entry.unit == unit && forall x :: x in Used(entry) ==> Lower(x) in env.path
    requires Lower(unit) in uses ==> uses' == uses && queue' == rest
    requires Lower(unit) !in uses ==> uses' == uses[Lower(unit) := entry]
    requires Lower(unit) !in uses && Lower(unit) in env.path ==>
      queue' == rest + Unloaded(entry.interface, uses'.Keys) + Unloaded(entry.implementation, uses'.Keys)
    requires Lower(unit) !in env.path ==> queue' == rest && Used(entry) == []
    ensures uses'.Keys <= universe
    ensures DrainInv(env, uses0, queue0, uses', queue')
    ensures (uses' == uses && |queue'| < |queue|) || |universe - uses'.Keys| < |universe - uses.Keys|
  {
    if Lower(unit) in uses {
      DrainSkip(env, uses0, queue0, uses, queue);
    } else {
      assert queue == rest + [unit];
      PushedNames(entry, uses'.Keys, rest, queue');
      if unit in queue0 {
        assert Lower(unit) in LowerSet(queue0);
      }
      DiffShrinks(universe, uses.Keys, Lower(unit));
      StepKeeps(env, uses0, queue0, uses, queue, unit, rest, entry, uses', queue');
      StepCovers(env, uses0, queue0, uses, queue, unit, rest, entry, uses', queue');
    }
  }

  /** The first three parts of DrainInv after a round that loads a new name. */
  lemma StepKeeps(env: Env, uses0: map<string, UnitUses>, queue0: seq<string>,
                  uses: map<string, UnitUses>, queue: seq<string>, unit: string, rest: seq<string>,
                  entry: UnitUses, uses': map<string, UnitUses>, queue': seq<string>)
    requires DrainInv(env, uses0, queue0, uses, queue)
    requires queue == rest + [unit] && Lower(unit) !in uses && uses' == uses[Lower(unit) := entry]
    requires forall x :: x in Used(entry) ==> Lower(x) in env.path
    requires forall y :: y in queue' ==> y in rest || y in Used(entry)
    requires forall y :: y in rest ==> y in queue'
    ensures KeepsEntries(uses0, uses') && RootsCovered(queue0, uses', queue') && QueueKnown(env, queue0, queue')
  {
    assert forall y :: y in queue <==> y in rest || y == unit;
  }

  /** The last two parts of DrainInv after a round that loads a new name. */
  lemma StepCovers(env: Env, uses0: map<string, UnitUses>, queue0: seq<string>,
                   uses: map<string, UnitUses>, queue: seq<string>, unit: string, rest: seq<string>,
                   entry: UnitUses, uses': map<string, UnitUses>, queue': seq<string>)
    requires DrainInv(env, uses0, queue0, uses, queue)
    requires queue == rest + [unit] && Lower(unit) !in uses && uses' == uses[Lower(unit) := entry]
    requires entry.unit == unit && (Lower(unit) in env.path || Lower(unit) in LowerSet(queue0))
    requires forall y :: y in rest ==> y in queue'
    requires forall x :: x in Used(entry) ==> Lower(x) in uses'.Keys || x in queue'
    ensures NewKeysKnown(env, uses0, queue0, uses') && NewUsesCovered(uses0, uses', queue')
  {
    assert forall y :: y in queue <==> y in rest || y == unit;
    forall k, x | k in uses' && k !in uses0 && x in Used(uses'[k])
      ensures Lower(x) in uses' || x in queue'
    {
      if k != Lower(unit) {
        assert uses'[k] == uses[k];
      }
    }
  }

  class Index {
    /** The readable files and their contents. */
    const files: map<string, seq<Byte>>
    /** index.InterfaceOnly in cmd/uses, the -interface flag in cmd/dunits. */
    const interfaceOnly: bool
    /** True for cmd/dunits, which drives the Scanner itself until EOF. */
    const direct: bool
    /** How deep nested includes are followed. */
    const fuel: nat
    /** The tokens the scan handler receives for each readable file. */
    ghost const tokens: map<string, seq<(Token, string)>>

    var RootFiles: seq<string>
    var Path: map<string, string>
    var IncPath: map<string, string>
    var Uses: map<string, UnitUses>

    /** NewIndex: empty tables. */
    constructor (files: map<string, seq<Byte>>, interfaceOnly: bool, direct: bool, fuel: nat)
      ensures this.files == files && this.interfaceOnly == interfaceOnly && this.direct == direct && this.fuel == fuel
      ensures RootFiles == [] && Path == map[] && IncPath == map[] && Uses == map[]
      ensures Valid()
    {
      this.files := files;
      this.tokens := map p | p in files :: FileTokens(direct, files[p]);
      this.interfaceOnly := interfaceOnly;
      this.direct := direct;
      this.fuel := fuel;
      RootFiles := [];
      Path := map[];
      IncPath := map[];
      Uses := map[];
    }

    /** The token table is that of the files. */
    ghost predicate Valid() {
      && tokens.Keys == files.Keys
      && forall p {:trigger files[p]} :: p in files ==> tokens[p] == FileTokens(direct, files[p])
    }

    /** What scanning a unit depends on. */
    ghost function Env(): Env
      reads this`Path, this`IncPath
    {
      Units.Env(tokens, Path, IncPath, interfaceOnly)
    }

    /** addSourcePath: register a unit source under its key, unless the key is taken. */
    method AddSourcePath(path: string)
      modifies this`Path
      ensures Path == Enter(old(Path), path)
    {
      var unitname := Lower(TrimExt(Base(path)));
      if unitname in Path {
        return;
      }
      Path := Path[unitname := path];
    }

    /** addIncludePath: the same for include files. */
    method AddIncludePath(path: string)
      modifies this`IncPath
      ensures IncPath == Enter(old(IncPath), path)
    {
      var unitname := Lower(TrimExt(Base(path)));
      if unitname in IncPath {
        return;
      }
      IncPath := IncPath[unitname := path];
    }

    predicate IsLoaded(unitname: string)
      reads this`Uses
    {
      Lower(unitname) in Uses
    }

    /** NormalName: the unit name as first loaded, or "" for a name never loaded. */
    function NormalName(name: string): (r: string)
      reads this`Uses
    {
      NormalNameIn(Uses, name)
    }

    /**
     * The tokens of a file: the package-level Scan in mode 0 (cmd/uses) or a
     * Scanner driven until EOF (cmd/dunits). The handler passed to Scan
     * always returns nil.
     */
    method ReadTokens(src: seq<Byte>) returns (toks: seq<(Token, string)>)
      ensures toks == FileTokens(direct, src)
    {
      if direct {
        var items := Tokenize(src, 0, true);
        toks := seq(|items|, k requires 0 <= k < |items| => (items[k].tok, items[k].lit));
      } else {
        var err;
        toks, err := ScanAll(src, 0, Always, true);
      }
    }

    /**
     * scanUses / iterate: read the file and run every token through the
     * handler, starting in `state`. A file that cannot be read changes
     * nothing.
     */
    method ScanUses(u: UnitUses, unitpath: string, state: int, fuel: nat) returns (r: UnitUses)
      requires Valid()
      ensures r == CollectFile(Env(), u, unitpath, state, fuel)
      decreases fuel, 2, 0
    {
      if unitpath !in files {
        return u;
      }
      ghost var env := Env();
      var toks := ReadTokens(files[unitpath]);
      assert toks == env.tokens[unitpath];
      r := u;
      var st := state;
      for i := 0 to |toks|
        invariant CollectTokens(env, r, toks, i, st, fuel) == CollectFile(env, u, unitpath, state, fuel)
      {
        CollectTokensStep(env, r, toks, i, st, fuel);
        r, st := HandleToken(r, toks[i].0, toks[i].1, st, fuel);
      }
    }

    /** The body of the scan callback for one token. */
    method HandleToken(u: UnitUses, tok: Token, lit: string, state: int, fuel: nat) returns (r: UnitUses, state': int)
      requires Valid()
      ensures (r, state') == Handle(Env(), u, tok, lit, state, fuel)
      decreases fuel, 0, 2
    {
      r, state' := u, state;
      if tok == CDIRECTIVE {
        var llit := Lower(lit);
        if HasPrefix(llit, "{$i ") || HasPrefix(llit, "{$include ") {
          r := HandleInclude(u, lit, state, fuel);
        }
        return;
      }
      if tok == IMPLEMENTATION {
        state' := 2;
      } else if tok == IDENT {
        var cusename := Lower(lit);
        if cusename == Lower(u.unit) {
          return;
        }
        if cusename !in Path {
          return;
        }
        if state == 1 {
          var list := IncludeString(u.interface, lit);
          r := u.(interface := list);
        } else if state == 2 {
          if !interfaceOnly {
            var list := IncludeString(u.implementation, lit);
            r := u.(implementation := list);
          }
        }
      }
    }

    /**
     * handleInclude: the include's key is the text after the first space,
     * trimmed of braces, quotes and spaces, without extension, in lower
     * case; a known include is scanned with the current state.
     */
    method HandleInclude(u: UnitUses, directive: string, state: int, fuel: nat) returns (r: UnitUses)
      requires Valid()
      requires IsIncludeDirective(directive)
      ensures r == CollectInclude(Env(), u, IncludeKey(directive), state, fuel)
      decreases fuel, 0, 1
    {
      IncludeDirectiveHasSpace(directive);
      var p := IndexOf(directive, ' ');
      var name := Trim(directive[p..], {'{', '}', '\'', '"', ' '});
      var key := Lower(TrimExt(name));
      r := FollowInclude(u, key, state, fuel);
    }

    /** The second half of handleInclude: follow the key if it is known. */
    method FollowInclude(u: UnitUses, key: string, state: int, fuel: nat) returns (r: UnitUses)
      requires Valid()
      ensures r == CollectInclude(Env(), u, key, state, fuel)
      decreases fuel, 0, 0
    {
      if key !in IncPath || fuel == 0 {
        return u;
      }
      var depth: nat := fuel - 1;
      r := ScanUses(u, IncPath[key], state, depth);
      CollectIncludeStep(Env(), u, key, state, fuel, depth, r);
    }

    /**
     * Load: nothing for a unit already loaded; otherwise the unit is first
     * entered with an empty entry, which stays if no path is known, and is
     * otherwise replaced by the scanned lists.
     */
    method Load(unitname: string) returns (uses: Option<UnitUses>)
      requires Valid()
      modifies this`Uses
      ensures Uses == if old(IsLoaded(unitname)) then old(Uses)
                      else old(Uses)[Lower(unitname) := LoadedUnit(Env(), fuel, unitname)]
      ensures uses == if !old(IsLoaded(unitname)) && Lower(unitname) in Path
                      then Some(LoadedUnit(Env(), fuel, unitname)) else None
    {
      uses := None;
      if !IsLoaded(unitname) {
        Uses := Uses[Lower(unitname) := UnitUses(unitname, [], [])];
        if Lower(unitname) in Path {
          var u := ScanUnit(unitname);
          UpdateTwice(old(Uses), Lower(unitname), UnitUses(unitname, [], []), u);
          Uses := Uses[Lower(unitname) := u];
          uses := Some(u);
        }
      }
    }

    /** The scan inside Load: the unit's own source, from state 1, into an empty entry. */
    method ScanUnit(unitname: string) returns (u: UnitUses)
      requires Valid() && Lower(unitname) in Path
      ensures u == LoadedUnit(Env(), fuel, unitname)
    {
      u := ScanUses(UnitUses(unitname, [], []), Path[Lower(unitname)], 1, fuel);
    }

    /** The pushes of Build's loop: the names of a list that are not loaded yet, in order. */
    method PushUnloaded(queue: seq<string>, names: seq<string>) returns (q: seq<string>)
      ensures q == queue + Unloaded(names, Uses.Keys)
    {
      q := queue;
      for i := 0 to |names|
        invariant q == queue + Unloaded(names[..i], Uses.Keys)
      {
        assert names[..i + 1][..i] == names[..i];
        if !IsLoaded(names[i]) {
          q := q + [names[i]];
        }
      }
      assert names[..|names|] == names;
    }

    /** Both pushes of a round: the names of the interface list, then of the implementation list, that are not loaded. */
    method PushUses(queue: seq<string>, u: UnitUses) returns (q: seq<string>)
      ensures q == queue + Unloaded(u.interface, Uses.Keys) + Unloaded(u.implementation, Uses.Keys)
    {
      q := PushUnloaded(queue, u.interface);
      q := PushUnloaded(q, u.implementation);
    }

    /**
     * The loop of Build: pop the last name, load it, and push every name in
     * its lists that is not loaded yet.
     */
    method Drain(queue0: seq<string>)
      requires Valid()
      modifies this`Uses
      ensures KeepsEntries(old(Uses), Uses)
      ensures forall x :: x in queue0 ==> IsLoaded(x)
      ensures NewKeysKnown(Env(), old(Uses), queue0, Uses)
      ensures NewUsesCovered(old(Uses), Uses, [])
      ensures NewEntriesLoaded(Env(), fuel, old(Uses), Uses)
      ensures Closed(old(Uses)) ==> Closed(Uses)
    {
      var queue := queue0;
      ghost var env := Env();
      ghost var universe := old(Uses).Keys + env.path.Keys + LowerSet(queue0);
      while |queue| > 0
        invariant env == Units.Env(tokens, Path, IncPath, interfaceOnly)
        invariant Uses.Keys <= universe
        invariant DrainInv(env, old(Uses), queue0, Uses, queue)
        invariant NewEntriesLoaded(env, fuel, old(Uses), Uses)
        decreases |universe - Uses.Keys|, |queue|
      {
        queue := DrainRound(env, old(Uses), queue0, universe, queue);
      }
      ClosedGrows(old(Uses), Uses);
    }

    /** One round of Build's loop, which keeps DrainInv and makes progress. */
    method DrainRound(ghost env: Env, ghost uses0: map<string, UnitUses>, ghost queue0: seq<string>,
                      ghost universe: set<string>, queue: seq<string>) returns (queue': seq<string>)
      requires Valid() && Env() == env && |queue| > 0
      requires universe == uses0.Keys + env.path.Keys + LowerSet(queue0) && Uses.Keys <= universe
      requires DrainInv(env, uses0, queue0, Uses, queue)
      requires NewEntriesLoaded(env, fuel, uses0, Uses)
      modifies this`Uses
      ensures Uses.Keys <= universe
      ensures DrainInv(env, uses0, queue0, Uses, queue')
      ensures NewEntriesLoaded(env, fuel, uses0, Uses)
      ensures || (Uses == old(Uses) && |queue'| < |queue|)
              || |universe - Uses.Keys| < |universe - old(Uses).Keys|
    {
      var unit := queue[|queue| - 1];
      queue' := queue[..|queue| - 1];
      var uses := Load(unit);
      if uses.Some? {
        queue' := PushUses(queue', uses.value);
      }
      DrainStep(env, fuel, uses0, queue0, universe, old(Uses), queue, unit, Uses, queue');
    }

    /** The first loop of Build: each root's base name without extension is queued and recorded. */
    method QueueRoots(rootfiles: seq<string>) returns (queue: seq<string>)
      modifies this`RootFiles
      ensures queue == RootNames(rootfiles)
      ensures RootFiles == old(RootFiles) + queue
    {
      ghost var recorded := RootFiles;
      queue := [];
      for i := 0 to |rootfiles|
        invariant queue == RootNames(rootfiles[..i])
        invariant RootFiles == recorded + queue
      {
        var name := TrimExt(Base(rootfiles[i]));
        assert rootfiles[..i + 1][..i] == rootfiles[..i] && rootfiles[..i + 1][i] == rootfiles[i];
        assert RootNames(rootfiles[..i + 1]) == queue + [name];
        assert (recorded + queue) + [name] == recorded + (queue + [name]);
        queue := queue + [name];
        RootFiles := RootFiles + [name];
      }
      assert rootfiles[..|rootfiles|] == rootfiles;
    }

    /**
     * Build (cmd/uses): record each root's base name without extension,
     * queue them all, and drain the queue.
     */
    method Build(rootfiles: seq<string>)
      requires Valid()
      modifies this`RootFiles, this`Uses
      ensures RootFiles == old(RootFiles) + RootNames(rootfiles)
      ensures KeepsEntries(old(Uses), Uses)
      ensures forall i :: 0 <= i < |rootfiles| ==> IsLoaded(TrimExt(Base(rootfiles[i])))
      ensures forall k :: k in Uses && k !in old(Uses) ==> k in Path || k in LowerSet(RootNames(rootfiles))
      ensures NewEntriesLoaded(Env(), fuel, old(Uses), Uses)
      ensures Closed(old(Uses)) ==> Closed(Uses)
    {
      var queue := QueueRoots(rootfiles);
      Drain(queue);
      RootNamesAt(rootfiles);
      forall i | 0 <= i < |rootfiles|
        ensures IsLoaded(TrimExt(Base(rootfiles[i])))
      {
        assert queue[i] == TrimExt(Base(rootfiles[i]));
      }
    }

    /**
     * Build (cmd/dunits): the same loop from the project file's base name
     * alone; the roots are not recorded.
     */
    method BuildProject(dprfile: string)
      requires Valid()
      modifies this`Uses
      ensures KeepsEntries(old(Uses), Uses)
      ensures IsLoaded(TrimExt(Base(dprfile)))
      ensures forall k :: k in Uses && k !in old(Uses) ==> k in Path || k == UnitKey(dprfile)
      ensures NewEntriesLoaded(Env(), fuel, old(Uses), Uses)
      ensures Closed(old(Uses)) ==> Closed(Uses)
    {
      var queue := [TrimExt(Base(dprfile))];
      assert LowerSet(queue) == {UnitKey(dprfile)};
      Drain(queue);
    }
  }

  /** NormalName does not depend on the case used in the query. */
  lemma NormalNameIgnoresCase(index: Index, a: string, b: string)
    requires Lower(a) == Lower(b)
    ensures index.NormalName(a) == index.NormalName(b)
  {
  }
}

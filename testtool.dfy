/**
 * The test runner's helpers (cmd/test): the names the DUnit generator
 * derives and its line-ending normalisation (dunit.go), the error set
 * (errors.go), and the collection of test procedures from a unit's tokens
 * (main.go). The case-folded `contains` of utils.go is `Text.Contains`.
 */
module TestTool {
  import opened Text
  import opened Token
  import opened Lexical
  import opened Scanning
  import opened Paths

  lemma LowerSlices(s: string)
    ensures forall n :: 0 <= n <= |s| ==> Lower(s[..n]) == Lower(s)[..n] && Lower(s[n..]) == Lower(s)[n..]
  {
  }

  /** trimPrefix: drops `prefix` when `s` starts with it ignoring case. */
  function TrimPrefix(s: string, prefix: string): (r: string)
    ensures |prefix| <= |s| && EqualFold(s[..|prefix|], prefix) ==> r == s[|prefix|..]
    ensures !(|prefix| <= |s| && EqualFold(s[..|prefix|], prefix)) ==> r == s
  {
    LowerSlices(s);
    if HasPrefix(Lower(s), Lower(prefix)) then s[|prefix|..] else s
  }

  /** trimSuffix: drops `suffix` when `s` ends with it ignoring case. */
  function TrimSuffix(s: string, suffix: string): (r: string)
    ensures |suffix| <= |s| && EqualFold(s[|s| - |suffix|..], suffix) ==> r == s[..|s| - |suffix|]
    ensures !(|suffix| <= |s| && EqualFold(s[|s| - |suffix|..], suffix)) ==> r == s
  {
    LowerSlices(s);
    if HasSuffix(Lower(s), Lower(suffix)) then s[..|s| - |suffix|] else s
  }

  /** Every line feed directly follows a carriage return. */
  predicate CRLF(s: string) {
    forall i :: 0 <= i < |s| && s[i] == '\n' ==> 0 < i && s[i - 1] == '\r'
  }

  lemma {:induction false} ExpandNewlines(s: string)
    ensures CRLF(Replace(s, "\n", "\r\n"))
  {
    if |s| > 0 {
      ExpandNewlines(s[1..]);
      var rest := Replace(s[1..], "\n", "\r\n");
      if HasPrefix(s, "\n") {
        assert Replace(s, "\n", "\r\n") == "\r\n" + rest;
      } else {
        assert s[0] != '\n';
        assert Replace(s, "\n", "\r\n") == [s[0]] + rest;
      }
    }
  }

  /**
   * windowsLineEndings: CRLF and LFCR pairs become LF, then every LF becomes
   * CRLF. Only carriage returns are removed or inserted.
   */
  function WindowsLineEndings(data: string): (r: string)
    ensures CRLF(r)
    ensures Delete(r, '\r') == Delete(data, '\r')
    ensures multiset(r)['\n'] == multiset(data)['\n']
  {
    var a := Replace(data, "\r\n", "\n");
    var b := Replace(a, "\n\r", "\n");
    assert Delete("\r\n", '\r') == "\n" == Delete("\n", '\r') by {
      assert "\r\n"[1..] == "\n";
    }
    assert Delete("\n\r", '\r') == "\n" by {
      assert "\n\r"[1..] == "\r";
    }
    ReplaceKeepsDeleted(data, "\r\n", "\n", '\r');
    ReplaceKeepsDeleted(a, "\n\r", "\n", '\r');
    ReplaceKeepsDeleted(b, "\n", "\r\n", '\r');
    ExpandNewlines(b);
    var r := Replace(b, "\n", "\r\n");
    assert multiset(r)['\n'] == multiset(Delete(r, '\r'))['\n'];
    assert multiset(data)['\n'] == multiset(Delete(data, '\r'))['\n'];
    r
  }

  datatype Func = Func(Method: string, Call: string)

  datatype Test = Test(UnitName: string, ClassName: string, Funcs: seq<Func>)

  datatype Tests = Tests(TestUnit: string, Tests: seq<Test>)

  /** A scanned test unit: its path, its unit name and its test procedures. */
  datatype TestFile = TestFile(Path: string, UnitName: string, Funcs: seq<string>)

  /** The method name of a test procedure: `Test_` dropped ignoring case. */
  function MethodName(fn: string): string {
    TrimPrefix(fn, "Test_")
  }

  /** The generated class name; `title` stands for strings.Title. */
  function ClassName(unitName: string, title: string -> string): string {
    "T" + title(TrimPrefix(TrimSuffix(unitName, "_Test"), "rt")) + "Test"
  }

  /** The inner loop of GenerateDUnit: one Func per test procedure, in order. */
  method FuncsOf(fns: seq<string>) returns (fs: seq<Func>)
    ensures |fs| == |fns|
    ensures forall j :: 0 <= j < |fns| ==> fs[j].Call == fns[j] && fs[j].Method == MethodName(fns[j])
  {
    fs := [];
    for j := 0 to |fns|
      invariant |fs| == j
      invariant forall k :: 0 <= k < j ==> fs[k] == Func(MethodName(fns[k]), fns[k])
    {
      fs := fs + [Func(MethodName(fns[j]), fns[j])];
    }
  }

  /**
   * The data GenerateDUnit hands to its template, and the bytes it writes:
   * `render` stands for the template execution.
   */
  method GenerateDUnit(tests: seq<TestFile>, outfile: string, title: string -> string, render: Tests -> string)
    returns (d: Tests, data: string)
    ensures d.TestUnit == Base(TrimExt(outfile))
    ensures |d.Tests| == |tests|
    ensures forall i :: 0 <= i < |tests| ==>
      && d.Tests[i].UnitName == tests[i].UnitName
      && d.Tests[i].ClassName == ClassName(tests[i].UnitName, title)
      && |d.Tests[i].Funcs| == |tests[i].Funcs|
      && forall j :: 0 <= j < |tests[i].Funcs| ==>
           d.Tests[i].Funcs[j] == Func(MethodName(tests[i].Funcs[j]), tests[i].Funcs[j])
    ensures data == WindowsLineEndings(render(d)) && CRLF(data)
  {
    var ext := Ext(outfile);
    var all: seq<Test> := [];
    for i := 0 to |tests|
      invariant |all| == i
      invariant forall k :: 0 <= k < i ==>
        && all[k].UnitName == tests[k].UnitName
        && all[k].ClassName == ClassName(tests[k].UnitName, title)
        && |all[k].Funcs| == |tests[k].Funcs|
        && forall j :: 0 <= j < |tests[k].Funcs| ==>
             all[k].Funcs[j] == Func(MethodName(tests[k].Funcs[j]), tests[k].Funcs[j])
    {
      var fs := FuncsOf(tests[i].Funcs);
      all := all + [Test(tests[i].UnitName, ClassName(tests[i].UnitName, title), fs)];
    }
    d := Tests(Base(outfile[..|outfile| - |ext|]), all);
    data := WindowsLineEndings(render(d));
  }

  /** The non-nil errors, in argument order; a nil error is `None`. */
  function Present(errs: seq<Option<string>>): seq<string> {
    if |errs| == 0 then []
    else Present(errs[..|errs| - 1]) + (if errs[|errs| - 1].Some? then [errs[|errs| - 1].value] else [])
  }

  lemma {:induction false} PresentMembers(errs: seq<Option<string>>)
    ensures forall m :: m in Present(errs) <==> Some(m) in errs
    ensures |Present(errs)| == 0 <==> forall i :: 0 <= i < |errs| ==> errs[i].None?
  {
    if |errs| > 0 {
      var front := errs[..|errs| - 1];
      PresentMembers(front);
      assert errs == front + [errs[|errs| - 1]];
    }
  }

  lemma {:induction false} JoinSnoc(parts: seq<string>, x: string, sep: string)
    ensures Join(parts + [x], sep) == if |parts| == 0 then x else Join(parts, sep) + sep + x
  {
    if |parts| > 1 {
      assert (parts + [x])[1..] == parts[1..] + [x];
      JoinSnoc(parts[1..], x, sep);
    } else if |parts| == 1 {
      assert (parts + [x])[1..] == [x];
    }
  }

  /** An error set: the context and the messages of its errors. */
  datatype Errors = Errors(Context: string, List: seq<string>) {

    /** Errors.Error: the context, ": ", then the messages joined by "; ". */
    method Error() returns (r: string)
      ensures r == Context + ": " + Join(List, "; ")
      ensures |List| == 1 ==> r == Context + ": " + List[0]
    {
      r := Context + ": ";
      for i := 0 to |List|
        invariant r == Context + ": " + Join(List[..i], "; ")
      {
        if i > 0 {
          r := r + "; ";
        }
        JoinSnoc(List[..i], List[i], "; ");
        assert List[..i + 1] == List[..i] + [List[i]];
        r := r + List[i];
      }
      assert List[..|List|] == List;
    }
  }

  /** NewErrors: the non-nil errors under `context`, or nil when there are none. */
  method NewErrors(context: string, errs: seq<Option<string>>) returns (r: Option<Errors>)
    ensures r.None? <==> forall i :: 0 <= i < |errs| ==> errs[i].None?
    ensures r.Some? ==> r.value.Context == context && r.value.List == Present(errs)
  {
    var list: seq<string> := [];
    for i := 0 to |errs|
      invariant list == Present(errs[..i])
    {
      assert errs[..i + 1][..i] == errs[..i];
      if errs[i].Some? {
        list := list + [errs[i].value];
      }
    }
    assert errs[..|errs|] == errs;
    PresentMembers(errs);
    if |list| == 0 {
      return None;
    }
    return Some(Errors(context, list));
  }

  /**
   * A test procedure name: an identifier right after the `procedure`
   * keyword (the previous token delivered, directives included) whose
   * lower-case form starts with "test_".
   */
  predicate Candidate(toks: seq<(Token, string)>, k: nat)
    requires k < |toks|
  {
    0 < k && toks[k - 1].0 == PROCEDURE && toks[k].0 == IDENT && HasPrefix(Lower(toks[k].1), "test_")
  }

  /** The names collected from the first n tokens: first spelling wins. */
  function Collected(toks: seq<(Token, string)>, n: nat): seq<string>
    requires n <= |toks|
  {
    if n == 0 then []
    else
      var prev := Collected(toks, n - 1);
      if Candidate(toks, n - 1) && !ContainsFold(prev, toks[n - 1].1) then prev + [toks[n - 1].1] else prev
  }

  /** No two collected names are equal ignoring case. */
  lemma {:induction false} CollectedDistinct(toks: seq<(Token, string)>, n: nat)
    requires n <= |toks|
    ensures forall i, j :: 0 <= i < j < |Collected(toks, n)| ==> !EqualFold(Collected(toks, n)[i], Collected(toks, n)[j])
  {
    if n > 0 {
      CollectedDistinct(toks, n - 1);
      var prev := Collected(toks, n - 1);
      var r := Collected(toks, n);
      var lit := toks[n - 1].1;
      if Candidate(toks, n - 1) && !ContainsFold(prev, lit) {
        assert r == prev + [lit];
        forall i, j | 0 <= i < j < |r|
          ensures !EqualFold(r[i], r[j])
        {
          if j == |prev| {
            assert r[i] == prev[i] && r[j] == lit;
          } else {
            assert r[i] == prev[i] && r[j] == prev[j];
          }
        }
      }
    }
  }

  /** Every candidate is collected, possibly under an earlier spelling. */
  lemma {:induction false} CollectedComplete(toks: seq<(Token, string)>, n: nat)
    requires n <= |toks|
    ensures forall k :: 0 <= k < n && Candidate(toks, k) ==> ContainsFold(Collected(toks, n), toks[k].1)
  {
    if n > 0 {
      CollectedComplete(toks, n - 1);
      var prev := Collected(toks, n - 1);
      var r := Collected(toks, n);
      assert prev == r[..|prev|];
      forall k | 0 <= k < n && Candidate(toks, k)
        ensures ContainsFold(r, toks[k].1)
      {
        if k < n - 1 {
          var i :| 0 <= i < |prev| && EqualFold(prev[i], toks[k].1);
          assert r[i] == prev[i];
        } else if ContainsFold(prev, toks[k].1) {
          var i :| 0 <= i < |prev| && EqualFold(prev[i], toks[k].1);
          assert r[i] == prev[i];
        } else {
          assert r[|r| - 1] == toks[k].1;
        }
      }
    }
  }

  /**
   * Each collected name is a candidate's own spelling, no earlier candidate
   * folds to it, and names appear in the order of those first occurrences.
   */
  lemma {:induction false} CollectedFirstSeen(toks: seq<(Token, string)>, n: nat) returns (ks: seq<nat>)
    requires n <= |toks|
    ensures var r := Collected(toks, n);
      && |ks| == |r|
      && (forall i :: 0 <= i < |ks| ==> ks[i] < n && Candidate(toks, ks[i]) && toks[ks[i]].1 == r[i])
      && (forall i, k :: 0 <= i < |ks| && 0 <= k < ks[i] && Candidate(toks, k) ==> !EqualFold(toks[k].1, r[i]))
      && (forall i, j :: 0 <= i < j < |ks| ==> ks[i] < ks[j])
  {
    if n == 0 {
      ks := [];
    } else {
      ks := CollectedFirstSeen(toks, n - 1);
      var prev := Collected(toks, n - 1);
      var lit := toks[n - 1].1;
      if Candidate(toks, n - 1) && !ContainsFold(prev, lit) {
        CollectedComplete(toks, n - 1);
        forall k | 0 <= k < n - 1 && Candidate(toks, k)
          ensures !EqualFold(toks[k].1, lit)
        {
          var i :| 0 <= i < |prev| && EqualFold(prev[i], toks[k].1);
          assert !EqualFold(prev[i], lit);
        }
        ks := ks + [n - 1];
      }
    }
  }

  /** The callback of NewTestFile, run over the delivered tokens. */
  method CollectTests(toks: seq<(Token, string)>) returns (funcs: seq<string>)
    ensures funcs == Collected(toks, |toks|)
  {
    var pre := ILLEGAL;
    funcs := [];
    for i := 0 to |toks|
      invariant funcs == Collected(toks, i)
      invariant pre == if i == 0 then ILLEGAL else toks[i - 1].0
    {
      var (tok, lit) := toks[i];
      if pre == PROCEDURE && tok == IDENT {
        if HasPrefix(Lower(lit), "test_") {
          var found := Contains(lit, funcs);
          if !found {
            funcs := funcs + [lit];
          }
        }
      }
      pre := tok;
    }
  }

  /** The test procedures of a unit's source, as its tokens deliver them. */
  function TestsIn(src: seq<Byte>): seq<string> {
    var toks := Drive(src, 0, Always).delivered;
    Collected(toks, |toks|)
  }

  /**
   * NewTestFile: the unit name is the base name without its extension; the
   * test procedures come from the package-level Scan in mode 0. `abs`
   * stands for delphi.AbsPath(path) and `read` for the file's bytes, `None`
   * when it cannot be read.
   */
  method NewTestFile(path: string, abs: string, read: Option<seq<Byte>>) returns (file: Option<TestFile>)
    ensures read.None? <==> file.None?
    ensures file.Some? ==>
      && file.value.Path == abs
      && file.value.UnitName == Base(TrimExt(path))
      && file.value.Funcs == TestsIn(read.value)
  {
    var unitName := Base(TrimExt(path));
    if read.None? {
      return None;
    }
    var toks, err := ScanAll(read.value, 0, Always, false);
    assert toks == Drive(read.value, 0, Always).delivered;
    var funcs := CollectTests(toks);
    return Some(TestFile(abs, unitName, funcs));
  }
}

/**
 * Properties of the lexical grammar: what the sub-scanners stop on, the
 * context-sensitive rules of Scan, and how the package-level Scan relates
 * to the token stream.
 */
module LexicalFacts {
  import opened Text
  import opened Token
  import opened Lexical

  /** A string body in which every quote is one of a doubled pair. */
  predicate Doubled(body: seq<Byte>)
    decreases |body|
  {
    if |body| == 0 then true
    else if body[0] != '\'' then Doubled(body[1..])
    else |body| >= 2 && body[1] == '\'' && Doubled(body[2..])
  }

  /**
   * scanString: a string that closes ends on a quote not followed by
   * another one, and every quote before it is doubled; one that does not
   * close stops on a newline or at the end of input. No newline is ever
   * part of a string.
   */
  lemma StringEndSpec(src: seq<Byte>, j: nat)
    requires j <= |src|
    ensures var r := StringEnd(src, j);
      && (forall k :: j <= k < r.end ==> src[k] != '\n')
      && (r.ok ==> j < r.end && src[r.end - 1] == '\'' && At(src, r.end) != '\'' as int && Doubled(src[j..r.end - 1]))
      && (!r.ok ==> (At(src, r.end) == '\n' as int || r.end == |src|) && Doubled(src[j..r.end]))
  {
    StringEndNoNewline(src, j);
    StringEndClosed(src, j);
    StringEndOpen(src, j);
  }

  lemma {:induction false} StringEndNoNewline(src: seq<Byte>, j: nat)
    requires j <= |src|
    ensures forall k :: j <= k < StringEnd(src, j).end ==> src[k] != '\n'
    decreases |src| - j
  {
    var ch := At(src, j);
    if ch == '\n' as int || ch < 0 {
    } else if ch == '\'' as int {
      if At(src, j + 1) == '\'' as int {
        StringEndNoNewline(src, j + 2);
      }
    } else {
      StringEndNoNewline(src, j + 1);
    }
  }

  lemma {:induction false} StringEndClosed(src: seq<Byte>, j: nat)
    requires j <= |src|
    ensures var r := StringEnd(src, j);
      r.ok ==> j < r.end && src[r.end - 1] == '\'' && At(src, r.end) != '\'' as int && Doubled(src[j..r.end - 1])
    decreases |src| - j
  {
    var ch := At(src, j);
    if ch == '\n' as int || ch < 0 {
    } else if ch == '\'' as int {
      if At(src, j + 1) == '\'' as int {
        StringEndClosed(src, j + 2);
        var r := StringEnd(src, j + 2);
        if r.ok {
          SliceDrop(src, j, r.end - 1, 2);
        }
      } else {
        assert src[j..j] == [];
      }
    } else {
      StringEndClosed(src, j + 1);
      var r := StringEnd(src, j + 1);
      if r.ok {
        SliceDrop(src, j, r.end - 1, 1);
      }
    }
  }

  lemma {:induction false} StringEndOpen(src: seq<Byte>, j: nat)
    requires j <= |src|
    ensures var r := StringEnd(src, j);
      !r.ok ==> (At(src, r.end) == '\n' as int || r.end == |src|) && Doubled(src[j..r.end])
    decreases |src| - j
  {
    var ch := At(src, j);
    if ch == '\n' as int || ch < 0 {
      assert src[j..j] == [];
    } else if ch == '\'' as int {
      if At(src, j + 1) == '\'' as int {
        StringEndOpen(src, j + 2);
        var r := StringEnd(src, j + 2);
        if !r.ok {
          SliceDrop(src, j, r.end, 2);
        }
      }
    } else {
      StringEndOpen(src, j + 1);
      var r := StringEnd(src, j + 1);
      if !r.ok {
        SliceDrop(src, j, r.end, 1);
      }
    }
  }

  /**
   * scanChar's digit loop: it passes over digits (hexadecimal ones when
   * `hex`) and reports "not terminated" exactly when it stops on a newline
   * or at the end of input, even after valid digits.
   */
  lemma {:induction false} CharEndSpec(src: seq<Byte>, j: nat, hex: bool)
    requires j <= |src|
    ensures var r := CharEnd(src, j, hex);
      && (forall k :: j <= k < r.end ==> IsDigit(At(src, k)) || (hex && IsHexDigit(At(src, k))))
      && (!r.ok <==> At(src, r.end) == '\n' as int || r.end == |src|)
      && (r.ok ==> !IsDigit(At(src, r.end)) && !(hex && IsHexDigit(At(src, r.end))))
    decreases |src| - j
  {
    var ch := At(src, j);
    if ch == '\n' as int || ch < 0 {
    } else if !IsDigit(ch) && (!hex || !IsHexDigit(ch)) {
    } else {
      CharEndSpec(src, j + 1, hex);
    }
  }

  /**
   * The brace loop of scanComment: a closed comment ends just after the
   * first '}', an unclosed one holds no '}' at all and runs to the end.
   */
  lemma {:induction false} BraceEndSpec(src: seq<Byte>, j: nat)
    requires j <= |src|
    ensures var r := BraceEnd(src, j);
      && (forall k :: j <= k < r.end - 1 ==> src[k] != '}')
      && (r.ok ==> j < r.end && src[r.end - 1] == '}')
      && (!r.ok ==> r.end == |src| && forall k :: j <= k < |src| ==> src[k] != '}')
    decreases |src| - j
  {
    if j < |src| && src[j] != '}' {
      BraceEndSpec(src, j + 1);
    }
  }

  /**
   * The `(* ... *)` loop of scanComment: a closed comment ends just after
   * the first "*)", an unclosed one holds no "*)" and runs to the end.
   */
  lemma {:induction false} StarEndSpec(src: seq<Byte>, j: nat)
    requires j <= |src|
    ensures var r := StarEnd(src, j);
      && (forall k :: j <= k < r.end - 2 ==> !(src[k] == '*' && src[k + 1] == ')'))
      && (r.ok ==> j + 2 <= r.end && src[r.end - 2] == '*' && src[r.end - 1] == ')')
      && (!r.ok ==> r.end == |src| && forall k :: j <= k < |src| - 1 ==> !(src[k] == '*' && src[k + 1] == ')'))
    decreases |src| - j
  {
    if j < |src| && !(src[j] == '*' && At(src, j + 1) == ')' as int) {
      StarEndSpec(src, j + 1);
    }
  }

  /** Of the tokens LexAt emits, an IDENT always spells out its own source bytes. */
  lemma EmitIdentLiteral(src: seq<Byte>, p: nat, last: Token, comments: bool)
    requires p <= |src|
    ensures var s := LexAt(src, p, last, comments);
      s.Emit? && s.tok == IDENT ==> p <= s.end && s.lit == src[p..s.end]
  {
  }

  /**
   * An IDENT returned by Scan is the source text between its position and
   * the cursor after it, so it is as long as the bytes it covers.
   */
  lemma {:induction false} IdentLiteral(src: seq<Byte>, i: nat, last: Token, comments: bool)
    requires i <= |src|
    ensures var r := Lex(src, i, last, comments);
      r.tok == IDENT ==> r.end == r.pos + |r.lit| && r.lit == src[r.pos..r.end]
    decreases |src| - i
  {
    var p := RunEnd(src, i, Blank);
    match LexAt(src, p, last, comments)
    case Skip(end, errs) =>
      IdentLiteral(src, end, last, comments);
    case Emit(tok, lit, end, errs) =>
      EmitIdentLiteral(src, p, last, comments);
  }

  /** Once the input is exhausted, every call of Scan returns EOF. */
  lemma EndOfInputSticky(src: seq<Byte>, i: nat, last: Token, comments: bool)
    requires i <= |src|
    requires forall k :: i <= k < |src| ==> IsWhitespace(src[k] as int)
    ensures Lex(src, i, last, comments) == Lexeme(|src|, EOF, "", |src|, [])
    ensures Stream(src, i, last, comments) == [Lexeme(|src|, EOF, "", |src|, [])]
  {
  }

  /** Every call of Scan that does not return EOF moves the cursor forward. */
  lemma Progress(src: seq<Byte>, i: nat, last: Token, comments: bool)
    requires i <= |src|
    ensures var r := Lex(src, i, last, comments);
      r.tok != EOF ==> i < r.end && src[r.pos..r.end] != []
  {
  }

  /**
   * An identifier is the maximal run of letters, '_' and digits from a
   * letter or '_'; its literal keeps the source casing; a single character
   * is always IDENT and a longer run is the keyword spelled like its lower
   * case form, or IDENT when there is none.
   */
  lemma IdentifierRule(src: seq<Byte>, i: nat, last: Token, comments: bool)
    requires i <= |src|
    requires IsLetter(At(src, RunEnd(src, i, Blank)))
    ensures var r := Lex(src, i, last, comments);
      && r.pos == RunEnd(src, i, Blank) && r.lit == src[r.pos..r.end] && r.errs == []
      && (forall k :: r.pos <= k < r.end ==> IsLetter(At(src, k)) || IsDigit(At(src, k)))
      && !IsLetter(At(src, r.end)) && !IsDigit(At(src, r.end))
      && (|r.lit| == 1 ==> r.tok == IDENT)
      && (|r.lit| > 1 ==> (r.tok == IDENT || IsKeyword(r.tok)) && (r.tok != IDENT ==> Spelling(r.tok) == Lower(r.lit)))
  {
    var p := RunEnd(src, i, Blank);
    var end := RunEnd(src, p, Word);
    LookupSpec(src[p..end]);
  }

  /** A decimal run followed by ".." stops before the dots: an INTEGER, then ELLIPSIS. */
  lemma RangeIsNotFloat(src: seq<Byte>, p: nat, last: Token, comments: bool)
    requires p < |src| && IsDigit(At(src, p))
    requires var e := RunEnd(src, p, Digits(10)); At(src, e) == '.' as int && At(src, e + 1) == '.' as int
    ensures var e := RunEnd(src, p, Digits(10));
      && LexAt(src, p, last, comments) == Emit(INTEGER, src[p..e], e, [])
      && LexAt(src, e, INTEGER, comments) == Emit(ELLIPSIS, "", e + 2, [])
  {
  }

  /**
   * A single '.' after the digits, or an 'e'/'E' exponent marker, makes the
   * number a FLOAT, even when no digit follows.
   */
  lemma FloatRule(src: seq<Byte>, p: nat, last: Token, comments: bool)
    requires p < |src| && IsDigit(At(src, p))
    requires var e := RunEnd(src, p, Digits(10));
      || (At(src, e) == '.' as int && At(src, e + 1) != '.' as int)
      || At(src, e) == 'e' as int || At(src, e) == 'E' as int
    ensures var s := LexAt(src, p, last, comments);
      s.Emit? && s.tok == FLOAT && s.errs == [] && s.lit == src[p..s.end]
  {
  }

  /** '$' without a hexadecimal digit after it is an illegal hexadecimal INTEGER "$". */
  lemma HexWithoutDigits(src: seq<Byte>, p: nat, last: Token, comments: bool)
    requires p < |src| && At(src, p) == '$' as int && !IsHexDigit(At(src, p + 1))
    ensures LexAt(src, p, last, comments) == Emit(INTEGER, "$", p + 1, [ScanError(p, IllegalHexNumber)])
  {
    assert src[p..p + 1] == ['$'];
  }

  /**
   * A quote starts a string that runs to its closing quote; a string that
   * is only the opening quote (a quote at the end of a line or of the
   * input) is a CHAR, and it is unterminated.
   */
  lemma StringRule(src: seq<Byte>, p: nat, last: Token, comments: bool)
    requires p < |src| && src[p] == '\''
    ensures var s := LexAt(src, p, last, comments);
      && s.Emit? && s.lit == src[p..s.end]
      && (s.tok == CHAR <==> s.end == p + 1)
      && (s.tok != CHAR ==> s.tok == STRING)
      && (s.end == p + 1 ==> s.errs == [ScanError(p, StringNotTerminated)])
  {
    StringEndSpec(src, p + 1);
  }

  /**
   * '#' starts a CHAR of decimal digits, or of hexadecimal ones after '$';
   * it is reported unterminated whenever its digits run into a newline or
   * the end of input.
   */
  lemma CharRule(src: seq<Byte>, p: nat, last: Token, comments: bool)
    requires p < |src| && src[p] == '#'
    ensures var s := LexAt(src, p, last, comments);
      && s.Emit? && s.tok == CHAR && s.lit == src[p..s.end]
      && (s.errs != [] <==> At(src, s.end) == '\n' as int || s.end == |src|)
  {
    var hex := At(src, p + 1) == '$' as int;
    CharEndSpec(src, if hex then p + 2 else p + 1, hex);
  }

  /**
   * The '^' rule: after IDENT, RPAREN or RBRACK it is HAT; otherwise it is
   * HAT when a letter and then a letter or digit follow; otherwise it is a
   * CHAR made of '^' and the character after it, which is consumed.
   */
  lemma HatRule(src: seq<Byte>, p: nat, last: Token, comments: bool)
    requires p < |src| && src[p] == '^'
    ensures var s := LexAt(src, p, last, comments);
      var c := At(src, p + 1);
      && s.Emit? && s.errs == []
      && (s.tok == HAT <==> last in {IDENT, RPAREN, RBRACK} || (IsLetter(c) && (IsLetter(At(src, p + 2)) || IsDigit(At(src, p + 2)))))
      && (s.tok == HAT ==> s.end == p + 1)
      && (s.tok != HAT ==> s.tok == CHAR && s.lit == ['^'] + RuneBytes(c) && s.end == (if c < 0 then p + 1 else p + 2))
  {
  }

  /**
   * A `{$` directive is always returned as CDIRECTIVE, with ScanComments
   * or without.
   */
  lemma DirectiveAlwaysReturned(src: seq<Byte>, p: nat, last: Token, comments: bool)
    requires p < |src| && src[p] == '{' && At(src, p + 1) == '$' as int
    ensures var s := LexAt(src, p, last, comments);
      && s.Emit? && s.tok == CDIRECTIVE && s.lit == src[p..s.end]
      && (s.errs == [] <==> src[s.end - 1] == '}')
  {
    BraceEndSpec(src, p + 1);
  }

  /** The three comment syntaxes, after a '//', '(*' or '{' that is not a directive. */
  predicate CommentStart(src: seq<Byte>, p: nat)
    requires p < |src|
  {
    var c := At(src, p + 1);
    || (src[p] == '/' && c == '/' as int)
    || (src[p] == '(' && c == '*' as int)
    || (src[p] == '{' && c != '$' as int)
  }

  /**
   * Comments are returned as COMMENT only under ScanComments and are
   * skipped otherwise; either way a `//` comment stops before the newline
   * and never reports an error, and the other two include their closing
   * delimiter or run to the end of input with an error.
   */
  lemma CommentRule(src: seq<Byte>, p: nat, last: Token, comments: bool)
    requires p < |src| && CommentStart(src, p)
    ensures var s := LexAt(src, p, last, comments);
      && (comments <==> s.Emit?)
      && (s.Emit? ==> s.tok == COMMENT && s.lit == src[p..s.end])
      && (src[p] == '/' ==>
            s.errs == [] && (At(src, s.end) == '\n' as int || s.end == |src|) && forall k :: p <= k < s.end ==> src[k] != '\n')
      && (src[p] == '{' ==> (s.errs == [] <==> src[s.end - 1] == '}'))
      && (src[p] == '(' ==> (s.errs == [] <==> p + 4 <= s.end && src[s.end - 2] == '*' && src[s.end - 1] == ')'))
      && (s.errs != [] ==> s.end == |src| && s.errs == [ScanError(p, CommentNotTerminated)])
  {
    if src[p] == '{' {
      BraceEndSpec(src, p + 1);
    } else if src[p] == '(' {
      StarEndSpec(src, p + 2);
    } else {
      var e := RunEnd(src, p + 2, LineBody);
      assert forall k :: p + 2 <= k < e ==> At(src, k) == src[k] as int && InClass(LineBody, At(src, k));
    }
  }

  /** The characters that start no token. */
  predicate Unknown(ch: int) {
    && !IsLetter(ch) && !IsDigit(ch) && !IsWhitespace(ch) && 0 <= ch < 256
    && (ch as char) !in "$'#^(/{:.,;)[]+-*@<>="
  }

  /**
   * Any other byte is ILLEGAL, with the UTF-8 encoding of that byte as its
   * literal (the byte itself when it is below 0x80) and one error.
   */
  lemma IllegalRule(src: seq<Byte>, p: nat, last: Token, comments: bool)
    requires p < |src| && Unknown(src[p] as int)
    ensures LexAt(src, p, last, comments) == Emit(ILLEGAL, RuneBytes(src[p] as int), p + 1, [ScanError(p, IllegalCharacter(src[p] as int))])
  {
  }

  /**
   * What the package-level Scan delivers, `d`, against the stream `s`:
   * a prefix of it, ending early only on the callback's answer for the
   * last token delivered or on "too many errors"; after a Stop the error
   * is nil and after a Fail it is that error.
   */
  predicate Follows(d: Outcome, s: seq<(Token, string)>, fn: (Token, string) -> Verdict) {
    && 1 <= |d.delivered| <= |s| && d.delivered == s[..|d.delivered|]
    && var (tok, lit) := d.delivered[|d.delivered| - 1];
    && (fn(tok, lit) == Stop ==> d.err == None)
    && (fn(tok, lit).Fail? ==> d.err == Some(fn(tok, lit).msg))
    && (fn(tok, lit) == Continue ==> d.err == Some(TooManyErrors) || (d.err == None && d.delivered == s))
  }

  /** Follows is kept when the same token is put in front of both sides. */
  lemma FollowsCons(x: (Token, string), d: Outcome, s: seq<(Token, string)>, fn: (Token, string) -> Verdict)
    requires Follows(d, s, fn)
    ensures Follows(Outcome([x] + d.delivered, d.err), [x] + s, fn)
  {
    var d' := Outcome([x] + d.delivered, d.err);
    assert d'.delivered[|d'.delivered| - 1] == d.delivered[|d.delivered| - 1];
  }

  /** A single delivered token that heads the stream. */
  lemma FollowsOne(d: Outcome, s: seq<(Token, string)>, fn: (Token, string) -> Verdict)
    requires |s| >= 1 && d.delivered == [s[0]]
    requires var v := fn(s[0].0, s[0].1);
      && (v == Stop ==> d.err == None)
      && (v.Fail? ==> d.err == Some(v.msg))
      && (v == Continue ==> d.err == Some(TooManyErrors) || (d.err == None && |s| == 1))
    ensures Follows(d, s, fn)
  {
  }

  lemma PairsCons(r: Lexeme, rest: seq<Lexeme>)
    ensures Pairs([r] + rest) == [(r.tok, r.lit)] + Pairs(rest)
  {
  }

  /** The package-level Scan hands the callback the tokens of the stream in order. */
  lemma {:induction false} DriveFollowsStream(src: seq<Byte>, i: nat, last: Token, comments: bool, errors: nat,
                                              fn: (Token, string) -> Verdict)
    requires i <= |src|
    ensures Follows(DriveFrom(src, i, last, comments, errors, fn), Pairs(Stream(src, i, last, comments)), fn)
    decreases |src| - i
  {
    var r := Lex(src, i, last, comments);
    var count := errors + |r.errs|;
    var s := Stream(src, i, last, comments);
    if fn(r.tok, r.lit) != Continue || count > 10 || r.tok == EOF {
      FollowsOne(DriveFrom(src, i, last, comments, errors, fn), Pairs(s), fn);
    } else {
      var rest := Stream(src, r.end, NextLast(last, r.tok), comments);
      var drest := DriveFrom(src, r.end, NextLast(last, r.tok), comments, count, fn);
      DriveFollowsStream(src, r.end, NextLast(last, r.tok), comments, count, fn);
      PairsCons(r, rest);
      FollowsCons((r.tok, r.lit), drest, Pairs(rest), fn);
    }
  }

  /** The package-level Scan gives up with "too many errors" exactly when more than ten errors are counted. */
  lemma {:induction false} DriveCutOff(src: seq<Byte>, i: nat, last: Token, comments: bool, errors: nat,
                                       fn: (Token, string) -> Verdict)
    requires i <= |src| && errors <= 10
    ensures CutOff(DriveFrom(src, i, last, comments, errors, fn), Stream(src, i, last, comments), errors, fn)
    decreases |src| - i
  {
    var r := Lex(src, i, last, comments);
    var count := errors + |r.errs|;
    var s := Stream(src, i, last, comments);
    if fn(r.tok, r.lit) != Continue || count > 10 || r.tok == EOF {
      assert s[..0] == [] && s[..1] == [r];
      assert ErrorsIn([r]) == |r.errs| + ErrorsIn([r][1..]);
    } else {
      var rest := Stream(src, r.end, NextLast(last, r.tok), comments);
      DriveCutOff(src, r.end, NextLast(last, r.tok), comments, count, fn);
      CutOffCons(r, rest, DriveFrom(src, r.end, NextLast(last, r.tok), comments, count, fn), errors, fn);
    }
  }

  /** The errors the scanner reports while it returns the lexemes `ts`. */
  function ErrorsIn(ts: seq<Lexeme>): (c: nat)
    ensures ts == [] ==> c == 0
  {
    if |ts| == 0 then 0 else |ts[0].errs| + ErrorsIn(ts[1..])
  }

  /**
   * The error cut-off of the package-level Scan, for a delivery `d` of
   * the stream `ts` that starts with `errors` errors already counted: the
   * errors reported up to the token before the last one delivered are at
   * most ten, and after a Continue for the last one the scan gives up with
   * "too many errors" exactly when the errors up to that token exceed ten.
   */
  predicate CutOff(d: Outcome, ts: seq<Lexeme>, errors: nat, fn: (Token, string) -> Verdict) {
    && 1 <= |d.delivered| <= |ts|
    && errors + ErrorsIn(ts[..|d.delivered| - 1]) <= 10
    && var (tok, lit) := d.delivered[|d.delivered| - 1];
    && (fn(tok, lit) == Continue ==>
          (d.err == Some(TooManyErrors) <==> errors + ErrorsIn(ts[..|d.delivered|]) > 10))
  }

  /** CutOff is kept when a lexeme whose errors keep the count at most ten is put in front. */
  lemma CutOffCons(r: Lexeme, rest: seq<Lexeme>, d: Outcome, errors: nat, fn: (Token, string) -> Verdict)
    requires errors + |r.errs| <= 10
    requires CutOff(d, rest, errors + |r.errs|, fn)
    ensures CutOff(Outcome([(r.tok, r.lit)] + d.delivered, d.err), [r] + rest, errors, fn)
  {
    var n := |d.delivered|;
    var ts := [r] + rest;
    var d' := Outcome([(r.tok, r.lit)] + d.delivered, d.err);
    assert d'.delivered[|d'.delivered| - 1] == d.delivered[n - 1];
    assert ts[..n] == [r] + rest[..n - 1] && ([r] + rest[..n - 1])[1..] == rest[..n - 1];
    assert ts[..n + 1] == [r] + rest[..n] && ([r] + rest[..n])[1..] == rest[..n];
  }

  /**
   * With the callback every caller in the toolkit passes, the package-level
   * Scan delivers the whole stream, or a prefix of it when it gives up with
   * "too many errors", which it does exactly when the errors reported up to
   * the last token delivered exceed ten, and not before.
   */
  lemma DriveAlways(src: seq<Byte>, mode: nat)
    ensures var d := Drive(src, mode, Always);
      var ts := Stream(src, 0, ILLEGAL, ScanComments(mode));
      var s := Pairs(ts);
      && 1 <= |d.delivered| <= |s| && d.delivered == s[..|d.delivered|]
      && (d.err == None ==> d.delivered == s)
      && (d.err != None ==> d.err == Some(TooManyErrors))
      && (d.err == Some(TooManyErrors) <==> ErrorsIn(ts[..|d.delivered|]) > 10)
      && ErrorsIn(ts[..|d.delivered| - 1]) <= 10
  {
    DriveFollowsStream(src, 0, ILLEGAL, ScanComments(mode), 0, Always);
    DriveCutOff(src, 0, ILLEGAL, ScanComments(mode), 0, Always);
  }
}

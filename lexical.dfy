/**
 * The lexical grammar of the Delphi scanner (scanner/scanner.go) as pure
 * functions over the source buffer. Positions are byte offsets; `At` yields
 * the byte at a position, or -1 past the end, exactly as the scanner's `ch`
 * does. `Lex` is what one call of `Scanner.Scan` returns from a given cursor,
 * `Stream` the whole token sequence, and `Drive` the package-level `Scan`
 * loop with its callback and its error cut-off.
 */
module Lexical {
  import opened Text
  import opened Token

  /** The character at position i, or -1 (end of input) outside the buffer. */
  function At(src: seq<Byte>, i: int): (ch: int)
    ensures -1 <= ch < 256
    ensures ch == -1 <==> !(0 <= i < |src|)
  {
    if 0 <= i < |src| then src[i] as int else -1
  }

  predicate IsLetter(ch: int) {
    'a' as int <= ch <= 'z' as int || 'A' as int <= ch <= 'Z' as int || ch == '_' as int
  }

  predicate IsDigit(ch: int) {
    '0' as int <= ch <= '9' as int
  }

  predicate IsHexDigit(ch: int) {
    IsDigit(ch) || 'a' as int <= ch <= 'f' as int || 'A' as int <= ch <= 'F' as int
  }

  /** digitVal: the value of a hexadecimal digit, 16 for anything else. */
  function DigitVal(ch: int): (v: int)
    ensures 0 <= v <= 16
    ensures v < 10 <==> IsDigit(ch)
    ensures v < 16 <==> IsHexDigit(ch)
    ensures IsDigit(ch) ==> v == ch - '0' as int
  {
    if '0' as int <= ch <= '9' as int then ch - '0' as int
    else if 'a' as int <= ch <= 'f' as int then ch - 'a' as int + 10
    else if 'A' as int <= ch <= 'F' as int then ch - 'A' as int + 10
    else 16
  }

  predicate IsWhitespace(ch: int) {
    ch == ' ' as int || ch == '\t' as int || ch == '\n' as int || ch == '\r' as int
  }

  /**
   * The character classes over which the scanner runs a loop: blanks
   * (skipWhitespace), identifier characters (scanIdentifier), digits below a
   * base (scanMantissa) and the body of a `//` comment.
   */
  datatype CharClass = Blank | Word | Digits(base: nat) | LineBody

  predicate InClass(c: CharClass, ch: int) {
    match c
    case Blank => IsWhitespace(ch)
    case Word => IsLetter(ch) || IsDigit(ch)
    case Digits(base) => DigitVal(ch) < base
    case LineBody => ch != '\n' as int && ch >= 0
  }

  /** A class whose loop stops at the end of input; scanMantissa needs base <= 16. */
  predicate Stops(c: CharClass) {
    c.Digits? ==> c.base <= 16
  }

  /** The end of the maximal run of class `c` starting at position i. */
  function RunEnd(src: seq<Byte>, i: nat, c: CharClass): (j: nat)
    requires i <= |src| && Stops(c)
    ensures i <= j <= |src|
    ensures forall k :: i <= k < j ==> InClass(c, At(src, k))
    ensures !InClass(c, At(src, j))
    decreases |src| - i
  {
    if InClass(c, At(src, i)) then RunEnd(src, i + 1, c) else i
  }

  /** A run end is determined by its maximality. */
  lemma RunEndUnique(src: seq<Byte>, i: nat, c: CharClass, j: nat)
    requires i <= j <= |src| && Stops(c)
    requires forall k :: i <= k < j ==> InClass(c, At(src, k))
    requires !InClass(c, At(src, j))
    ensures RunEnd(src, i, c) == j
  {
    var e := RunEnd(src, i, c);
    if e < j {
      assert false;
    } else if j < e {
      assert false;
    }
  }

  datatype ErrorKind =
    | CommentNotTerminated
    | IllegalHexNumber
    | StringNotTerminated
    | CharNotTerminated
    | IllegalCharacter(ch: int)

  /** One call of the error handler: the offset of the offending token and the message. */
  datatype ScanError = ScanError(offset: nat, kind: ErrorKind)

  /** The outcome of a sub-scanner: where it stopped and whether it closed properly. */
  datatype Scanned = Scanned(end: nat, ok: bool)

  /** The outcome of scanNumber: the token, where it stopped, and whether it is legal. */
  datatype Number = Number(tok: Token, end: nat, ok: bool)

  /** scanNumber, started on a decimal digit or '$'. */
  function NumberScan(src: seq<Byte>, p: nat): (n: Number)
    requires p < |src|
    requires IsDigit(At(src, p)) || At(src, p) == '$' as int
    ensures p < n.end <= |src|
  {
    if At(src, p) == '$' as int then
      var e := RunEnd(src, p + 1, Digits(16));
      Number(INTEGER, e, e - p > 1)
    else
      DecimalTail(src, RunEnd(src, p, Digits(10)))
  }

  /** The rest of a decimal number after its integer digits, which end at e1. */
  function DecimalTail(src: seq<Byte>, e1: nat): (n: Number)
    requires e1 <= |src|
    ensures e1 <= n.end <= |src| && n.ok
  {
    if At(src, e1) == '.' as int && At(src, e1 + 1) == '.' as int then Number(INTEGER, e1, true)
    else if At(src, e1) == '.' as int then ExponentTail(src, RunEnd(src, e1 + 1, Digits(10)), FLOAT)
    else ExponentTail(src, e1, INTEGER)
  }

  /** An optional exponent at e2: 'e' or 'E', an optional sign, digits. */
  function ExponentTail(src: seq<Byte>, e2: nat, tok: Token): (n: Number)
    requires e2 <= |src|
    ensures e2 <= n.end <= |src| && n.ok
  {
    if At(src, e2) == 'e' as int || At(src, e2) == 'E' as int then
      var e3 := if At(src, e2 + 1) == '-' as int || At(src, e2 + 1) == '+' as int then e2 + 2 else e2 + 1;
      Number(FLOAT, RunEnd(src, e3, Digits(10)), true)
    else
      Number(tok, e2, true)
  }

  /** scanString after the opening quote: a doubled quote does not close. */
  function StringEnd(src: seq<Byte>, j: nat): (r: Scanned)
    requires j <= |src|
    ensures j <= r.end <= |src|
    decreases |src| - j
  {
    var ch := At(src, j);
    if ch == '\n' as int || ch < 0 then Scanned(j, false)
    else if ch == '\'' as int then
      if At(src, j + 1) == '\'' as int then StringEnd(src, j + 2) else Scanned(j + 1, true)
    else StringEnd(src, j + 1)
  }

  /** scanChar's digit loop: decimal digits, or hexadecimal ones after '$'. */
  function CharEnd(src: seq<Byte>, j: nat, hex: bool): (r: Scanned)
    requires j <= |src|
    ensures j <= r.end <= |src|
    decreases |src| - j
  {
    var ch := At(src, j);
    if ch == '\n' as int || ch < 0 then Scanned(j, false)
    else if !IsDigit(ch) && (!hex || !IsHexDigit(ch)) then Scanned(j, true)
    else CharEnd(src, j + 1, hex)
  }

  /** The `(* ... *)` loop of scanComment, from the character after '*'. */
  function StarEnd(src: seq<Byte>, j: nat): (r: Scanned)
    requires j <= |src|
    ensures j <= r.end <= |src|
    ensures !r.ok ==> r.end == |src|
    decreases |src| - j
  {
    if j == |src| then Scanned(j, false)
    else if src[j] == '*' && At(src, j + 1) == ')' as int then Scanned(j + 2, true)
    else StarEnd(src, j + 1)
  }

  /** The `{ ... }` loop of scanComment: runs up to and including '}'. */
  function BraceEnd(src: seq<Byte>, j: nat): (r: Scanned)
    requires j <= |src|
    ensures j <= r.end <= |src|
    ensures !r.ok ==> r.end == |src|
    decreases |src| - j
  {
    if j == |src| then Scanned(j, false)
    else if src[j] == '}' then Scanned(j + 1, true)
    else BraceEnd(src, j + 1)
  }

  /**
   * scanComment for a comment whose opener is at `offs`: a `//` comment
   * stops before the newline and always closes; a `(*` comment that reaches
   * the end of input falls through to the brace loop, which is then already
   * at the end; anything else is a brace comment.
   */
  function CommentEnd(src: seq<Byte>, offs: nat, opener: int): (r: Scanned)
    requires offs < |src|
    ensures offs < r.end <= |src|
  {
    if opener == '/' as int && At(src, offs + 1) == '/' as int then
      Scanned(RunEnd(src, offs + 2, LineBody), true)
    else if opener == '(' as int && At(src, offs + 1) == '*' as int then
      StarEnd(src, offs + 2)
    else
      BraceEnd(src, offs + 1)
  }

  /**
   * The bytes of string(rune(ch)) for a byte `ch`, or for -1 at the end of
   * input: the UTF-8 encoding of that code point, and of U+FFFD for -1.
   */
  function RuneBytes(ch: int): (b: seq<Byte>)
    requires -1 <= ch < 256
    ensures 1 <= |b| <= 3
    ensures 0 <= ch < 0x80 <==> |b| == 1
    ensures |b| == 1 ==> b[0] as int == ch
  {
    if ch < 0 then [0xEF as char, 0xBF as char, 0xBD as char]
    else if ch < 0x80 then [ch as char]
    else [(0xC0 + ch / 64) as char, (0x80 + ch % 64) as char]
  }

  /** A UTF-8 continuation byte, 10xxxxxx. */
  predicate Continuation(c: Byte) {
    0x80 <= c as int < 0xC0
  }

  /**
   * The code point a one-, two- or three-byte UTF-8 sequence stands for,
   * or None when the lead byte does not announce that length or a
   * following byte is not a continuation byte.
   */
  function DecodeRune(b: seq<Byte>): (r: Option<int>)
    ensures r.Some? ==> 1 <= |b| <= 3
  {
    if |b| == 1 && b[0] as int < 0x80 then Some(b[0] as int)
    else if |b| == 2 && 0xC0 <= b[0] as int < 0xE0 && Continuation(b[1]) then
      Some((b[0] as int - 0xC0) * 64 + (b[1] as int - 0x80))
    else if |b| == 3 && 0xE0 <= b[0] as int < 0xF0 && Continuation(b[1]) && Continuation(b[2]) then
      Some((b[0] as int - 0xE0) * 4096 + (b[1] as int - 0x80) * 64 + (b[2] as int - 0x80))
    else None
  }

  /** RuneBytes is a UTF-8 encoding: it decodes to the byte, and to U+FFFD for -1. */
  lemma RuneBytesDecode(ch: int)
    requires -1 <= ch < 256
    ensures DecodeRune(RuneBytes(ch)) == Some(if ch < 0 then 0xFFFD else ch)
  {
  }

  /**
   * What the scanner does at a token start `p` (whitespace already
   * skipped): a comment that is skipped, or a token that is returned.
   */
  datatype Step =
    | Skip(end: nat, errs: seq<ScanError>)
    | Emit(tok: Token, lit: string, end: nat, errs: seq<ScanError>)

  function ErrorIf(bad: bool, p: nat, kind: ErrorKind): seq<ScanError> {
    if bad then [ScanError(p, kind)] else []
  }

  /** A comment at p: returned as COMMENT under ScanComments, skipped otherwise. */
  function CommentStep(src: seq<Byte>, p: nat, comments: bool): (s: Step)
    requires p < |src|
    ensures p < s.end <= |src|
  {
    var c := CommentEnd(src, p, src[p] as int);
    var errs := ErrorIf(!c.ok, p, CommentNotTerminated);
    if comments then Emit(COMMENT, src[p..c.end], c.end, errs) else Skip(c.end, errs)
  }

  /** An identifier at p; runs longer than one character are looked up as keywords. */
  function LexIdent(src: seq<Byte>, p: nat): (s: Step)
    requires p < |src| && IsLetter(At(src, p))
    ensures s.Emit? && p < s.end <= |src|
  {
    var end := RunEnd(src, p, Word);
    var lit := src[p..end];
    Emit(if |lit| > 1 then Lookup(lit) else IDENT, lit, end, [])
  }

  function LexNumber(src: seq<Byte>, p: nat): (s: Step)
    requires p < |src| && (IsDigit(At(src, p)) || At(src, p) == '$' as int)
    ensures s.Emit? && p < s.end <= |src|
  {
    var n := NumberScan(src, p);
    Emit(n.tok, src[p..n.end], n.end, ErrorIf(!n.ok, p, IllegalHexNumber))
  }

  /** A quoted string at p; a literal of one character (a lone quote) is a CHAR. */
  function LexString(src: seq<Byte>, p: nat): (s: Step)
    requires p < |src|
    ensures s.Emit? && p < s.end <= |src|
  {
    var r := StringEnd(src, p + 1);
    var lit := src[p..r.end];
    Emit(if |lit| == 1 then CHAR else STRING, lit, r.end, ErrorIf(!r.ok, p, StringNotTerminated))
  }

  function LexChar(src: seq<Byte>, p: nat): (s: Step)
    requires p < |src|
    ensures s.Emit? && p < s.end <= |src|
  {
    var hex := At(src, p + 1) == '$' as int;
    var r := CharEnd(src, if hex then p + 2 else p + 1, hex);
    Emit(CHAR, src[p..r.end], r.end, ErrorIf(!r.ok, p, CharNotTerminated))
  }

  /** The lookbehind/lookahead rule for '^' at p. */
  function LexHat(src: seq<Byte>, p: nat, last: Token): (s: Step)
    requires p < |src|
    ensures s.Emit? && p < s.end <= |src|
  {
    var c := At(src, p + 1);
    if last == IDENT || last == RPAREN || last == RBRACK then Emit(HAT, "", p + 1, [])
    else if IsLetter(c) && (IsLetter(At(src, p + 2)) || IsDigit(At(src, p + 2))) then Emit(HAT, "", p + 1, [])
    else Emit(CHAR, ['^'] + RuneBytes(c), if c < 0 then p + 1 else p + 2, [])
  }

  /** '(' , '/' and '{': a comment, a directive, or LPAREN / FDIV. */
  function LexBracket(src: seq<Byte>, p: nat, comments: bool): (s: Step)
    requires p < |src|
    ensures p < s.end <= |src|
  {
    var ch := src[p] as int;
    var c := At(src, p + 1);
    if ch == '(' as int && c != '*' as int then Emit(LPAREN, "", p + 1, [])
    else if ch == '/' as int && c != '/' as int then Emit(FDIV, "", p + 1, [])
    else if ch == '{' as int && c == '$' as int then
      var r := CommentEnd(src, p, ch);
      Emit(CDIRECTIVE, src[p..r.end], r.end, ErrorIf(!r.ok, p, CommentNotTerminated))
    else CommentStep(src, p, comments)
  }

  /** The one- and two-character operators and delimiters, and ILLEGAL for any other character. */
  function LexOperator(src: seq<Byte>, p: nat): (s: Step)
    requires p < |src|
    ensures s.Emit? && p < s.end <= |src|
  {
    var ch := src[p] as int;
    var c := At(src, p + 1);
    if ch == ':' as int then
      if c == '=' as int then Emit(ASSIGN, "", p + 2, []) else Emit(COLON, "", p + 1, [])
    else if ch == '.' as int then
      if c == '.' as int then Emit(ELLIPSIS, "", p + 2, []) else Emit(PERIOD, "", p + 1, [])
    else if ch == ',' as int then Emit(COMMA, "", p + 1, [])
    else if ch == ';' as int then Emit(SEMICOLON, "", p + 1, [])
    else if ch == ')' as int then Emit(RPAREN, "", p + 1, [])
    else if ch == '[' as int then Emit(LBRACK, "", p + 1, [])
    else if ch == ']' as int then Emit(RBRACK, "", p + 1, [])
    else if ch == '+' as int then Emit(ADD, "", p + 1, [])
    else if ch == '-' as int then Emit(SUB, "", p + 1, [])
    else if ch == '*' as int then Emit(MUL, "", p + 1, [])
    else if ch == '@' as int then Emit(AT, "", p + 1, [])
    else if ch == '<' as int then
      if c == '=' as int then Emit(LEQ, "", p + 2, [])
      else if c == '>' as int then Emit(NEQ, "", p + 2, [])
      else Emit(LSS, "", p + 1, [])
    else if ch == '>' as int then
      if c == '=' as int then Emit(GEQ, "", p + 2, []) else Emit(GTR, "", p + 1, [])
    else if ch == '=' as int then Emit(EQL, "", p + 1, [])
    else Emit(ILLEGAL, RuneBytes(ch), p + 1, [ScanError(p, IllegalCharacter(ch))])
  }

  /** The body of Scan after skipWhitespace, for the token starting at p. */
  function LexAt(src: seq<Byte>, p: nat, last: Token, comments: bool): (s: Step)
    requires p <= |src|
    ensures p < |src| ==> p < s.end <= |src|
    ensures p == |src| ==> s == Emit(EOF, "", |src|, [])
  {
    var ch := At(src, p);
    if IsLetter(ch) then LexIdent(src, p)
    else if IsDigit(ch) || ch == '$' as int then LexNumber(src, p)
    else if ch == -1 then Emit(EOF, "", |src|, [])
    else if ch == '\'' as int then LexString(src, p)
    else if ch == '#' as int then LexChar(src, p)
    else if ch == '^' as int then LexHat(src, p, last)
    else if ch == '(' as int || ch == '/' as int || ch == '{' as int then LexBracket(src, p, comments)
    else LexOperator(src, p)
  }

  /** What one call of Scan returns: position, token, literal, where the cursor ends, and the errors reported. */
  datatype Lexeme = Lexeme(pos: nat, tok: Token, lit: string, end: nat, errs: seq<ScanError>)

  /**
   * One call of Scan from cursor i with lookbehind token `last`: whitespace
   * and skipped comments are passed over (their errors are still reported),
   * then one token is read.
   */
  function Lex(src: seq<Byte>, i: nat, last: Token, comments: bool): (r: Lexeme)
    requires i <= |src|
    ensures i <= r.pos <= |src|
    ensures r.tok != EOF ==> r.pos < r.end <= |src|
    ensures r.tok == EOF ==> r.pos == r.end == |src| && r.lit == ""
    decreases |src| - i
  {
    var p := RunEnd(src, i, Blank);
    match LexAt(src, p, last, comments)
    case Skip(end, errs) =>
      var r := Lex(src, end, last, comments);
      r.(errs := errs + r.errs)
    case Emit(tok, lit, end, errs) =>
      Lexeme(p, tok, lit, end, errs)
  }

  /** The lookbehind after a token: comments and directives leave it alone. */
  function NextLast(last: Token, tok: Token): Token {
    if tok == COMMENT || tok == CDIRECTIVE then last else tok
  }

  /** The tokens repeated calls of Scan return from cursor i, up to and including EOF. */
  function Stream(src: seq<Byte>, i: nat, last: Token, comments: bool): (ts: seq<Lexeme>)
    requires i <= |src|
    ensures |ts| >= 1 && ts[|ts| - 1].tok == EOF
    ensures forall k :: 0 <= k < |ts| - 1 ==> ts[k].tok != EOF
    decreases |src| - i
  {
    var r := Lex(src, i, last, comments);
    if r.tok == EOF then [r] else [r] + Stream(src, r.end, NextLast(last, r.tok), comments)
  }

  /** A token as a caller of Scan sees it: its offset, kind and literal. */
  datatype Item = Item(offset: nat, tok: Token, lit: string)

  function Items(ts: seq<Lexeme>): (items: seq<Item>)
    ensures |items| == |ts|
  {
    seq(|ts|, k requires 0 <= k < |ts| => Item(ts[k].pos, ts[k].tok, ts[k].lit))
  }

  lemma ItemsCons(r: Lexeme, rest: seq<Lexeme>)
    ensures Items([r] + rest) == [Item(r.pos, r.tok, r.lit)] + Items(rest)
  {
  }

  /** The items of a stream: the first Scan result, then the items of the stream after it. */
  lemma StreamItems(src: seq<Byte>, i: nat, last: Token, comments: bool)
    requires i <= |src|
    ensures var r := Lex(src, i, last, comments);
      && (r.tok == EOF ==> Items(Stream(src, i, last, comments)) == [Item(r.pos, r.tok, r.lit)])
      && (r.tok != EOF ==>
            r.end <= |src| &&
            Items(Stream(src, i, last, comments)) == [Item(r.pos, r.tok, r.lit)] + Items(Stream(src, r.end, NextLast(last, r.tok), comments)))
  {
    var r := Lex(src, i, last, comments);
    if r.tok != EOF {
      ItemsCons(r, Stream(src, r.end, NextLast(last, r.tok), comments));
    }
  }

  /** The (token, literal) pairs of a sequence of Scan results. */
  function Pairs(ts: seq<Lexeme>): (ps: seq<(Token, string)>)
    ensures |ps| == |ts|
    ensures forall k :: 0 <= k < |ts| ==> ps[k] == (ts[k].tok, ts[k].lit)
  {
    seq(|ts|, k requires 0 <= k < |ts| => (ts[k].tok, ts[k].lit))
  }

  /** What the callback given to the package-level Scan answers for a token. */
  datatype Verdict = Continue | Stop | Fail(msg: string)

  /** The tokens the callback received and the error the package-level Scan returns. */
  datatype Outcome = Outcome(delivered: seq<(Token, string)>, err: Option<string>)

  const TooManyErrors: string := "too many errors"

  /**
   * The loop of the package-level Scan from cursor i, with `errors` errors
   * counted so far: every token goes to the callback; a Stop answer ends
   * with no error, a Fail answer ends with that error, and more than ten
   * errors in all end with "too many errors".
   */
  function DriveFrom(src: seq<Byte>, i: nat, last: Token, comments: bool, errors: nat,
                     fn: (Token, string) -> Verdict): (d: Outcome)
    requires i <= |src|
    ensures |d.delivered| >= 1
    decreases |src| - i
  {
    var r := Lex(src, i, last, comments);
    var count := errors + |r.errs|;
    match fn(r.tok, r.lit)
    case Stop => Outcome([(r.tok, r.lit)], None)
    case Fail(msg) => Outcome([(r.tok, r.lit)], Some(msg))
    case Continue =>
      if count > 10 then Outcome([(r.tok, r.lit)], Some(TooManyErrors))
      else if r.tok == EOF then Outcome([(r.tok, r.lit)], None)
      else
        var rest := DriveFrom(src, r.end, NextLast(last, r.tok), comments, count, fn);
        Outcome([(r.tok, r.lit)] + rest.delivered, rest.err)
  }

  /** The mode bit ScanComments. */
  predicate ScanComments(mode: nat) {
    mode % 2 == 1
  }

  /** The package-level Scan: a fresh scanner over src with the given mode. */
  function Drive(src: seq<Byte>, mode: nat, fn: (Token, string) -> Verdict): Outcome {
    DriveFrom(src, 0, ILLEGAL, ScanComments(mode), 0, fn)
  }

  /** The callback of every caller in the toolkit: it never stops the scan. */
  function Always(tok: Token, lit: string): Verdict {
    Continue
  }

  /** The line starts recorded after reading up to position n: one after each newline. */
  function LineStarts(src: seq<Byte>, n: nat): seq<int>
    requires n <= |src|
  {
    if n == 0 then []
    else LineStarts(src, n - 1) + (if src[n - 1] == '\n' then [n] else [])
  }

  /** The start of the line holding position n. */
  function LineStart(src: seq<Byte>, n: nat): (s: nat)
    requires n <= |src|
    ensures s <= n
    ensures s == 0 || src[s - 1] == '\n'
    ensures forall k :: s <= k < n ==> src[k] != '\n'
  {
    if n == 0 then 0
    else if src[n - 1] == '\n' then n
    else LineStart(src, n - 1)
  }
}

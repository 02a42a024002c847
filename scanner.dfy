/**
 * The scanner object of scanner/scanner.go. Every method advances the cursor
 * the way the source does, one `Next` at a time, and is proved to stop where
 * the lexical grammar of module Lexical says; `Scan` is proved to return
 * exactly `Lex` of its starting state.
 */
module Scanning {
  import opened Text
  import opened Token
  import opened Lexical

  /**
   * The part of token.File the scanner relies on: a base position, a size
   * and, in `lines`, the offsets of the AddLine calls it has received.
   */
  class File {
    const base: int
    const size: nat
    var lines: seq<int>

    constructor (base: int, size: nat)
      ensures this.base == base && this.size == size && lines == []
    {
      this.base := base;
      this.size := size;
      lines := [];
    }

    method AddLine(offset: int)
      modifies this`lines
      ensures lines == old(lines) + [offset]
    {
      lines := lines + [offset];
    }

    /** The file-set position of an offset. */
    function Pos(offset: int): int {
      base + offset
    }
  }

  /** The errors a handler sees: all of them if one is installed, none otherwise. */
  function Handled(hasHandler: bool, errs: seq<ScanError>): seq<ScanError> {
    if hasHandler then errs else []
  }

  lemma HandledAppend(hasHandler: bool, log: seq<ScanError>, a: seq<ScanError>, b: seq<ScanError>)
    ensures (log + Handled(hasHandler, a)) + Handled(hasHandler, b) == log + Handled(hasHandler, a + b)
  {
    AppendAssociative(log, Handled(hasHandler, a), Handled(hasHandler, b));
  }

  lemma SkipCompose(want: Lexeme, r0: Lexeme, r1: Lexeme, acc: seq<ScanError>, errs: seq<ScanError>)
    requires want == r0.(errs := acc + r0.errs)
    requires r0 == r1.(errs := errs + r1.errs)
    ensures want == r1.(errs := (acc + errs) + r1.errs)
  {
    AppendAssociative(acc, errs, r1.errs);
  }

  /** The ScanComments mode bit. */
  const ScanCommentsMode: nat := 1

  class Scanner {
    const file: File
    const src: seq<Byte>
    /** Whether an error handler was installed; its calls are logged in `reported`. */
    const hasHandler: bool
    const mode: nat

    var ch: int
    var offset: int
    var rdOffset: int
    var lineOffset: int

    var lastTok: Token
    var ErrorCount: int

    /** The calls made to the installed error handler since Init. */
    var reported: seq<ScanError>
    /** The lines the file held when Init was called. */
    ghost var baseLines: seq<int>

    /**
     * The cursor invariant: `ch` is the character at `offset` (or -1 at the
     * end), `rdOffset` the position after it, `lineOffset` the start of its
     * line, and the file has been told of every line start passed so far.
     */
    ghost predicate Valid()
      reads this, file
    {
      && file.size == |src|
      && 0 <= offset <= |src|
      && ch == At(src, offset)
      && rdOffset == (if offset < |src| then offset + 1 else |src|)
      && lineOffset == LineStart(src, offset)
      && file.lines == baseLines + LineStarts(src, offset)
    }

    /** The state Init sets up just before reading the first character. */
    ghost predicate Primed()
      reads this, file
    {
      && file.size == |src|
      && offset == 0 && rdOffset == 0 && lineOffset == 0
      && ch == ' ' as int
      && file.lines == baseLines
    }

    predicate Comments() {
      ScanComments(mode)
    }

    /** next: read the next character, telling the file when a line is left. */
    method Next()
      requires Valid() || Primed()
      modifies this`ch, this`offset, this`rdOffset, this`lineOffset, file`lines
      ensures Valid()
      ensures offset == old(rdOffset)
    {
      if rdOffset < |src| {
        offset := rdOffset;
        if ch == '\n' as int {
          lineOffset := offset;
          file.AddLine(offset);
        }
        var r := src[rdOffset] as int;
        rdOffset := rdOffset + 1;
        ch := r;
      } else {
        offset := |src|;
        if ch == '\n' as int {
          lineOffset := offset;
          file.AddLine(offset);
        }
        ch := -1;
      }
    }

    /** peek: the character after the current one, without moving. */
    function Peek(): (r: int)
      reads this, file
      requires Valid()
      ensures r == At(src, offset + 1)
    {
      if rdOffset >= |src| then -1 else src[rdOffset] as int
    }

    /**
     * Init, on a zero Scanner: bind it to a file of the same size as src and
     * read the first character. The byte order mark test of the source can
     * never succeed, since a character read from a byte is below 256.
     */
    constructor Init(file: File, src: seq<Byte>, hasHandler: bool, mode: nat)
      requires file.size == |src|
      modifies file`lines
      ensures Valid()
      ensures this.file == file && this.src == src && this.hasHandler == hasHandler && this.mode == mode
      ensures offset == 0 && lineOffset == 0 && ErrorCount == 0 && reported == []
      ensures ch == At(src, 0)
      ensures lastTok == ILLEGAL
      ensures file.lines == old(file.lines)
    {
      this.file := file;
      this.src := src;
      this.hasHandler := hasHandler;
      this.mode := mode;
      ch := ' ' as int;
      offset := 0;
      rdOffset := 0;
      lineOffset := 0;
      lastTok := ILLEGAL;
      ErrorCount := 0;
      reported := [];
      baseLines := file.lines;
      new;
      Next();
    }

    /** error: report to the handler, if any, and count. */
    method Error(offs: nat, kind: ErrorKind)
      modifies this`ErrorCount, this`reported
      ensures ErrorCount == old(ErrorCount) + 1
      ensures reported == old(reported) + Handled(hasHandler, [ScanError(offs, kind)])
    {
      if hasHandler {
        reported := reported + [ScanError(offs, kind)];
      }
      ErrorCount := ErrorCount + 1;
    }

    /** skipWhitespace: stop at the first character that is not blank. */
    method SkipWhitespace()
      requires Valid()
      modifies this`ch, this`offset, this`rdOffset, this`lineOffset, file`lines
      ensures Valid()
      ensures offset == RunEnd(src, old(offset), Blank)
    {
      while IsWhitespace(ch)
        invariant Valid()
        invariant RunEnd(src, offset, Blank) == RunEnd(src, old(offset), Blank)
        decreases |src| - offset
      {
        Next();
      }
    }

    /** scanIdentifier: the maximal run of letters and digits from the cursor. */
    method ScanIdentifier() returns (lit: string)
      requires Valid()
      modifies this`ch, this`offset, this`rdOffset, this`lineOffset, file`lines
      ensures Valid()
      ensures offset == RunEnd(src, old(offset), Word)
      ensures lit == src[old(offset)..offset]
    {
      var offs := offset;
      while IsLetter(ch) || IsDigit(ch)
        invariant Valid() && offs <= offset
        invariant RunEnd(src, offset, Word) == RunEnd(src, offs, Word)
        decreases |src| - offset
      {
        Next();
      }
      lit := src[offs..offset];
    }

    /** scanMantissa: skip digits below `base`; a base above 16 would never stop at the end of input. */
    method ScanMantissa(base: nat)
      requires Valid() && base <= 16
      modifies this`ch, this`offset, this`rdOffset, this`lineOffset, file`lines
      ensures Valid()
      ensures offset == RunEnd(src, old(offset), Digits(base))
    {
      while DigitVal(ch) < base
        invariant Valid()
        invariant RunEnd(src, offset, Digits(base)) == RunEnd(src, old(offset), Digits(base))
        decreases |src| - offset
      {
        Next();
      }
    }

    /** scanNumber, from a decimal digit or '$'. */
    method ScanNumber() returns (tok: Token, lit: string)
      requires Valid() && (IsDigit(ch) || ch == '$' as int)
      modifies this`ch, this`offset, this`rdOffset, this`lineOffset, file`lines
      modifies this`ErrorCount, this`reported
      ensures Valid()
      ensures var n := NumberScan(src, old(offset));
        && tok == n.tok && offset == n.end && lit == src[old(offset)..offset]
        && ErrorCount == old(ErrorCount) + |ErrorIf(!n.ok, old(offset), IllegalHexNumber)|
        && reported == old(reported) + Handled(hasHandler, ErrorIf(!n.ok, old(offset), IllegalHexNumber))
    {
      var offs := offset;
      if ch == '$' as int {
        tok := INTEGER;
        Next();
        ScanMantissa(16);
        if offset - offs <= 1 {
          Error(offs, IllegalHexNumber);
        }
      } else {
        ScanMantissa(10);
        tok := ScanDecimalTail();
      }
      lit := src[offs..offset];
    }

    /** The part of scanNumber after the integer digits of a decimal number. */
    method ScanDecimalTail() returns (tok: Token)
      requires Valid()
      modifies this`ch, this`offset, this`rdOffset, this`lineOffset, file`lines
      ensures Valid()
      ensures var n := DecimalTail(src, old(offset));
        tok == n.tok && offset == n.end
    {
      if ch == '.' as int && Peek() == '.' as int {
        return INTEGER;
      }
      tok := INTEGER;
      if ch == '.' as int {
        tok := FLOAT;
        Next();
        ScanMantissa(10);
      }
      tok := ScanExponent(tok);
    }

    /** The exponent part of scanNumber: 'e' or 'E', an optional sign and digits. */
    method ScanExponent(tok0: Token) returns (tok: Token)
      requires Valid()
      modifies this`ch, this`offset, this`rdOffset, this`lineOffset, file`lines
      ensures Valid()
      ensures var n := ExponentTail(src, old(offset), tok0);
        tok == n.tok && offset == n.end
    {
      tok := tok0;
      if ch == 'e' as int || ch == 'E' as int {
        tok := FLOAT;
        Next();
        if ch == '-' as int || ch == '+' as int {
          Next();
        }
        ScanMantissa(10);
      }
    }

    /** scanString, after the opening quote. */
    method ScanString() returns (lit: string)
      requires Valid() && offset >= 1
      modifies this`ch, this`offset, this`rdOffset, this`lineOffset, file`lines
      modifies this`ErrorCount, this`reported
      ensures Valid()
      ensures var r := StringEnd(src, old(offset));
        && offset == r.end && lit == src[old(offset) - 1..offset]
        && ErrorCount == old(ErrorCount) + |ErrorIf(!r.ok, old(offset) - 1, StringNotTerminated)|
        && reported == old(reported) + Handled(hasHandler, ErrorIf(!r.ok, old(offset) - 1, StringNotTerminated))
    {
      var offs := offset - 1;
      while true
        invariant Valid() && old(offset) <= offset
        invariant StringEnd(src, offset) == StringEnd(src, old(offset))
        invariant ErrorCount == old(ErrorCount) && reported == old(reported)
        decreases |src| - offset
      {
        var c := ch;
        if c == '\n' as int || c < 0 {
          Error(offs, StringNotTerminated);
          break;
        }
        Next();
        if c == '\'' as int {
          if ch == '\'' as int {
            Next();
          } else {
            break;
          }
        }
      }
      lit := src[offs..offset];
    }

    /** scanChar, after the '#'. */
    method ScanChar() returns (lit: string)
      requires Valid() && offset >= 1
      modifies this`ch, this`offset, this`rdOffset, this`lineOffset, file`lines
      modifies this`ErrorCount, this`reported
      ensures Valid()
      ensures var hex := At(src, old(offset)) == '$' as int;
        var r := CharEnd(src, if hex then old(offset) + 1 else old(offset), hex);
        && offset == r.end && lit == src[old(offset) - 1..offset]
        && ErrorCount == old(ErrorCount) + |ErrorIf(!r.ok, old(offset) - 1, CharNotTerminated)|
        && reported == old(reported) + Handled(hasHandler, ErrorIf(!r.ok, old(offset) - 1, CharNotTerminated))
    {
      var offs := offset - 1;
      var hex := ch == '$' as int;
      if hex {
        Next();
      }
      ghost var start := offset;
      while true
        invariant Valid() && start <= offset
        invariant CharEnd(src, offset, hex) == CharEnd(src, start, hex)
        invariant ErrorCount == old(ErrorCount) && reported == old(reported)
        decreases |src| - offset
      {
        var c := ch;
        if c == '\n' as int || c < 0 {
          Error(offs, CharNotTerminated);
          break;
        }
        if !IsDigit(c) {
          if !hex || !IsHexDigit(c) {
            break;
          }
        }
        Next();
      }
      lit := src[offs..offset];
    }

    /**
     * scanComment, with the opener at offset-1: a `//` comment, a `(*`
     * comment, or else a brace comment; the brace loop is also where an
     * unterminated `(*` comment ends up.
     */
    method ScanComment(opener: int) returns (lit: string)
      requires Valid() && offset >= 1
      modifies this`ch, this`offset, this`rdOffset, this`lineOffset, file`lines
      modifies this`ErrorCount, this`reported
      ensures Valid()
      ensures var r := CommentEnd(src, old(offset) - 1, opener);
        && offset == r.end && lit == src[old(offset) - 1..offset]
        && ErrorCount == old(ErrorCount) + |ErrorIf(!r.ok, old(offset) - 1, CommentNotTerminated)|
        && reported == old(reported) + Handled(hasHandler, ErrorIf(!r.ok, old(offset) - 1, CommentNotTerminated))
    {
      var offs := offset - 1;
      if opener == '/' as int && ch == '/' as int {
        Next();
        ScanLineBody();
        lit := src[offs..offset];
        return;
      }
      if opener == '(' as int && ch == '*' as int {
        Next();
        var closed := ScanStarBody();
        if closed {
          lit := src[offs..offset];
          return;
        }
      }
      var closed := ScanBraceBody();
      if !closed {
        Error(offs, CommentNotTerminated);
      }
      lit := src[offs..offset];
    }

    /** The loop of a `//` comment: up to the newline or the end of input. */
    method ScanLineBody()
      requires Valid()
      modifies this`ch, this`offset, this`rdOffset, this`lineOffset, file`lines
      ensures Valid()
      ensures offset == RunEnd(src, old(offset), LineBody)
    {
      while ch != '\n' as int && ch >= 0
        invariant Valid()
        invariant RunEnd(src, offset, LineBody) == RunEnd(src, old(offset), LineBody)
        decreases |src| - offset
      {
        Next();
      }
    }

    /** The loop of a `(*` comment: past the closing `*)`, or to the end of input. */
    method ScanStarBody() returns (closed: bool)
      requires Valid()
      modifies this`ch, this`offset, this`rdOffset, this`lineOffset, file`lines
      ensures Valid()
      ensures Scanned(offset, closed) == StarEnd(src, old(offset))
    {
      while ch >= 0
        invariant Valid()
        invariant StarEnd(src, offset) == StarEnd(src, old(offset))
        decreases |src| - offset
      {
        var c := ch;
        Next();
        if c == '*' as int && ch == ')' as int {
          Next();
          return true;
        }
      }
      return false;
    }

    /** The loop of a brace comment: past the closing '}', or to the end of input. */
    method ScanBraceBody() returns (closed: bool)
      requires Valid()
      modifies this`ch, this`offset, this`rdOffset, this`lineOffset, file`lines
      ensures Valid()
      ensures Scanned(offset, closed) == BraceEnd(src, old(offset))
    {
      while ch >= 0
        invariant Valid()
        invariant BraceEnd(src, offset) == BraceEnd(src, old(offset))
        decreases |src| - offset
      {
        var c := ch;
        Next();
        if c == '}' as int {
          return true;
        }
      }
      return false;
    }

    /** switch2: tok1 if an '=' follows (and is consumed), tok0 otherwise. */
    method Switch2(tok0: Token, tok1: Token) returns (tok: Token)
      requires Valid()
      modifies this`ch, this`offset, this`rdOffset, this`lineOffset, file`lines
      ensures Valid()
      ensures old(ch) == '=' as int ==> tok == tok1 && offset == old(offset) + 1
      ensures old(ch) != '=' as int ==> tok == tok0 && offset == old(offset)
    {
      if ch == '=' as int {
        Next();
        return tok1;
      }
      return tok0;
    }

    /** switch3: like switch2, and tok2 if `ch2` follows instead. */
    method Switch3(tok0: Token, tok1: Token, ch2: int, tok2: Token) returns (tok: Token)
      requires Valid()
      modifies this`ch, this`offset, this`rdOffset, this`lineOffset, file`lines
      ensures Valid()
      ensures old(ch) == '=' as int ==> tok == tok1 && offset == old(offset) + 1
      ensures old(ch) != '=' as int && old(ch) == ch2 ==> tok == tok2 && offset == old(rdOffset)
      ensures old(ch) != '=' as int && old(ch) != ch2 ==> tok == tok0 && offset == old(offset)
    {
      if ch == '=' as int {
        Next();
        return tok1;
      }
      if ch == ch2 {
        Next();
        return tok2;
      }
      return tok0;
    }

    /**
     * The token switch of Scan, at a token start: it either skips a comment
     * (`skip`) or yields a token, as `LexAt` says.
     */
    method ScanToken() returns (skip: bool, tok: Token, lit: string)
      requires Valid()
      modifies this`ch, this`offset, this`rdOffset, this`lineOffset, file`lines
      modifies this`ErrorCount, this`reported
      ensures Valid()
      ensures var s := LexAt(src, old(offset), lastTok, Comments());
        && offset == s.end && skip == s.Skip?
        && (s.Emit? ==> tok == s.tok && lit == s.lit)
        && ErrorCount == old(ErrorCount) + |s.errs|
        && reported == old(reported) + Handled(hasHandler, s.errs)
    {
      var c := ch;
      skip, tok, lit := false, ILLEGAL, "";
      if IsLetter(c) {
        lit := ScanIdentifier();
        if |lit| > 1 {
          tok := Lookup(lit);
        } else {
          tok := IDENT;
        }
        return;
      }
      if IsDigit(c) || c == '$' as int {
        tok, lit := ScanNumber();
        return;
      }
      skip, tok, lit := ScanSymbol();
    }

    /** The cases of Scan's switch that consume their first character before deciding. */
    method ScanSymbol() returns (skip: bool, tok: Token, lit: string)
      requires Valid() && !IsLetter(ch) && !IsDigit(ch) && ch != '$' as int
      modifies this`ch, this`offset, this`rdOffset, this`lineOffset, file`lines
      modifies this`ErrorCount, this`reported
      ensures Valid()
      ensures var s := LexAt(src, old(offset), lastTok, Comments());
        && offset == s.end && skip == s.Skip?
        && (s.Emit? ==> tok == s.tok && lit == s.lit)
        && ErrorCount == old(ErrorCount) + |s.errs|
        && reported == old(reported) + Handled(hasHandler, s.errs)
    {
      var c := ch;
      skip, tok, lit := false, ILLEGAL, "";
      Next();
      if c == -1 {
        tok := EOF;
      } else if c == '\'' as int || c == '#' as int {
        tok, lit := ScanQuoted(c);
      } else if c == '^' as int {
        tok, lit := ScanCaret();
      } else if c == '(' as int || c == '/' as int || c == '{' as int {
        skip, tok, lit := ScanBracket(c);
      } else {
        tok, lit := ScanOperator(c);
      }
    }

    /** The string and character literal cases of Scan, with the quote or '#' consumed. */
    method ScanQuoted(c: int) returns (tok: Token, lit: string)
      requires Valid() && 1 <= offset && At(src, offset - 1) == c
      requires c == '\'' as int || c == '#' as int
      modifies this`ch, this`offset, this`rdOffset, this`lineOffset, file`lines
      modifies this`ErrorCount, this`reported
      ensures Valid()
      ensures var s := if c == '#' as int then LexChar(src, old(offset) - 1) else LexString(src, old(offset) - 1);
        && offset == s.end && tok == s.tok && lit == s.lit
        && ErrorCount == old(ErrorCount) + |s.errs|
        && reported == old(reported) + Handled(hasHandler, s.errs)
    {
      if c == '\'' as int {
        tok := STRING;
        lit := ScanString();
        if |lit| == 1 {
          tok := CHAR;
        }
      } else {
        tok := CHAR;
        lit := ScanChar();
      }
    }

    /** The '^' case of Scan, with the '^' consumed. */
    method ScanCaret() returns (tok: Token, lit: string)
      requires Valid() && 1 <= offset && At(src, offset - 1) == '^' as int
      modifies this`ch, this`offset, this`rdOffset, this`lineOffset, file`lines
      ensures Valid()
      ensures var s := LexHat(src, old(offset) - 1, lastTok);
        offset == s.end && tok == s.tok && lit == s.lit
    {
      lit := "";
      if lastTok == IDENT || lastTok == RPAREN || lastTok == RBRACK {
        tok := HAT;
      } else {
        var pch := Peek();
        if IsLetter(ch) && (IsLetter(pch) || IsDigit(pch)) {
          tok := HAT;
        } else {
          tok := CHAR;
          lit := ['^'] + RuneBytes(ch);
          Next();
        }
      }
    }

    /** The cases of Scan for '(', '/' and '{', with that character consumed. */
    method ScanBracket(c: int) returns (skip: bool, tok: Token, lit: string)
      requires Valid() && 1 <= offset && At(src, offset - 1) == c
      requires c == '(' as int || c == '/' as int || c == '{' as int
      modifies this`ch, this`offset, this`rdOffset, this`lineOffset, file`lines
      modifies this`ErrorCount, this`reported
      ensures Valid()
      ensures var s := LexBracket(src, old(offset) - 1, Comments());
        && offset == s.end && skip == s.Skip?
        && (s.Emit? ==> tok == s.tok && lit == s.lit)
        && ErrorCount == old(ErrorCount) + |s.errs|
        && reported == old(reported) + Handled(hasHandler, s.errs)
    {
      skip, tok, lit := false, ILLEGAL, "";
      if c == '(' as int {
        if ch == '*' as int {
          var comment := ScanComment('(' as int);
          if !Comments() {
            skip := true;
            return;
          }
          tok := COMMENT;
          lit := comment;
        } else {
          tok := LPAREN;
        }
      } else if c == '/' as int {
        if ch == '/' as int {
          var comment := ScanComment('/' as int);
          if !Comments() {
            skip := true;
            return;
          }
          tok := COMMENT;
          lit := comment;
        } else {
          tok := FDIV;
        }
      } else {
        tok := COMMENT;
        if ch == '$' as int {
          lit := ScanComment('{' as int);
          tok := CDIRECTIVE;
        } else {
          lit := ScanComment('{' as int);
          if !Comments() {
            lit := "";
            skip := true;
            return;
          }
        }
      }
    }

    /** The remaining cases of Scan, with the character consumed: operators, delimiters and ILLEGAL. */
    method ScanOperator(c: int) returns (tok: Token, lit: string)
      requires Valid() && 1 <= offset && At(src, offset - 1) == c && c >= 0
      modifies this`ch, this`offset, this`rdOffset, this`lineOffset, file`lines
      modifies this`ErrorCount, this`reported
      ensures Valid()
      ensures var s := LexOperator(src, old(offset) - 1);
        && offset == s.end && tok == s.tok && lit == s.lit
        && ErrorCount == old(ErrorCount) + |s.errs|
        && reported == old(reported) + Handled(hasHandler, s.errs)
    {
      lit := "";
      if c == ':' as int {
        tok := Switch2(COLON, ASSIGN);
      } else if c == '.' as int {
        if ch == '.' as int {
          Next();
          tok := ELLIPSIS;
        } else {
          tok := PERIOD;
        }
      } else if c == ',' as int {
        tok := COMMA;
      } else if c == ';' as int {
        tok := SEMICOLON;
      } else if c == ')' as int {
        tok := RPAREN;
      } else if c == '[' as int {
        tok := LBRACK;
      } else if c == ']' as int {
        tok := RBRACK;
      } else if c == '+' as int {
        tok := ADD;
      } else if c == '-' as int {
        tok := SUB;
      } else if c == '*' as int {
        tok := MUL;
      } else if c == '@' as int {
        tok := AT;
      } else if c == '<' as int {
        tok := Switch3(LSS, LEQ, '>' as int, NEQ);
      } else if c == '>' as int {
        tok := Switch2(GTR, GEQ);
      } else if c == '=' as int {
        tok := EQL;
      } else {
        Error(offset - 1, IllegalCharacter(c));
        tok := ILLEGAL;
        lit := RuneBytes(c);
      }
    }

    /**
     * One pass of Scan's loop: skip whitespace, then read a token or skip a
     * comment; `p` is where the token starts and `errs` the errors reported.
     */
    method ScanOnce() returns (skip: bool, p: nat, tok: Token, lit: string, ghost errs: seq<ScanError>)
      requires Valid()
      modifies this`ch, this`offset, this`rdOffset, this`lineOffset, file`lines
      modifies this`ErrorCount, this`reported
      ensures Valid() && old(offset) <= offset && (skip ==> old(offset) < offset)
      ensures ErrorCount == old(ErrorCount) + |errs| && reported == old(reported) + Handled(hasHandler, errs)
      ensures skip ==>
        Lex(src, old(offset), lastTok, Comments())
        == (var r := Lex(src, offset, lastTok, Comments()); r.(errs := errs + r.errs))
      ensures !skip ==> Lex(src, old(offset), lastTok, Comments()) == Lexeme(p, tok, lit, offset, errs)
    {
      SkipWhitespace();
      p := offset;
      skip, tok, lit := ScanToken();
      errs := LexAt(src, p, lastTok, Comments()).errs;
    }

    /**
     * Scan: the next token from the cursor. Skipped comments loop back to
     * the whitespace skip; the lookbehind ignores comments and directives.
     */
    method Scan() returns (pos: int, tok: Token, lit: string)
      requires Valid()
      modifies this`ch, this`offset, this`rdOffset, this`lineOffset, file`lines
      modifies this`lastTok, this`ErrorCount, this`reported
      ensures Valid()
      ensures var r := Lex(src, old(offset), old(lastTok), Comments());
        && pos == file.Pos(r.pos) && tok == r.tok && lit == r.lit && offset == r.end
        && ErrorCount == old(ErrorCount) + |r.errs|
        && reported == old(reported) + Handled(hasHandler, r.errs)
        && lastTok == NextLast(old(lastTok), r.tok)
    {
      pos, tok, lit := ScanLoop();
      if tok != COMMENT && tok != CDIRECTIVE {
        lastTok := tok;
      }
    }

    /** The loop of Scan: passes over skipped comments until a token is read. */
    method ScanLoop() returns (pos: int, tok: Token, lit: string)
      requires Valid()
      modifies this`ch, this`offset, this`rdOffset, this`lineOffset, file`lines
      modifies this`ErrorCount, this`reported
      ensures Valid()
      ensures var r := Lex(src, old(offset), lastTok, Comments());
        && pos == file.Pos(r.pos) && tok == r.tok && lit == r.lit && offset == r.end
        && ErrorCount == old(ErrorCount) + |r.errs|
        && reported == old(reported) + Handled(hasHandler, r.errs)
      decreases |src| - offset
    {
      var skip, p;
      ghost var errs;
      skip, p, tok, lit, errs := ScanOnce();
      if !skip {
        return file.Pos(p), tok, lit;
      }
      ghost var rest := Lex(src, offset, lastTok, Comments());
      pos, tok, lit := ScanLoop();
      HandledAppend(hasHandler, old(reported), errs, rest.errs);
    }
  }

  /**
   * The package-level Scan: a fresh scanner over src hands each token to
   * `fn` until EOF, until `fn` stops it, or until more than ten errors have
   * been counted.
   */
  method ScanAll(src: seq<Byte>, mode: nat, fn: (Token, string) -> Verdict, hasHandler: bool)
    returns (delivered: seq<(Token, string)>, err: Option<string>)
    ensures Outcome(delivered, err) == Drive(src, mode, fn)
  {
    var file := new File(1, |src|);
    var s := new Scanner.Init(file, src, hasHandler, mode);
    var tok := ILLEGAL;
    var lit: string;
    delivered := [];
    while tok != EOF
      invariant s.file == file && s.src == src && s.mode == mode && s.Valid()
      invariant s.ErrorCount >= 0
      invariant tok != EOF ==>
        Drive(src, mode, fn)
        == (var rest := DriveFrom(src, s.offset, s.lastTok, ScanComments(mode), s.ErrorCount, fn);
            Outcome(delivered + rest.delivered, rest.err))
      invariant tok == EOF ==> Drive(src, mode, fn) == Outcome(delivered, None)
      decreases |src| - s.offset, if tok == EOF then 0 else 1
    {
      var _, t, l := s.Scan();
      tok, lit := t, l;
      if tok != EOF {
        ghost var rest := DriveFrom(src, s.offset, s.lastTok, ScanComments(mode), s.ErrorCount, fn);
        AppendAssociative(delivered, [(tok, lit)], rest.delivered);
      }
      delivered := delivered + [(tok, lit)];
      var verdict := fn(tok, lit);
      if verdict.Stop? {
        return delivered, None;
      }
      if verdict.Fail? {
        return delivered, Some(verdict.msg);
      }
      if s.ErrorCount > 10 {
        return delivered, Some(TooManyErrors);
      }
    }
    return delivered, None;
  }

  /**
   * A scanner driven directly until EOF, as cmd/dunits and cmd/drename do:
   * every token with its offset (the file-set position less the file's
   * base), EOF included.
   */
  method Tokenize(src: seq<Byte>, mode: nat, hasHandler: bool) returns (items: seq<Item>)
    ensures items == Items(Stream(src, 0, ILLEGAL, ScanComments(mode)))
  {
    var file := new File(1, |src|);
    var s := new Scanner.Init(file, src, hasHandler, mode);
    items := [];
    while true
      invariant s.file == file && s.src == src && s.mode == mode && s.Valid()
      invariant Items(Stream(src, 0, ILLEGAL, ScanComments(mode)))
        == items + Items(Stream(src, s.offset, s.lastTok, ScanComments(mode)))
      decreases |src| - s.offset
    {
      ghost var offset, last := s.offset, s.lastTok;
      StreamItems(src, offset, last, ScanComments(mode));
      var pos, tok, lit := s.Scan();
      var item := Item(pos - file.base, tok, lit);
      if tok == EOF {
        items := items + [item];
        return;
      }
      AppendAssociative(items, [item], Items(Stream(src, s.offset, s.lastTok, ScanComments(mode))));
      items := items + [item];
    }
  }
}

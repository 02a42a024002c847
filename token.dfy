/**
 * The token kinds of token/token.go: the enumeration, the spelling table,
 * String, Precedence, the keyword map and Lookup, and the three family
 * predicates. A Go `Token` is an `int`; the constants keep their Go values.
 */
module Token {
  import opened Text

  type Token = int

  const ILLEGAL: Token := 0
  const EOF: Token := 1
  const COMMENT: Token := 2
  const CDIRECTIVE: Token := 3
  const LiteralBeg: Token := 4
  const IDENT: Token := 5
  const INTEGER: Token := 6
  const FLOAT: Token := 7
  const CHAR: Token := 8
  const STRING: Token := 9
  const LiteralEnd: Token := 10
  const OperatorBeg: Token := 11
  const AT: Token := 12
  const HAT: Token := 13
  const ADD: Token := 14
  const SUB: Token := 15
  const MUL: Token := 16
  const FDIV: Token := 17
  const EQL: Token := 18
  const LSS: Token := 19
  const GTR: Token := 20
  const NEQ: Token := 21
  const LEQ: Token := 22
  const GEQ: Token := 23
  const ASSIGN: Token := 24
  const COLON: Token := 25
  const COMMA: Token := 26
  const PERIOD: Token := 27
  const ELLIPSIS: Token := 28
  const SEMICOLON: Token := 29
  const LPAREN: Token := 30
  const LBRACK: Token := 31
  const RPAREN: Token := 32
  const RBRACK: Token := 33
  const OperatorEnd: Token := 34
  const KeywordBeg: Token := 35
  const AND: Token := 36
  const ARRAY: Token := 37
  const AS: Token := 38
  const ASM: Token := 39
  const BEGIN: Token := 40
  const CASE: Token := 41
  const CLASS: Token := 42
  const CONST: Token := 43
  const CONSTRUCTOR: Token := 44
  const DESTRUCTOR: Token := 45
  const DISPINTERFACE: Token := 46
  const DIV: Token := 47
  const DO: Token := 48
  const DOWNTO: Token := 49
  const ELSE: Token := 50
  const END: Token := 51
  const EXCEPT: Token := 52
  const EXPORTS: Token := 53
  const FILE: Token := 54
  const FINALIZATION: Token := 55
  const FINALLY: Token := 56
  const FOR: Token := 57
  const FUNCTION: Token := 58
  const GOTO: Token := 59
  const IF: Token := 60
  const IMPLEMENTATION: Token := 61
  const IN: Token := 62
  const INHERITED: Token := 63
  const INITIALIZATION: Token := 64
  const INLINE: Token := 65
  const INTERFACE: Token := 66
  const IS: Token := 67
  const LABEL: Token := 68
  const LIBRARY: Token := 69
  const MOD: Token := 70
  const NIL: Token := 71
  const NOT: Token := 72
  const OBJECT: Token := 73
  const OF: Token := 74
  const OR: Token := 75
  const PACKED: Token := 76
  const PROCEDURE: Token := 77
  const PROGRAM: Token := 78
  const PROPERTY: Token := 79
  const RAISE: Token := 80
  const RECORD: Token := 81
  const REPEAT: Token := 82
  const RESOURCESTRING: Token := 83
  const SET: Token := 84
  const SHL: Token := 85
  const SHR: Token := 86
  const THEN: Token := 87
  const THREADVAR: Token := 88
  const TO: Token := 89
  const TRY: Token := 90
  const TYPE: Token := 91
  const UNIT: Token := 92
  const UNTIL: Token := 93
  const USES: Token := 94
  const VAR: Token := 95
  const WHILE: Token := 96
  const WITH: Token := 97
  const XOR: Token := 98
  const ABSOLUTE: Token := 99
  const ABSTRACT: Token := 100
  const ASSEMBLER: Token := 101
  const AUTOMATED: Token := 102
  const CDECL: Token := 103
  const CONTAINS7: Token := 104
  const DEFAULT: Token := 105
  const DELAYED11: Token := 106
  const DEPRECATED: Token := 107
  const DISPID: Token := 108
  const DYNAMIC: Token := 109
  const EXPERIMENTAL: Token := 110
  const EXPORT: Token := 111
  const EXTERNAL: Token := 112
  const FAR1: Token := 113
  const FINAL: Token := 114
  const FORWARD: Token := 115
  const HELPER8: Token := 116
  const IMPLEMENTS: Token := 117
  const INDEX: Token := 118
  const INLINE2: Token := 119
  const LIBRARY3: Token := 120
  const LOCAL4: Token := 121
  const MESSAGE: Token := 122
  const NAME: Token := 123
  const NEAR1: Token := 124
  const NODEFAULT: Token := 125
  const OPERATOR10: Token := 126
  const OUT: Token := 127
  const OVERLOAD: Token := 128
  const OVERRIDE7: Token := 129
  const PACKAGE: Token := 130
  const PASCAL: Token := 131
  const PLATFORM: Token := 132
  const PRIVATE: Token := 133
  const PROTECTED: Token := 134
  const PUBLIC: Token := 135
  const PUBLISHED: Token := 136
  const READ: Token := 137
  const READONLY: Token := 138
  const REFERENCE9: Token := 139
  const REGISTER: Token := 140
  const REINTRODUCE: Token := 141
  const REQUIRES7: Token := 142
  const RESIDENT1: Token := 143
  const SAFECALL: Token := 144
  const SEALED5: Token := 145
  const STATIC: Token := 146
  const STDCALL: Token := 147
  const STORED: Token := 148
  const STRICT: Token := 149
  const UNSAFE: Token := 150
  const VARARGS: Token := 151
  const VIRTUAL: Token := 152
  const WINAPI6: Token := 153
  const WRITE: Token := 154
  const WRITEONLY: Token := 155
  const KeywordEnd: Token := 156

  /**
   * The `tokens` table: the spelling of each token, "" where Go leaves the
   * entry empty or for a value outside the enumeration.
   */
  function Spelling(tok: Token): string {
    match tok
    case 0 => "ILLEGAL"
    case 1 => "EOF"
    case 2 => "COMMENT"
    case 3 => "CDIRECTIVE"
    case 5 => "IDENT"
    case 6 => "INTEGER"
    case 7 => "FLOAT"
    case 8 => "CHAR"
    case 9 => "STRING"
    case 12 => "@"
    case 13 => "^"
    case 14 => "+"
    case 15 => "-"
    case 16 => "*"
    case 17 => "/"
    case 18 => "="
    case 19 => "<"
    case 20 => ">"
    case 21 => "<>"
    case 22 => "<="
    case 23 => ">="
    case 24 => ":="
    case 25 => ":"
    case 26 => ","
    case 27 => "."
    case 28 => ".."
    case 29 => ";"
    case 30 => "("
    case 31 => "["
    case 32 => ")"
    case 33 => "]"
    case 36 => "and"
    case 37 => "array"
    case 38 => "as"
    case 39 => "asm"
    case 40 => "begin"
    case 41 => "case"
    case 42 => "class"
    case 43 => "const"
    case 44 => "constructor"
    case 45 => "destructor"
    case 46 => "dispinterface"
    case 47 => "div"
    case 48 => "do"
    case 49 => "downto"
    case 50 => "else"
    case 51 => "end"
    case 52 => "except"
    case 53 => "exports"
    case 54 => "file"
    case 55 => "finalization"
    case 56 => "finally"
    case 57 => "for"
    case 58 => "function"
    case 59 => "goto"
    case 60 => "if"
    case 61 => "implementation"
    case 62 => "in"
    case 63 => "inherited"
    case 64 => "initialization"
    case 65 => "inline"
    case 66 => "interface"
    case 67 => "is"
    case 68 => "label"
    case 69 => "library"
    case 70 => "mod"
    case 71 => "nil"
    case 72 => "not"
    case 73 => "object"
    case 74 => "of"
    case 75 => "or"
    case 76 => "packed"
    case 77 => "procedure"
    case 78 => "program"
    case 79 => "property"
    case 80 => "raise"
    case 81 => "record"
    case 82 => "repeat"
    case 83 => "resourcestring"
    case 84 => "set"
    case 85 => "shl"
    case 86 => "shr"
    case 87 => "then"
    case 88 => "threadvar"
    case 89 => "to"
    case 90 => "try"
    case 91 => "type"
    case 92 => "unit"
    case 93 => "until"
    case 94 => "uses"
    case 95 => "var"
    case 96 => "while"
    case 97 => "with"
    case 98 => "xor"
    case 99 => "absolute"
    case 100 => "abstract"
    case 101 => "assembler"
    case 102 => "automated"
    case 103 => "cdecl"
    case 104 => "contains7"
    case 105 => "default"
    case 106 => "delayed11"
    case 107 => "deprecated"
    case 108 => "dispid"
    case 109 => "dynamic"
    case 110 => "experimental"
    case 111 => "export"
    case 112 => "external"
    case 113 => "far1"
    case 114 => "final"
    case 115 => "forward"
    case 116 => "helper8"
    case 117 => "implements"
    case 118 => "index"
    case 119 => "inline2"
    case 120 => "library3"
    case 121 => "local4"
    case 122 => "message"
    case 123 => "name"
    case 124 => "near1"
    case 125 => "nodefault"
    case 126 => "operator10"
    case 127 => "out"
    case 128 => "overload"
    case 129 => "override7"
    case 130 => "package"
    case 131 => "pascal"
    case 132 => "platform"
    case 133 => "private"
    case 134 => "protected"
    case 135 => "public"
    case 136 => "published"
    case 137 => "read"
    case 138 => "readonly"
    case 139 => "reference9"
    case 140 => "register"
    case 141 => "reintroduce"
    case 142 => "requires7"
    case 143 => "resident1"
    case 144 => "safecall"
    case 145 => "sealed5"
    case 146 => "static"
    case 147 => "stdcall"
    case 148 => "stored"
    case 149 => "strict"
    case 150 => "unsafe"
    case 151 => "varargs"
    case 152 => "virtual"
    case 153 => "winapi6"
    case 154 => "write"
    case 155 => "writeonly"
    case _ => ""
  }

  const LowestPrec: int := 0
  const UnaryPrec: int := 4
  const HighestPrec: int := 5

  function Digit(d: nat): char
    requires d < 10
  {
    ('0' as int + d) as char
  }

  /** The decimal digits of a natural number, as strconv.Itoa and `%d` write them. */
  function Decimal(v: nat): string
    decreases v
  {
    if v < 10 then [Digit(v)] else Decimal(v / 10) + [Digit(v % 10)]
  }

  /** strconv.Itoa: a minus sign before the digits of a negative number. */
  function Itoa(n: int): string {
    if n < 0 then "-" + Decimal(-n) else Decimal(n)
  }

  predicate IsDigits(s: string) {
    |s| > 0 && forall i :: 0 <= i < |s| ==> '0' <= s[i] <= '9'
  }

  /** The number a string of decimal digits denotes. */
  function DigitsValue(s: string): nat
    requires forall i :: 0 <= i < |s| ==> '0' <= s[i] <= '9'
  {
    if |s| == 0 then 0 else DigitsValue(s[..|s| - 1]) * 10 + (s[|s| - 1] as int - '0' as int)
  }

  /** Decimal digits read back as the number written. */
  lemma {:induction false} DecimalRoundTrip(v: nat)
    ensures IsDigits(Decimal(v)) && DigitsValue(Decimal(v)) == v
    decreases v
  {
    if v >= 10 {
      DecimalRoundTrip(v / 10);
      var s := Decimal(v);
      assert s[..|s| - 1] == Decimal(v / 10);
    }
  }

  /** What strconv.Atoi accepts back from Itoa: digits, or a minus sign followed by digits. */
  predicate IsNumeral(t: string) {
    || IsDigits(t)
    || (|t| >= 2 && t[0] == '-' && IsDigits(t[1..]))
  }

  /** The value of a numeral. */
  function NumeralValue(t: string): int
    requires IsNumeral(t)
  {
    if t[0] == '-' then -(DigitsValue(t[1..]) as int) else DigitsValue(t)
  }

  /** Itoa is read back by the numeral reading: strconv.Atoi(strconv.Itoa(n)) == n. */
  lemma ItoaRoundTrip(n: int)
    ensures IsNumeral(Itoa(n)) && NumeralValue(Itoa(n)) == n
  {
    if n < 0 {
      DecimalRoundTrip(-n);
      assert Itoa(n)[1..] == Decimal(-n);
    } else {
      DecimalRoundTrip(n);
    }
  }

  /**
   * Token.String: the table entry, or "token(n)" for a token outside the
   * table or with an empty entry, n being the token's number in decimal.
   */
  function String(tok: Token): (s: string)
    ensures s != ""
    ensures Spelling(tok) != "" ==> s == Spelling(tok)
    ensures Spelling(tok) == "" ==>
      && |s| >= 8 && s[..6] == "token(" && s[|s| - 1] == ')'
      && IsNumeral(s[6..|s| - 1]) && NumeralValue(s[6..|s| - 1]) == tok
  {
    var s := Spelling(tok);
    if s == "" then
      ItoaRoundTrip(tok);
      var t := "token(" + Itoa(tok) + ")";
      assert t[6..|t| - 1] == Itoa(tok);
      t
    else s
  }

  predicate IsLiteral(tok: Token) { LiteralBeg < tok < LiteralEnd }

  predicate IsKeyword(tok: Token) { KeywordBeg < tok < KeywordEnd }

  /** The word operators that IsOperator accepts although they are keywords. */
  predicate IsWordOperator(tok: Token) {
    tok == IN || tok == IS || tok == OR || tok == XOR || tok == DIV || tok == MOD
    || tok == AND || tok == SHL || tok == SHR || tok == AS
  }

  predicate IsOperator(tok: Token) {
    if OperatorBeg < tok < OperatorEnd then true
    else
      tok == EQL || tok == NEQ || tok == LSS || tok == GTR || tok == LEQ || tok == GEQ
      || tok == IN || tok == IS || tok == ADD || tok == SUB || tok == OR || tok == XOR
      || tok == MUL || tok == FDIV || tok == DIV || tok == MOD || tok == AND || tok == SHL
      || tok == SHR || tok == AS || tok == AT || tok == HAT
  }

  /**
   * Token.Precedence: 1 for comparisons, IN and IS; 2 for the additive
   * operators; 3 for the multiplicative ones; LowestPrec otherwise.
   */
  function Precedence(op: Token): (p: int)
    ensures LowestPrec <= p < UnaryPrec
    ensures p != LowestPrec ==> IsOperator(op)
    ensures p == 1 <==> op in {EQL, NEQ, LSS, GTR, LEQ, GEQ, IN, IS}
    ensures p == 2 <==> op in {ADD, SUB, OR, XOR}
    ensures p == 3 <==> op in {MUL, FDIV, DIV, MOD, AND, SHL, SHR, AS}
  {
    if op == EQL || op == NEQ || op == LSS || op == GTR || op == LEQ || op == GEQ || op == IN || op == IS then 1
    else if op == ADD || op == SUB || op == OR || op == XOR then 2
    else if op == MUL || op == FDIV || op == DIV || op == MOD || op == AND || op == SHL || op == SHR || op == AS then 3
    else LowestPrec
  }

  /** The operators that are also keywords are exactly the word operators. */
  lemma OperatorKeywords(tok: Token)
    ensures IsOperator(tok) && IsKeyword(tok) <==> IsWordOperator(tok)
  {
  }

  /** The three families are disjoint ranges, apart from the word operators. */
  lemma FamiliesDisjoint(tok: Token)
    ensures !(IsLiteral(tok) && IsOperator(tok))
    ensures !(IsLiteral(tok) && IsKeyword(tok))
  {
  }

  /**
   * The keyword map filled by `init` from a spelling table: every token
   * strictly between keyword_beg and keyword_end is stored under its
   * spelling, a later token overwriting an earlier one with the same
   * spelling. Looking a spelling up therefore finds the largest such token;
   * the search runs downwards from `tok`.
   */
  function FindKeyword(spelling: Token -> string, word: string, tok: Token): (t: Token)
    requires tok < KeywordEnd
    decreases tok
    ensures t == IDENT || (KeywordBeg < t <= tok && spelling(t) == word)
    ensures t == IDENT ==> forall k :: KeywordBeg < k <= tok ==> spelling(k) != word
    ensures t != IDENT ==> forall k :: t < k <= tok ==> spelling(k) != word
  {
    if tok <= KeywordBeg then IDENT
    else if spelling(tok) == word then tok
    else FindKeyword(spelling, word, tok - 1)
  }

  /**
   * token.Lookup: the keyword whose spelling equals the lower-cased
   * identifier, or IDENT when there is none.
   */
  function Lookup(ident: string): (t: Token)
    ensures t == IDENT || IsKeyword(t)
  {
    FindKeyword(Spelling, Lower(ident), KeywordEnd - 1)
  }

  /**
   * What Lookup finds: a keyword spelled like the lower-cased identifier,
   * and IDENT exactly when no keyword is spelled so.
   */
  lemma LookupSpec(ident: string)
    ensures var t := Lookup(ident);
      && (t == IDENT || Spelling(t) == Lower(ident))
      && (t == IDENT <==> forall k :: IsKeyword(k) ==> Spelling(k) != Lower(ident))
  {
  }

  /** Lookup ignores case. */
  lemma LookupIgnoresCase(ident: string)
    ensures Lookup(ident) == Lookup(Lower(ident))
  {
    LowerIdempotent(ident);
  }
}

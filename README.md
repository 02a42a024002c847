# Delphi source toolkit: a verified model

This project models the core of a toolkit for Delphi (Object Pascal) sources
written in Go:

- the **scanner** that turns a source buffer into tokens, and the token table;
- the **unit-dependency index** of `uses` and `dunits`, which follows the
  `uses` clauses of units and the include directives they contain. It comes
  with the report writers (text, DOT, TGF, edge list) and the `why` query,
  which explains through which chains of units a root uses a target;
- the batch **identifier renamer** `drename`;
- the regex tools' **match counters** and the in-memory file of `dfind`;
- Pascal **string quoting**;
- the **test runner's** helpers: DUnit generation, the error set, and the
  collection of test procedures;
- the `-care` style **glob flag**.

The modelling choices are:

- Source text is a `seq<Byte>`, where a `Byte` is a `char` below 256. A
  Go string is a sequence of bytes, so a literal is a `seq<Byte>` too. Where
  the scanner converts a character to a string (`string(ch)`), the literal
  holds the UTF-8 bytes of that character (`Lexical.RuneBytes`).
- The scanner is a class whose methods advance a cursor one character at a
  time. Each method is proved against a pure grammar (`Lexical.Lex` for one
  call of `Scan`, and `Lexical.Stream` for the whole token sequence).
- The package-level `Scan` driver, its callback and its ten-error cut-off are
  `Lexical.DriveFrom`.
- The index is a class over a file system given as a map from path to bytes.
  Its work-list loop is proved to keep a closure invariant.
- Go map iteration order is an arbitrary choice in the methods. Where output
  depends on it, that order is a ghost result, and lemmas show what does not
  depend on it.
- I/O results (file contents, a failed read, how many bytes a writer takes)
  and library calls the model does not define (`strings.Title`,
  `filepath.Match`, `filepath.Abs`, the DUnit template) are parameters.

## Model

| member | source | states |
|---|---|---|
| Token.String | token/token.go:367-376 | the table spelling when it is non-empty, otherwise "token(" + a decimal numeral + ")" where the numeral reads back as the token's number; never empty |
| Token.ItoaRoundTrip | token/token.go:373 | strconv.Itoa writes an optional minus sign and decimal digits that read back as the number |
| Token.DecimalRoundTrip | cmd/uses/export.go:94 | a non-negative number is written as decimal digits that read back as it; a TGF id is written so |
| Token.Precedence | token/token.go:394-404 | 1 exactly for the comparisons, IN and IS; 2 exactly for ADD, SUB, OR and XOR; 3 exactly for the multiplicative operators and AS; LowestPrec for every other token; a non-lowest precedence only for an operator |
| Token.OperatorKeywords | token/token.go:432-447 | a token is both an operator and a keyword exactly when it is one of the word operators |
| Token.FamiliesDisjoint | token/token.go:424-447 | no literal token is an operator or a keyword |
| Token.FindKeyword | token/token.go:408-413 | the keyword map filled by init: for a spelling, the last keyword token with that spelling, or IDENT when no keyword has it |
| Token.LookupSpec | token/token.go:417-422 | Lookup gives a keyword spelled like the lower-cased identifier, and gives IDENT exactly when no keyword is spelled so |
| Token.LookupIgnoresCase | token/token.go:417-422 | Lookup gives the same token for an identifier and its lower-case form |
| Lexical.At | scanner/scanner.go:58-76 | the scanner's current character: the byte at the position, or -1 exactly outside the buffer |
| Lexical.DigitVal | scanner/scanner.go:250-260 | below 10 exactly on decimal digits, with the digit's value; below 16 exactly on hexadecimal digits; 16 otherwise |
| Lexical.RunEnd | scanner/scanner.go:242-266 | the loops of skipWhitespace, scanIdentifier and scanMantissa: every character before the end is in the class, and the one at the end is not |
| Lexical.RunEndUnique | scanner/scanner.go:371-375 | a position with those two properties is the end of the run |
| Lexical.NumberScan | scanner/scanner.go:268-309 | scanNumber always consumes at least one character and stays inside the buffer |
| Lexical.CommentEnd | scanner/scanner.go:139-184 | scanComment consumes the opener and stays inside the buffer |
| Lexical.DecimalTail | scanner/scanner.go:284-305 | the fraction and exponent part of a decimal number stays inside the buffer and never fails |
| Lexical.ExponentTail | scanner/scanner.go:298-305 | the exponent part stays inside the buffer and never fails |
| Lexical.StringEnd | scanner/scanner.go:311-331 | the loop of scanString stops inside the buffer, at or after its start |
| Lexical.CharEnd | scanner/scanner.go:341-354 | the digit loop of scanChar stops inside the buffer, at or after its start |
| Lexical.StarEnd | scanner/scanner.go:157-168 | the (* loop stops inside the buffer, and at its end when the comment does not close |
| Lexical.BraceEnd | scanner/scanner.go:170-177 | the brace loop stops inside the buffer, and at its end when the comment does not close |
| Lexical.CommentStep | scanner/scanner.go:536-561 | a comment case of the switch always consumes its opener |
| Lexical.LexIdent | scanner/scanner.go:454-461 | the identifier case returns a token and consumes at least one character |
| Lexical.LexNumber | scanner/scanner.go:462-463 | the number case returns a token and consumes at least one character |
| Lexical.LexString | scanner/scanner.go:469-474 | the quote case returns a token and consumes at least one character |
| Lexical.LexChar | scanner/scanner.go:475-477 | the '#' case returns a token and consumes at least one character |
| Lexical.LexHat | scanner/scanner.go:478-497 | the '^' case returns a token and consumes at least one character |
| Lexical.LexBracket | scanner/scanner.go:511-561 | the '(', '/' and '{' cases consume at least one character |
| Lexical.LexOperator | scanner/scanner.go:498-577 | the operator, delimiter and ILLEGAL cases return a token and consume at least one character |
| Lexical.LexAt | scanner/scanner.go:453-578 | the token switch: at the end of input it gives EOF with an empty literal, and otherwise it consumes at least one character |
| Lexical.Lex | scanner/scanner.go:445-585 | one call of Scan: the position lies at or after the cursor; a token other than EOF ends after its position; EOF sits at the end of the buffer with an empty literal |
| Lexical.Stream | scanner/scanner.go:445-585 | repeated calls of Scan: the sequence ends with the only EOF |
| Lexical.StreamItems | scanner/scanner.go:445-585 | the stream is the token of one Scan followed by the stream from where it stopped, or that EOF alone |
| Lexical.DriveFrom | scanner/scanner.go:591-615 | the package-level Scan delivers at least one token to its callback |
| Lexical.RuneBytes | scanner/scanner.go:495 | string(rune(ch)) for a byte or for end of input: one to three bytes, one byte exactly for ASCII, and then that byte |
| Lexical.RuneBytesDecode | scanner/scanner.go:576 | those bytes are the UTF-8 encoding of the byte's code point, and of U+FFFD at end of input |
| Lexical.LineStart | scanner/scanner.go:58-76 | the lineOffset next keeps: a position after a newline, or 0, with no newline between it and the cursor |
| LexicalFacts.StringEndSpec | scanner/scanner.go:311-331 | a string that closes ends on a quote not followed by another, and every quote inside it is doubled; an unclosed one stops on a newline or at the end of input; no newline is ever inside |
| LexicalFacts.StringEndNoNewline | scanner/scanner.go:314-328 | a string literal never runs over a newline |
| LexicalFacts.StringEndClosed | scanner/scanner.go:320-327 | a closed string ends on a quote that no quote follows, and the quotes inside are doubled |
| LexicalFacts.StringEndOpen | scanner/scanner.go:315-319 | an unclosed string stops on a newline or at the end of input, with its inner quotes doubled |
| LexicalFacts.CharEndSpec | scanner/scanner.go:333-357 | the digit loop of scanChar passes over decimal digits, or hexadecimal ones after '$', and reports "not terminated" exactly when it stops on a newline or at the end of input |
| LexicalFacts.BraceEndSpec | scanner/scanner.go:170-177 | a closed brace comment ends just after its first '}'; an unclosed one holds no '}' and runs to the end |
| LexicalFacts.StarEndSpec | scanner/scanner.go:157-168 | a closed (* comment ends just after its first "*)"; an unclosed one holds no "*)" and runs to the end |
| LexicalFacts.IdentLiteral | scanner/scanner.go:454-461 | an IDENT returned by Scan is exactly the source bytes between its position and the cursor after it |
| LexicalFacts.EmitIdentLiteral | scanner/scanner.go:454-461 | the identifier case's literal is the source bytes it consumed |
| LexicalFacts.EndOfInputSticky | scanner/scanner.go:465-468 | from blank input to the end, Scan returns EOF, and the stream is that EOF alone |
| LexicalFacts.Progress | scanner/scanner.go:464-465 | every Scan that does not return EOF moves the cursor forward |
| LexicalFacts.IdentifierRule | scanner/scanner.go:454-461 | an identifier is the maximal run of letters, '_' and digits; its literal keeps the source case; one character is always IDENT; a longer run is the keyword its lower case spells, or IDENT |
| LexicalFacts.RangeIsNotFloat | scanner/scanner.go:287-290 | digits followed by ".." give an INTEGER that stops before the dots, and the next token is ELLIPSIS |
| LexicalFacts.FloatRule | scanner/scanner.go:292-305 | a single '.' after the digits, or an 'e'/'E', makes the number a FLOAT even when no digit follows |
| LexicalFacts.HexWithoutDigits | scanner/scanner.go:273-282 | '$' with no hexadecimal digit after it gives INTEGER "$" with an "illegal hexadecimal number" error at its offset |
| LexicalFacts.StringRule | scanner/scanner.go:469-474 | a quote starts a STRING that runs to its closing quote; a string that is only the opening quote is a CHAR and is unterminated |
| LexicalFacts.CharRule | scanner/scanner.go:475-477 | '#' starts a CHAR of digits, reported unterminated when its digits run into a newline or the end of input |
| LexicalFacts.HatRule | scanner/scanner.go:478-497 | '^' is HAT after IDENT, RPAREN or RBRACK, and HAT when a letter and then a letter or digit follow; otherwise it is a CHAR of '^' and the UTF-8 bytes of the next character, which it consumes |
| LexicalFacts.DirectiveAlwaysReturned | scanner/scanner.go:549-554 | a "{$" directive is returned as CDIRECTIVE whatever the mode |
| LexicalFacts.CommentRule | scanner/scanner.go:511-561 | comments are returned as COMMENT only under ScanComments and are skipped otherwise; a // comment stops before the newline without error; the other two include their closer or run to the end with an error |
| LexicalFacts.IllegalRule | scanner/scanner.go:570-576 | any other byte is ILLEGAL, with the UTF-8 encoding of that byte as its literal (the byte itself below 0x80) and one "illegal character" error |
| LexicalFacts.DriveFollowsStream | scanner/scanner.go:591-615 | the package-level Scan hands its callback a prefix of the token stream in order; it ends early only on the callback's verdict for the last token or on "too many errors" |
| LexicalFacts.DriveAlways | scanner/scanner.go:591-615 | with a callback that always continues, the whole stream is delivered with no error, or a prefix with "too many errors"; that error comes exactly when the delivered tokens carry more than ten errors in all, and before the last one they carry at most ten |
| LexicalFacts.DriveCutOff | scanner/scanner.go:591-615 | the error count is cumulative: every token but the last delivered leaves it at ten or below, and when the callback continues on the last one, "too many errors" is returned exactly when the count passes ten |
| LexicalFacts.CutOffCons | scanner/scanner.go:598-606 | one delivered token whose errors keep the count at ten or below extends the cut-off property of the rest |
| Scanning.File.constructor | scanner/scanner.go:109-114 | the file the scanner is bound to has the given base and size, and no lines yet |
| Scanning.File.AddLine | scanner/scanner.go:61-64 | each AddLine call appends its offset to the file's line table |
| Scanning.Scanner.Next | scanner/scanner.go:58-76 | next: offset moves to the read offset; ch, rdOffset and lineOffset are kept consistent with the buffer; the file is told of every line start passed |
| Scanning.Scanner.Peek | scanner/scanner.go:78-83 | peek gives the character after the current one, or -1 past the end |
| Scanning.Scanner.Init | scanner/scanner.go:109-130 | Init requires a file of the same size as the source; the cursor starts at 0 on the first character with no errors, no lines added and an ILLEGAL lookbehind |
| Scanning.Scanner.Error | scanner/scanner.go:132-137 | error counts one more error, and the handler, when installed, receives the offset and message |
| Scanning.Scanner.SkipWhitespace | scanner/scanner.go:371-375 | the cursor stops at the end of the blank run |
| Scanning.Scanner.ScanIdentifier | scanner/scanner.go:242-248 | the cursor stops at the end of the run of letters and digits, which is the literal |
| Scanning.Scanner.ScanMantissa | scanner/scanner.go:262-266 | the cursor stops at the end of the run of digits below the base |
| Scanning.Scanner.ScanNumber | scanner/scanner.go:268-309 | the token, literal, end position and error NumberScan gives |
| Scanning.Scanner.ScanDecimalTail | scanner/scanner.go:284-305 | the fraction and exponent part as DecimalTail gives it |
| Scanning.Scanner.ScanExponent | scanner/scanner.go:298-305 | the exponent part as ExponentTail gives it |
| Scanning.Scanner.ScanString | scanner/scanner.go:311-331 | stops where StringEnd says; the literal is the source text from the opening quote; one error when it does not close |
| Scanning.Scanner.ScanChar | scanner/scanner.go:333-357 | stops where CharEnd says; the literal is the source text from '#'; one error when it is unterminated |
| Scanning.Scanner.ScanComment | scanner/scanner.go:139-184 | stops where CommentEnd says; the literal is the comment's source text; one error when it does not close |
| Scanning.Scanner.ScanLineBody | scanner/scanner.go:148-155 | a // comment runs to the newline or the end of input |
| Scanning.Scanner.ScanStarBody | scanner/scanner.go:157-168 | the (* loop stops where StarEnd says |
| Scanning.Scanner.ScanBraceBody | scanner/scanner.go:170-177 | the brace loop stops where BraceEnd says |
| Scanning.Scanner.Switch2 | scanner/scanner.go:383-389 | tok1 when '=' follows, which is consumed, and tok0 otherwise |
| Scanning.Scanner.Switch3 | scanner/scanner.go:391-401 | tok1 on '=', tok2 on ch2, each consumed, and tok0 otherwise |
| Scanning.Scanner.ScanToken | scanner/scanner.go:453-578 | the token switch does what LexAt says: the token, the literal, the cursor and the errors reported |
| Scanning.Scanner.ScanSymbol | scanner/scanner.go:464-577 | the default branch of the switch does what LexAt says |
| Scanning.Scanner.ScanQuoted | scanner/scanner.go:469-477 | the string and '#' cases do what LexString and LexChar say |
| Scanning.Scanner.ScanCaret | scanner/scanner.go:478-497 | the '^' case does what LexHat says |
| Scanning.Scanner.ScanBracket | scanner/scanner.go:511-561 | the '(', '/' and '{' cases do what LexBracket says |
| Scanning.Scanner.ScanOperator | scanner/scanner.go:498-577 | the operator and delimiter cases, and ILLEGAL, do what LexOperator says |
| Scanning.Scanner.ScanOnce | scanner/scanner.go:446-578 | one pass of Scan's body: either a skipped comment, with the cursor moved forward, or the token Lex gives, with its errors counted and reported |
| Scanning.Scanner.ScanLoop | scanner/scanner.go:446-578 | passes over skipped comments until a token is read; the result is Lex of the starting cursor |
| Scanning.Scanner.Scan | scanner/scanner.go:445-585 | returns exactly Lex of the starting cursor; the lookbehind is updated except after COMMENT and CDIRECTIVE |
| Scanning.ScanAll | scanner/scanner.go:591-615 | the package-level Scan delivers exactly what DriveFrom says, and returns the same error |
| Scanning.Tokenize | cmd/dunits/main.go:351-368 | a scanner driven directly until EOF returns the whole token stream, with offsets |
| Paths.Ext | cmd/uses/utils.go:8-10 | filepath.Ext is never longer than the path |
| Paths.ExtSpec | cmd/uses/utils.go:8-10 | Ext is a suffix that starts with the last '.' of the final element and holds no further dot or separator, or "" when that element has no dot |
| Paths.TrimExtSpec | cmd/uses/utils.go:8-10 | trimExt removes exactly the extension: putting it back gives the name |
| Paths.ExtBeforeSpec | cmd/uses/utils.go:8-10 | the backward scan of filepath.Ext from a point with no dot or separator after it finds the suffix from the last dot of the final element, or "" |
| Paths.StripTrailing | cmd/uses/index.go:72 | filepath.Base first drops trailing separators and nothing else: the result is a prefix that does not end in one, and every dropped character is one |
| Paths.LastElement | cmd/uses/index.go:72 | then keeps the last element: a suffix with no separator that is the whole path or follows a separator |
| Paths.BaseSpec | cmd/uses/index.go:72 | filepath.Base is never empty; it is "." for "", "/" exactly for a path of separators only, and otherwise the last non-empty element of the path |
| Paths.StripTrailingEmpty | cmd/uses/index.go:72 | stripping leaves nothing exactly when the path is separators only |
| Paths.LastElementOfStripped | cmd/uses/index.go:72 | the last element of a non-empty stripped path is non-empty, and is the element of the path that ends where the stripping stopped |
| Text.Contains | cmd/test/utils.go:5-12 | contains is true exactly when an element equals the value ignoring case; false on an empty list |
| Text.ContainsFoldInvariant | cmd/uses/utils.go:29-36 | the answer of contains depends neither on the order of the list nor on the case of the value |
| Text.LessTransitive | cmd/uses/utils.go:19 | Go's string order is transitive |
| Text.LessTrichotomy | cmd/uses/utils.go:19 | any two strings are equal or ordered one way |
| Text.AscendingUnique | cmd/uses/export.go:29-33 | two ascending lists with the same elements are equal, so the sorted key list is unique |
| Text.Delete | cmd/regex/count.go:34-36 | removing a character: it no longer occurs, all other characters keep their counts |
| Text.ReplaceKeepsDeleted | cmd/test/dunit.go:115-120 | a Replace that changes only one character leaves the text unchanged once that character is deleted |
| Text.Split | internal/walk/globs.go:31 | strings.Split gives at least one piece, and no piece holds the separator |
| Text.JoinSplit | internal/walk/globs.go:31 | joining the pieces with the separator gives the text back |
| Text.SplitJoin | internal/walk/globs.go:26-31 | pieces free of the separator come back from their join |
| Text.TrimSpace | internal/walk/globs.go:33 | strings.TrimSpace: neither end of the result is white space |
| Text.TrimLeftDrops | internal/walk/globs.go:33 | only white space is dropped on the left |
| Text.TrimRightDrops | internal/walk/globs.go:33 | only white space is dropped on the right |
| Units.InsertPoint | cmd/uses/utils.go:14-25 | where the loop stops: every earlier element is below the item ignoring case, and the element there, if any, is equal or greater |
| Units.InsertPointUnique | cmd/uses/utils.go:14-25 | that stopping point is the only position with those properties |
| Units.IncludeString | cmd/uses/utils.go:12-27 | the loop, its one-slot growth and the shift of the tail give Include(arr, item) |
| Units.InsertAt | cmd/uses/utils.go:20-23 | append, copy and assignment put the item at i and shift the rest by one |
| Units.IncludeSorted | cmd/uses/utils.go:12-27 | a list sorted case-insensitively without duplicates stays so |
| Units.IncludeUnchanged | cmd/uses/utils.go:14-18 | the list comes back unchanged exactly when it already holds the item ignoring case |
| Units.IncludeAdds | cmd/uses/utils.go:19-26 | otherwise the result is the list plus the item, counted with repeats |
| Units.IndexOf | cmd/uses/index.go:156 | strings.IndexRune: the first occurrence, or -1 exactly when there is none |
| Units.Trim | cmd/uses/index.go:157 | strings.Trim: neither end of the result is in the cut set |
| Units.TrimSpec | cmd/uses/index.go:157 | strings.Trim keeps a slice of the text: everything dropped before and after it is in the cut set, and the result is empty exactly when every character is |
| Units.TrimSlice | cmd/uses/index.go:157 | the right-hand trim of a left-trimmed suffix is such a slice |
| Units.TrimLeftCut | cmd/uses/index.go:157 | the left-hand trim drops characters of the cut set only |
| Units.TrimRightCut | cmd/uses/index.go:157 | the right-hand trim drops characters of the cut set only |
| Units.IncludeDirectiveHasSpace | cmd/uses/index.go:180-184 | a directive that passes the "{$i " or "{$include " test holds a space, so handleInclude's slice is defined |
| Units.AbsorbGrows | cmd/uses/index.go:189-209 | one token of the handler: lists stay sorted, nothing is removed, every added name is a known unit other than the one scanned, and interface-only leaves the implementation list alone |
| Units.HandleGrows | cmd/uses/index.go:179-210 | the same for the whole callback, includes followed |
| Units.CollectFileGrows | cmd/uses/index.go:170-216 | the same for scanning a whole file |
| Units.CollectIncludeGrows | cmd/uses/index.go:155-168 | the same for an include that is followed |
| Units.ImplementationStateKeepsInterface | cmd/uses/index.go:189-207 | once in state 2, scanning never touches the interface list |
| Units.TokensKeepInterface | cmd/uses/index.go:189-207 | the token loop in state 2 leaves the interface list as it was |
| Units.IncludeInterfaceGrows | cmd/uses/index.go:197-203 | adding a known unit other than the one scanned to the interface list keeps the growth invariant |
| Units.IncludeImplementationGrows | cmd/uses/index.go:204-207 | the same for the implementation list when interface-only is off |
| Units.CollectTokensGrows | cmd/uses/index.go:179-210 | the token loop keeps the growth invariant |
| UsesIndex.Enter | cmd/uses/index.go:71-82 | addSourcePath: the key of the path is present afterwards and existing keys keep their paths |
| UsesIndex.RegisterKeeps | cmd/uses/index.go:75-80 | registration never overwrites an existing entry |
| UsesIndex.RegisterKeys | cmd/uses/index.go:71-95 | every registered path's key is entered, and no other key |
| UsesIndex.RegisterFirstWins | cmd/uses/index.go:75-81 | a new key maps to the first path registered under it |
| UsesIndex.RootNamesAt | cmd/uses/index.go:99-103 | Build queues one name per root file, in order: the base name without extension |
| UsesIndex.ClosedGrows | cmd/uses/index.go:97-126 | an index in which every used unit has an entry stays so when entries are added whose names all have entries |
| UsesIndex.LoadedUnitNames | cmd/uses/index.go:134-153 | the entry Load makes names the unit; every name in its lists is a known unit other than itself; with interface-only its implementation list is empty; with no path it lists nothing |
| UsesIndex.Unloaded | cmd/uses/index.go:114-124 | the names pushed are exactly those of the list whose key is not loaded |
| UsesIndex.PushedNames | cmd/uses/index.go:114-124 | after the two pushes, the rest of the queue is kept and every used name is loaded or queued |
| UsesIndex.DrainSkip | cmd/uses/index.go:105-112 | popping a loaded name keeps the loop invariant and shortens the queue |
| UsesIndex.DrainRoundKeeps | cmd/uses/index.go:105-125 | one round keeps the loop invariant, and either shortens the queue or loads a new key, so the loop ends |
| UsesIndex.StepKeeps | cmd/uses/index.go:105-125 | a round that loads a name keeps old entries, the roots covered and the queue made of known names |
| UsesIndex.StepCovers | cmd/uses/index.go:105-125 | a round that loads a name keeps every new key known and every used name loaded or queued |
| UsesIndex.Index.constructor | cmd/uses/index.go:31-37 | NewIndex: empty tables and no roots |
| UsesIndex.Index.AddSourcePath | cmd/uses/index.go:71-82 | Path becomes Enter(Path, path) |
| UsesIndex.Index.AddIncludePath | cmd/uses/index.go:84-95 | IncPath becomes Enter(IncPath, path) |
| UsesIndex.Index.ReadTokens | cmd/uses/index.go:179 | the tokens the handler receives: the package-level Scan in mode 0, or a scanner driven to EOF in dunits |
| UsesIndex.Index.ScanUses | cmd/uses/index.go:170-216 | the entry after scanning a file is CollectFile of it; an unreadable file changes nothing |
| UsesIndex.Index.HandleToken | cmd/uses/index.go:179-210 | the callback for one token: directives followed, IMPLEMENTATION switches to state 2, a known unit name other than the unit's own enters the list of the state |
| UsesIndex.Index.HandleInclude | cmd/uses/index.go:155-168 | the key is the text after the first space, trimmed of braces, quotes and spaces, without extension, lower-cased; a known include is scanned in the current state |
| UsesIndex.Index.FollowInclude | cmd/uses/index.go:159-167 | an unknown key changes nothing; a known one is scanned |
| UsesIndex.Index.Load | cmd/uses/index.go:134-153 | nothing for a loaded unit; otherwise an entry is stored before scanning, empty when no path is known and the scanned lists otherwise; the result is nil unless the source was scanned |
| UsesIndex.Index.ScanUnit | cmd/uses/index.go:149-150 | the unit's own source is scanned from state 1 into an empty entry |
| UsesIndex.Index.PushUnloaded | cmd/uses/index.go:114-118 | the names of a list that are not loaded are pushed in order |
| UsesIndex.Index.PushUses | cmd/uses/index.go:114-124 | the interface names, then the implementation names, that are not loaded are pushed |
| UsesIndex.Index.Drain | cmd/uses/index.go:105-125 | the loop ends with old entries kept, every queued name loaded, every new key known, every used name loaded, every new entry exactly what scanning its unit's files gives, and the index closed if it was |
| UsesIndex.Index.DrainRound | cmd/uses/index.go:106-124 | one round keeps the invariant, makes progress, and stores for a new key exactly what scanning its unit's files gives |
| UsesIndex.DrainStep | cmd/uses/index.go:106-124 | a round as the loop performs it (pop, Load, push the unloaded names the new entry uses) keeps the loop invariant and the new entries' contents, and makes progress |
| UsesIndex.StepLoaded | cmd/uses/index.go:134-153 | loading a name that is not yet a key stores exactly what scanning that unit gives, so every new entry stays so |
| UsesIndex.Index.QueueRoots | cmd/uses/index.go:98-103 | each root's base name without extension is queued and appended to RootFiles |
| UsesIndex.Index.Build | cmd/uses/index.go:97-126 | RootFiles grows by the root names; every root is loaded; every new key is a known unit or a root, and its entry is exactly what scanning that unit's files gives; old entries are kept and a closed index stays closed |
| UsesIndex.Index.BuildProject | cmd/dunits/main.go:275-300 | the same loop from the project file's name alone, without recording roots; every new entry is what scanning its unit gives |
| UsesIndex.NormalNameIgnoresCase | cmd/uses/index.go:218-224 | NormalName does not depend on the case of the query |
| Export.Sink.Fprintf | cmd/uses/export.go:16 | a write takes as many bytes as the destination accepts, and fails when the destination reports an error, which it always does when it takes fewer than all |
| Export.Write | cmd/uses/export.go:11-19 | the write closure: nothing once an error is recorded; otherwise one write, with n growing by the bytes taken |
| Export.EmitAllStops | cmd/uses/export.go:12-14 | once an error is recorded, further writes change nothing |
| Export.NoWriteAfterError | cmd/uses/export.go:11-19 | after the first failing write, no later write reaches the destination |
| Export.EmitAllWritten | cmd/uses/export.go:11-19 | n counts exactly the bytes the destination received, which are a prefix of the text; without error they are the whole text, one write per line |
| Export.EmitAllAccepting | cmd/uses/export.go:11-19 | a destination that takes everything without error receives the whole text, with n its length and no error |
| Export.BlocksOrderFree | cmd/uses/export.go:63-70 | the lines of the per-entry blocks, counted with repeats, do not depend on the order the map is visited |
| Export.IdsNumbering | cmd/uses/export.go:87-93 | WriteTGF numbers the entries 1 to n in visiting order, each with its own id |
| Export.DotCount | cmd/uses/export.go:62-71 | DOT output: one edge line per use, between the header and the closing line |
| Export.GlayCount | cmd/uses/export.go:121-128 | edge list: one line per use of either kind |
| Export.TgfCount | cmd/uses/export.go:87-106 | TGF: a line per entry, the "#" line, then a pair per use |
| Export.DotOrderFree | cmd/uses/export.go:63-70 | the DOT lines do not depend on the map order |
| Export.GlayOrderFree | cmd/uses/export.go:121-128 | nor do the edge-list lines |
| Export.TgfEdgesOrderFree | cmd/uses/export.go:99-106 | the order of the second TGF loop only reorders the pair lines |
| Export.SortStrings | cmd/uses/export.go:33 | sort.Strings gives a non-decreasing permutation |
| Export.SortedKeys | cmd/uses/export.go:29-33 | sorting distinct keys gives them in ascending order |
| Export.MapKeys | cmd/uses/export.go:29-32 | the keys of the map, each once |
| Export.WriteUnit | cmd/uses/export.go:36-45 | the block of one entry: its name, "+" interface uses, "-" implementation uses, a blank line |
| Export.WriteCycles | cmd/uses/export.go:21-27 | the cycles block, present only when there are cycles |
| Export.WriteUnits | cmd/uses/export.go:35-46 | the blocks of the sorted keys, in order |
| Export.WriteTXT | cmd/uses/export.go:10-49 | the cycles block, then one block per entry in ascending key order, all through the write closure |
| Export.WriteDotBlock | cmd/uses/export.go:64-69 | one entry's edges: plain for the interface, dashed for the implementation |
| Export.WriteDOT | cmd/uses/export.go:51-74 | the header, every entry's edges in map order, the closing brace; the bytes written and the error are returned |
| Export.WriteGlayBlock | cmd/uses/export.go:122-127 | one entry's edges, the same for both kinds |
| Export.WriteGLAY | cmd/uses/export.go:110-131 | one edge line per use in map order; it returns (0, nil) whatever happened |
| Export.WriteNodes | cmd/uses/export.go:87-95 | the first TGF loop numbers the entries and writes an id and name line for each |
| Export.WriteTgfBlock | cmd/uses/export.go:100-105 | one entry's pairs of ids, the used unit's id looked up by its lower-case name |
| Export.WriteEdges | cmd/uses/export.go:99-106 | the second TGF loop writes the pairs of every entry in map order |
| Export.WriteTGF | cmd/uses/export.go:76-109 | node lines, "#", then pairs; it returns (0, nil) whatever happened |
| Why.AddUser | cmd/uses/why.go:16-23 | one includeString adds the path under the target and nowhere else, keeping every list sorted and lower case |
| Why.IncludeHas | cmd/uses/why.go:16-23 | after includeString the lower-case item is in the list |
| Why.UsersStep | cmd/uses/why.go:13-24 | visiting one more entry adds its name to the users of exactly the units it uses |
| Why.AddAll | cmd/uses/why.go:16-19 | the loop over one list adds the path under each target's lower-case form |
| Why.BuildUsedBy | cmd/uses/why.go:13-24 | usedBy maps each unit to exactly the entries that mention it, sorted and lower case |
| Why.UsedByUnique | cmd/uses/why.go:13-24 | that map is unique, so it does not depend on the order the entries were visited |
| Why.Render | cmd/uses/why.go:34-37 | a reason is '>' and each unit of the chain, from the last back to the first |
| Why.Reverse | cmd/uses/why.go:31-50 | the recursive closure appends exactly the reasons Walk gives |
| Why.Why | cmd/uses/why.go:9-54 | the reasons of the walk from the lower-cased base name of the target without extension, over the reverse graph and the lower-case roots |
| Why.WalkSound | cmd/uses/why.go:31-50 | every reason found is that of a chain of distinct non-root units, each used by the next, that ends below a root |
| Why.WalkAllSound | cmd/uses/why.go:46-49 | the loop over the users of a unit finds only reasons of chains that reach a root |
| Why.WalkAllHas | cmd/uses/why.go:47-49 | a reason found through any one user is among the reasons of the loop |
| Why.ChainGrows | cmd/uses/why.go:42-48 | stepping to a unit not already on the chain shrinks the set of units left to visit, so the recursion ends |
| Why.TrailStep | cmd/uses/why.go:31-50 | along a found chain, every unit is not a root, appears once, and is used by the next one |
| Why.ClimbInside | cmd/uses/why.go:31-50 | every unit of a found chain is lower case and in reach of the target |
| Why.WalkFinds | cmd/uses/why.go:31-50 | every such chain's reason is found |
| Why.WhyReasons | cmd/uses/why.go:9-54 | Why returns exactly the reasons of those chains |
| Why.WhyRoot | cmd/uses/why.go:33-40 | a root target has the single empty reason |
| Why.WhyUnused | cmd/uses/why.go:42-49 | a non-root target that nobody uses has no reason |
| Rename.CanonicalMapping | cmd/drename/main.go:194-197 | the inner loop of canonicalize keys every replacement under the lower case of its identifier |
| Rename.CanonicalDistinct | cmd/drename/main.go:191-201 | when no two identifiers differ only in case, each one's replacement is found under its lower case |
| Rename.BatchRename.Canonicalize | cmd/drename/main.go:191-201 | unit names become lower case, each with the canonical mapping of a unit that lower-cases to it |
| Rename.DupErrorsNone | cmd/drename/main.go:173-187 | no error is reported exactly when no replacement repeats another ignoring case |
| Rename.EnumerationDistinct | cmd/drename/main.go:176-177 | over any enumeration of the entries, that is the same as all replacements of the batch being distinct ignoring case |
| Rename.CheckMapping | cmd/drename/main.go:177-183 | the inner loop visits each entry of the unit once and reports a repeat of an earlier replacement |
| Rename.BatchRename.CheckDuplicates | cmd/drename/main.go:173-187 | every entry is visited once; a "unit: name" error for each replacement seen before ignoring case; none exactly when all are distinct |
| Rename.Lookup | cmd/drename/main.go:212-223 | the replacement that the first unit of uses mapping the identifier gives; ("", false) exactly when no unit of uses maps it |
| Rename.InUses | cmd/drename/main.go:122-128 | the membership loop finds exact matches |
| Rename.DecideUses | cmd/drename/main.go:120-133 | the uses list holds each unit named in the file once, and nothing else: every entry is a batch unit that an identifier of the file names |
| Rename.DecideUsesFirstSeen | cmd/drename/main.go:120-133 | the uses list is in the order of first sight: each unit is named by an identifier at an increasing position, and by no identifier before it |
| Rename.DecideEdits | cmd/drename/main.go:135-140 | every edit replaces one identifier token, which is not a unit name, by what Lookup over the units seen before it gives |
| Rename.DecideNothing | cmd/drename/main.go:104-141 | a batch whose units rename nothing makes no edit |
| Rename.LookupReplaces | cmd/drename/main.go:136-139 | an edit made from a successful Lookup replaces bytes spelling an identifier the batch maps |
| Rename.StreamLaid | cmd/drename/main.go:104-116 | the tokens Scan returns are in order, without overlap, identifiers spelled by their bytes, with EOF at the end |
| Rename.DecideReplaces | cmd/drename/main.go:104-141 | every edit decided over such tokens replaces an identifier the batch maps |
| Rename.Flush | cmd/drename/main.go:107-111 | the source bytes not yet written, up to the token, are written |
| Rename.Identifier | cmd/drename/main.go:118-140 | an identifier: a unit name joins uses; a mapped name is skipped in the source and its replacement written |
| Rename.Consume | cmd/drename/main.go:105-141 | one token of the loop: pending bytes written, then an identifier handled; EOF writes the rest |
| Rename.Rewrite | cmd/drename/main.go:99-142 | the output is the source with the decided edits applied, every other byte copied |
| Rename.RenderExtend | cmd/drename/main.go:107-111 | copying the source bytes up to a later offset extends the output by exactly those bytes |
| Rename.RenderEdit | cmd/drename/main.go:136-139 | an edit extends the output by its replacement and skips the identifier's bytes |
| Rename.LaidAt | cmd/drename/main.go:104-116 | each token of the list ends inside the source, before the next one starts; identifiers are spelled by their bytes; EOF is last and only last, at the end |
| Rename.Process | cmd/drename/main.go:87-155 | the output applies the decided edits, each replacing an identifier the batch maps; with no edit it is the source; modified exactly when it differs |
| Counting.Canon | cmd/regex/count.go:29-37 | the key: without ignoreSpace the same length, with it free of spaces, tabs and newlines; with ignoreCase free of upper case; with neither flag the text itself |
| Counting.CanonIdempotent | cmd/regex/count.go:29-37 | the key of a key is itself |
| Counting.Match.Add | cmd/regex/count.go:48-51 | Count and the file's count grow by one, other files unchanged, and Count stays the sum of the per-file counts |
| Counting.Match.Merge | cmd/regex/count.go:67-72 | counts and per-file counts are added pointwise |
| Counting.SumCombine | cmd/regex/count.go:67-72 | the total of a pointwise sum is the sum of the totals |
| Counting.PlusTallied | cmd/regex/count.go:67-72 | merging two matches whose Count is the sum of their file counts gives another such match |
| Counting.Counter.constructor | cmd/regex/count.go:16-22 | NewCounter: zero total and empty maps |
| Counting.Counter.Add | cmd/regex/count.go:28-46 | Total grows by one; the first text for a key is kept in Actual; the key's match gets Add(file); Total stays the sum of all counts |
| Counting.Counter.Merge | cmd/regex/count.go:53-65 | totals add up; keys missing here are adopted with the other's text, never overwriting ours; every match is merged pointwise; the counter stays consistent |
| Counting.Adopt | cmd/regex/count.go:55-60 | the first loop of Merge: Actual becomes the other's texts overridden by ours, with a fresh match for each adopted key |
| Counting.MergeEach | cmd/regex/count.go:62-64 | the second loop merges each of the other's matches into ours |
| Counting.AddKeeps | cmd/regex/count.go:39-45 | Add raises the sum of all counts by one and keeps every match's count the sum of its file counts |
| Counting.MergeKeeps | cmd/regex/count.go:53-65 | Merge keeps the counter consistent: Total is the sum of all counts |
| Counting.MergedCounts | cmd/regex/count.go:53-65 | when every key after the merge holds the pointwise sum, the grand total is the sum of both totals |
| Counting.MergedPointwise | cmd/regex/count.go:62-64 | after the second loop every key holds the pointwise sum of ours and theirs, still consistent |
| Counting.MergedFiles | cmd/regex/count.go:67-72 | the per-file loop of Match.Merge gives the pointwise sum of the file maps |
| Counting.FirstWins | cmd/regex/count.go:55-60 | the first loop keeps our text for a key we have and takes theirs otherwise |
| Counting.LoadFile | cmd/dfind/main.go:232-240 | a failed read gives no file; otherwise source and rewritten text are the bytes read, so the file is unchanged |
| Quoting.HexRoundTrip | delphi/quote.go:3 | a digit of the table reads back as its value |
| Quoting.HexDigit | delphi/quote.go:3 | the hex table holds the digits 0-9 and A-F |
| Quoting.HexValue | delphi/quote.go:3 | reading a digit gives a value below 16 |
| Quoting.Quoted | delphi/quote.go:5-17 | the literal is framed by quotes and holds printable characters only |
| Quoting.Quote | delphi/quote.go:5-17 | the loop builds Quoted(s, 8): the low digit of an escape is b & 7 |
| Quoting.QuotedLength | delphi/quote.go:6-15 | two bytes of frame, one per kept byte, six per escaped byte |
| Quoting.UnquoteQuoted | delphi/quote.go:8-14 | reading the literal back gives every kept byte unchanged and in order, and each escaped byte with its low digit taken modulo the escape's base |
| Quoting.DecodePiece | delphi/quote.go:8-14 | reading back one byte's piece, kept or escaped, consumes exactly that piece |
| Quoting.ReadAll | delphi/quote.go:8-14 | reading back gives one byte per byte quoted |
| Quoting.ReadAllIntended | delphi/quote.go:8-14 | with four bits in the low digit every byte reads back as itself |
| Quoting.QuoteLosesBitThree | delphi/quote.go:10 | as written, a line feed is quoted like byte 0x02 and reads back as 0x02 |
| Quoting.QuoteIntended | delphi/quote.go:5-17 | the four-bit version of the escape: framed by quotes |
| Quoting.UnquoteQuoteIntended | delphi/quote.go:5-17 | with four bits in the low digit every byte string reads back as itself |
| Globs.KindOf | internal/walk/globs.go:33-44 | a piece is skipped exactly when it is empty after trimming |
| Globs.Pieces | internal/walk/globs.go:31 | ':' and ';' both separate, and there is at least one piece |
| Globs.OfKind | internal/walk/globs.go:32-45 | the pieces of one kind are never more than the pieces |
| Globs.PiecesClean | internal/walk/globs.go:31 | no piece holds ':' or ';' |
| Globs.OfKindPartition | internal/walk/globs.go:32-45 | every piece is skipped, kept as a glob or kept as an extension, exactly once |
| Globs.OfKindClean | internal/walk/globs.go:33-44 | what Set keeps is non-empty, trimmed and free of separators; extensions start with '.' and hold no wildcard |
| Globs.PiecesOfJoin | internal/walk/globs.go:26-31 | clean globs joined with ';' read back as the same globs and no extension |
| Globs.OfKindGlobs | internal/walk/globs.go:38-44 | clean globs are all kept as globs and none as extensions |
| Globs.SetEach | internal/walk/globs.go:32-45 | the loop appends the globs and the extensions, in order |
| Globs.GlobsFlag.constructor | internal/walk/globs.go:8-13 | the zero value of the flag |
| Globs.GlobsFlag.IsEmpty | internal/walk/globs.go:15-17 | empty means no globs in force and an empty String; not empty means some glob in force, some extension, or a Default list that NoDefault hides |
| Globs.GlobsFlag.All | internal/walk/globs.go:19-24 | Additional alone under NoDefault, else Default then Additional: Default in order at the start, Additional always at the end |
| Globs.GlobsFlag.String | internal/walk/globs.go:26-28 | "" when no glob is in force; splitting it on ';' gives the globs back |
| Globs.GlobsFlag.Set | internal/walk/globs.go:30-47 | appends each non-empty trimmed piece to Additional or Extensions; Default and NoDefault are unchanged; never an error |
| Globs.GlobsFlag.Matches | internal/walk/globs.go:49-71 | true exactly when the extension equals a listed one ignoring case, or a Default or Additional glob matches the base name |
| Globs.StringReadsBack | internal/walk/globs.go:26-47 | String's output fed back to Set adds the globs in force to Additional and nothing to Extensions |
| TestTool.TrimPrefix | cmd/test/dunit.go:108-113 | drops the prefix exactly when the text starts with it ignoring case |
| TestTool.TrimSuffix | cmd/test/dunit.go:101-106 | drops the suffix exactly when the text ends with it ignoring case |
| TestTool.ExpandNewlines | cmd/test/dunit.go:118 | after turning every LF into CRLF, each LF follows a CR |
| TestTool.WindowsLineEndings | cmd/test/dunit.go:115-120 | every LF follows a CR; only CRs are removed or inserted; the number of LFs is unchanged |
| TestTool.FuncsOf | cmd/test/dunit.go:83-88 | one Func per procedure, in order, calling it under its name without "Test_" |
| TestTool.GenerateDUnit | cmd/test/dunit.go:59-99 | the test unit is the output's base name without extension; per file the unit name, the class name and the Funcs; the bytes written are the rendered template with Windows line endings |
| TestTool.PresentMembers | cmd/test/errors.go:21-25 | the kept errors are exactly the non-nil ones, and none are kept exactly when all are nil |
| TestTool.Errors.Error | cmd/test/errors.go:8-17 | the context, ": ", then the messages joined by "; " |
| TestTool.NewErrors | cmd/test/errors.go:19-30 | nil exactly when every error is nil; otherwise the context and the non-nil errors in order |
| TestTool.CollectedDistinct | cmd/test/main.go:315-317 | no two collected names are equal ignoring case |
| TestTool.CollectedComplete | cmd/test/main.go:312-320 | every "test_" identifier right after PROCEDURE is collected, possibly under an earlier spelling |
| TestTool.CollectedFirstSeen | cmd/test/main.go:312-320 | each collected name is the spelling of its first occurrence, and names come in the order of those occurrences |
| TestTool.CollectTests | cmd/test/main.go:311-322 | the callback over the delivered tokens collects exactly Collected |
| TestTool.NewTestFile | cmd/test/main.go:296-325 | no file exactly when the read fails; otherwise the absolute path, the base name without extension, and the test procedures of the tokens the package-level Scan delivers |

## Left out

- The file system is an input map from path to bytes. Directory walking (`AddSourceDir`, dunits' `load`), `filepath.Abs`, every read and write, logging, and the verbose and error prints are not part of this model. A failed read is `None` or a missing key.
- Scanner: `findLineEnd`, `stripCR` and `switch4` are never called by `Scan`, so they are not modelled. The byte order mark test in `Init` and `Scan` can never succeed on bytes, so it is dropped.
- Scanning.Scanner.ScanLoop: the `goto scanAgain` of `Scan` is a tail-recursive call.
- Scanning.Scanner.constructor: it models `Init` on a zero Scanner. Re-initialising a used scanner is left out.
- Scanning.File.constructor: `token.File` and `token.FileSet` are not part of this model. Only the base, the size and the log of `AddLine` calls are kept.
- Paths: paths are handled as filepath does on a Unix system, with '/' the only separator and no volume names. Under Windows, `\` also separates and a drive letter such as `C:` is a volume name, so for `C:\src\Unit1.pas` Go's filepath.Base gives `Unit1.pas` where Paths.Base gives the whole text, and the unit key differs with it.
- Text.Lower, Text.EqualFold, Text.Delete, Text.TrimSpace, Text.Contains: case folding and white space are ASCII only. Text.Lower stands for strings.ToLower and Text.EqualFold for strings.EqualFold everywhere they are used: Counting.Canon, Rename's canonical keys, the index's unit keys, TestTool.TrimPrefix and TestTool.TrimSuffix. Go's Unicode rules agree on ASCII text.
- Units.CollectFileGrows: nested includes are followed to a bounded depth (`fuel`). The source has no guard, so a file that includes itself never ends there.
- UsesIndex.Index.Build: `index.InterfaceOnly` is a constructor parameter. `cmd/uses/main.go` parses a `-interface` flag but never copies it into the index.
- UsesIndex.Index.Build: with interface-only on, a unit used only in implementation sections is never queued, so it is never loaded.
- Export.WriteTXT: `FindCycles` is a parameter (the cycles it reports). It lives in cmd/dunits/cycles.go, which is not part of this model.
- cmd/dunits/main.go repeats code from cmd/uses and is modelled by the same members. `IncludeString`, `TrimExt`, `addSourcePath`, `addIncludePath`, `NormalName` and `handleInclude` are copies that differ only in logging. `iterate` is `UsesIndex.Index.ScanUses` with a directly driven scanner (the index's `direct` flag), and `Build` from a project file is `UsesIndex.Index.BuildProject`. cmd/dfind/main.go's Counter and Match (lines 166-222) are the cmd/regex ones, with the flags as parameters.
- Export: the dunits writers (cmd/dunits/main.go:75-196) are the same code as the cmd/uses ones and are modelled once. The destination's behaviour on each write is a parameter.
- Export.WriteDOT, Export.WriteTGF, Export.WriteGLAY: Go map order is a ghost result. Each writer is proved for the order it happens to use.
- Why.Why: the `fmt.Println` calls are left out. `usedBy` is ghost because the loop that fills it visits the map in any order; Why.UsedByUnique shows the result does not depend on that order.
- Rename.Process: the file is tokenised before the rewrite loop runs, not token by token. This moves only when scanner errors would be printed. `main`, `LoadBatchFile` (TOML) and the write/print of the result are left out.
- Rename.BatchRename.Canonicalize: when two names differ only in case, which one wins depends on map order. The contract only says the winner is one of them.
- Counting: `Match` is a value rather than a shared reference; the Go code never shares a match between counters. dfind's `ignoreCase`/`ignoreSpace` globals are parameters.
- Counting.Counter.Merge: requires the other counter to be a different object. Merging a counter into itself is left out.
- dfind's `CountRegular`, `Replace`, `SaveChanges` and `main`, and cmd/regex's main and file handling, depend on regular expressions, worker pools and the file system. They are left out.
- TestTool.GenerateDUnit: `strings.Title` and the template execution are parameters. A template error is left out.
- TestTool.NewTestFile: the `test_` procedures are collected from the delivered tokens after scanning, not inside the callback; the callback never stops the scan, so the result is the same. `delphi.AbsPath` is a parameter.
- Globs.GlobsFlag.Matches: `filepath.Match` is a parameter, and a malformed pattern counts as no match, as the code does. Matches consults Default even under NoDefault, as the code does.
- Globs.GlobsFlag.Set: the loop runs over the two lists and then assigns them to the fields, rather than appending to the fields in place.
- scanner/example_test.go:45 expects the literal ";" for a semicolon, but the code returns "" for it (scanner/scanner.go:509-510). The model follows the code.

## Findings

| source | as written | input that shows it | evidently intended | confidence | as-written member | corrected member |
|---|---|---|---|---|---|---|
| delphi/quote.go:10 | the low hex digit of an escape is `hex[b&7]`, three bits | the byte 0x0A (line feed) is quoted `'#$02'`, the same as byte 0x02 | `hex[b&15]`, so that `#$0A` reads back as 0x0A | high (not executed) | Quoting.QuoteLosesBitThree | Quoting.UnquoteQuoteIntended |

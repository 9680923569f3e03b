# js-eval front end in Dafny

This project models the front end of js-eval, a small interpreter for a subset of JavaScript. It covers four parts:

- the token model: token kinds, the keyword table and the precedence table;
- the character-level scanner (`Lexer`);
- the Pratt parser (`Parser`), which turns the tokens into statements and expressions;
- the syntax tree and its fully parenthesising debug printer.

The token model and the printer are pure, and they are modelled as datatypes and functions. The scanner and the parser change their own state step by step, so each is a `class`:

- `Scanner.Lexer` holds the text not consumed yet and cuts tokens off its front.
- `Parsing.Parser` holds the current and peek tokens and shifts them along the token stream.

Every method of the two classes is proved equal to a function of the old state:

- one call of the scanner is `LexSpec.Lex`;
- each parsing routine is its counterpart in `ParseSpec`, from the current-token index to the node built and the index current afterwards, or to the error thrown.

The properties are then proved about those functions. Among them:

- operator texts and maximal munch;
- comment skipping;
- the longest-match number and identifier literals;
- where an expression may start and where it stops;
- the parameter-list rules;
- a round trip: the tokens of any tree the parser can build, written with the fewest parentheses that keep its shape, parse back to that tree;
- the parser's own precedence test vectors, with their printed forms.

Modules, one per file:

| file | module | models |
|---|---|---|
| results.dfy | Results | success or error of a routine |
| tokens.dfy | Tokens | `src/token.ts` |
| numbers.dfy | Numbers | the value of a number literal and how it prints |
| ast.dfy | Ast | `src/ast.ts` |
| lex_spec.dfy | LexSpec | one `next()` call as a function |
| lexer.dfy | Scanner | class `Lexer` of `src/lexer.ts` |
| lex_props.dfy | LexProps | properties of the scanner |
| parse_spec.dfy | ParseSpec | the parsing routines as functions over the token stream |
| parser.dfy | Parsing | class `Parser` of `src/parser.ts` |
| parse_props.dfy | ParseProps | where expressions start and stop |
| precedence.dfy | Precedence | the round trip from tree to tokens to tree |
| findings.dfy | Findings | two loops as written, beside the corrected loops |
| vectors.dfy | Vectors | the precedence vectors of `src/parser.test.ts` |
| statements.dfy | Statements | statements, blocks, parameter lists and functions written out as tokens and read back |
| statement_vectors.dfy | StatementVectors | the statement vectors of `src/parser.test.ts` |

## Model

| member | source | states |
|---|---|---|
| Tokens.LevelsAscend | src/token.ts:85-93 | The precedence levels strictly ascend from LOWEST to PRIMARY, and distinct levels have distinct values. |
| Tokens.PrecedenceTableContents | src/token.ts:95-109 | The table puts exactly `==`, `===`, `!=`, `!==` at LOGICAL, exactly `+`, `-` at SUM, exactly `*`, `/`, `%`, `^` at PRODUCT and exactly NUMBER, IDENT, STRING at PRIMARY. It has no entry at LOWEST, PREFIX or CALL. |
| Tokens.ProductAboveSumAboveLogical | src/token.ts:96-105 | Every product operator binds tighter than every sum operator, which binds tighter than every equality operator. |
| Tokens.AbsentMeansLowest | src/token.ts:95-109 | A kind's looked-up precedence is LOWEST if and only if the table has no entry for it. |
| Tokens.KeywordEntries | src/token.ts:66-83 | Every keyword-table entry is a keyword kind; none is IDENT, EOF or DO. |
| Tokens.KeywordWords | src/token.ts:66-83 | The table has an entry exactly for the sixteen listed words. |
| Tokens.FunctionIsFunc | src/token.ts:42 | The word `function` maps to FUNC, whose enum text is `func`. |
| Tokens.Level | src/token.ts:85-93 | Each precedence level is a number from 0 to 6. |
| Numbers.NumberValueIsNormalized | src/parser.ts:197-203 | The value read from any literal is canonical: no trailing zero after the point. |
| Numbers.UnderscoresAreIgnored | src/parser.ts:201 | A literal has the same value as the literal with its underscores removed. |
| Numbers.NumberRoundTrip | src/ast.ts:106 | Reading back the printed text of a canonical number gives the same number. |
| Numbers.StripUnderscores | src/parser.ts:201 | The result has no underscore, is no longer than the input, and equals the input when the input had none. |
| Numbers.StripUnderscoresConcat | src/parser.ts:201 | Removing underscores from two joined texts is removing them from each and joining the results. |
| Numbers.StripUnderscoresChar | src/parser.ts:201 | A lone underscore is removed, and any other character is kept. |
| Ast.ParenthesesCountOperators | src/ast.ts:103-115 | For a tree with no parenthesis inside a name, string or operator text, the printed expression has as many `(`, and as many `)`, as prefix and infix nodes. |
| Ast.OperatorNodesAreWrapped | src/ast.ts:109-113 | The printed form of a prefix or infix node starts with `(` and ends with `)`. |
| Ast.OnlyExpressionStatementsPrint | src/ast.ts:88-101 | Only an expression statement prints non-empty text, and it prints as its expression. |
| Ast.InfixOccurrences | src/ast.ts:110-113 | An infix node's text has one more of each parenthesis than its operands together. |
| Ast.PrefixOccurrences | src/ast.ts:109 | A prefix node's text has one more of each parenthesis than its operand. |
| LexSpec.TrimStart | src/lexer.ts:8 | The result is a suffix of the input that starts with no blank, and only blanks were dropped. |
| LexSpec.WordEnd | src/lexer.ts:223-230 | The end of the run of identifier characters: every character before it is one, and the next is not. |
| LexSpec.LineEnd | src/lexer.ts:75-81 | The first line break at or after the start index, or the end of the text. |
| LexSpec.CommentClose | src/lexer.ts:84-90 | The first `*/` at or after the start index, or none when no `*/` occurs. |
| LexSpec.QuoteIndex | src/lexer.ts:248-258 | The first occurrence of the quote at or after the start index, or none when it does not occur. |
| LexSpec.NumberLengthIsLongest | src/lexer.ts:192-194 | The number literal is the longest prefix matching the number pattern, and every longer prefix fails the pattern. |
| LexSpec.IdentifierLengthIsLongest | src/lexer.ts:196-198 | The identifier is the longest prefix matching the identifier pattern. |
| LexSpec.WordKind | src/lexer.ts:234-244 | A word's kind is IDENT or a keyword kind, never EOF, STRING or NUMBER. |
| LexSpec.ScanNumber | src/lexer.ts:204-221 | A NUMBER token whose literal is a prefix of the text, matches the number pattern and cannot be extended by the next character. |
| LexSpec.ScanWord | src/lexer.ts:223-245 | A token whose literal is the longest identifier prefix of the text, with the keyword-table kind or IDENT. |
| LexSpec.ScanString | src/lexer.ts:247-260 | A string scan strictly shortens the text. On success the token is a STRING whose literal is exactly the text between the opening quote and its next occurrence, which the literal does not contain, and the text after the closing quote is left. On failure the quote does not occur again and the error names it. |
| LexSpec.ScanDoubled | src/lexer.ts:44-67 | `++` or `+` (and `--` or `-`): the token's literal is a prefix of the text and its kind is one of the two. |
| LexSpec.ScanEquality | src/lexer.ts:113-148 | `===`, `==` or `=` (and `!==`, `!=` or `!`): the literal is a prefix of the text and the kind is one of the three. |
| LexSpec.ScanSymbol | src/lexer.ts:14-164 | An operator or punctuation token whose literal is a prefix of the text and whose kind is not EOF, STRING, NUMBER or IDENT. |
| LexSpec.ScanToken | src/lexer.ts:14-178 | A successful scan consumes at least one character and never returns EOF. |
| LexSpec.TokenStart | src/lexer.ts:8-91 | After blanks and comments are skipped, what is left is a suffix of the input, starting with no blank. |
| LexSpec.Lex | src/lexer.ts:7-180 | One call leaves a suffix of the input. A non-EOF token strictly shortens it. EOF has an empty literal and leaves nothing. |
| LexSpec.TokenizeHasNoEof | src/lexer.ts:10-12 | The tokens returned before the first EOF contain no EOF. |
| Scanner.NumberLengthIs | src/lexer.ts:205-218 | A prefix that matches the number pattern, and cannot be extended, is the number literal. |
| Scanner.IdentifierLengthIs | src/lexer.ts:225-233 | A prefix that matches the identifier pattern, and cannot be extended, is the identifier. |
| Scanner.Lexer.constructor | src/lexer.ts:5 | The lexer starts with the whole source unconsumed. |
| Scanner.Lexer.Slice | src/lexer.ts:182-186 | Returns the first `len` characters, or all of them when there are fewer, and leaves the rest. |
| Scanner.Lexer.Next | src/lexer.ts:7-180 | The token or error returned, and the text left, are exactly `LexSpec.Lex` of the old text. |
| Scanner.Lexer.SkipLineComment | src/lexer.ts:73-81 | Consumes everything up to and including the line break, or to the end of the text. |
| Scanner.Lexer.SkipBlockComment | src/lexer.ts:82-91 | Reports whether the comment is closed. If so it consumes through the `*/`; otherwise it consumes nothing. |
| Scanner.Lexer.Scan | src/lexer.ts:14-178 | The token or error and the text left are exactly `LexSpec.ScanToken` of the old text. |
| Scanner.Lexer.Symbol | src/lexer.ts:16-164 | The operator or punctuation token and the text left are exactly `LexSpec.ScanSymbol` of the old text. |
| Scanner.Lexer.Number | src/lexer.ts:204-221 | The NUMBER token and the text left are exactly `LexSpec.ScanNumber` of the old text. |
| Scanner.Lexer.Identifier | src/lexer.ts:223-245 | The word token and the text left are exactly `LexSpec.ScanWord` of the old text. |
| Scanner.Lexer.String | src/lexer.ts:247-260 | The STRING token or unterminated-string error, and the text left, are exactly `LexSpec.ScanString` with the opening quote in front. |
| LexProps.ScanTokenLiteral | src/lexer.ts:14-186 | Except for strings, the literal of a scanned token is exactly the prefix it consumed. |
| LexProps.LiteralIsConsumedText | src/lexer.ts:7-186 | For each non-EOF token other than a string, the literal is exactly the text consumed after the skipped blanks and comments. |
| LexProps.EofIsFinal | src/lexer.ts:10-12 | Once EOF is returned nothing is left, and every later call returns EOF again. |
| LexProps.BlankInputIsEof | src/lexer.ts:8-12 | Input made only of blanks gives EOF with an empty literal. |
| LexProps.LineCommentIsSkipped | src/lexer.ts:73-80 | `//` comment, line break, rest: the call returns what it returns on the rest. |
| LexProps.LastLineCommentIsSkipped | src/lexer.ts:73-80 | A `//` comment that runs to the end of the input gives EOF. |
| LexProps.BlockCommentIsSkipped | src/lexer.ts:82-89 | A closed `/* */` comment, even across lines, yields no token: the call returns what it returns on the text after it. |
| LexProps.UnclosedBlockCommentIsSlash | src/lexer.ts:82-95 | An unclosed `/*` is no error: the call returns SLASH `/` and leaves the `*` and the rest. |
| LexProps.SlashIsSingle | src/lexer.ts:92-95 | Once comments are skipped, a slash at the token start scans as the one-character SLASH, whatever follows it, and only the slash is consumed. |
| LexProps.MaximalMunch | src/lexer.ts:44-148 | When the text starts with a symbol's spelling, the scanned token is at least that long, and its literal is its kind's enum text. |
| LexProps.SymbolText | src/lexer.ts:14-164 | For every operator and punctuation token, the literal is exactly the kind's enum text. |
| LexProps.MultiCharacterSymbols | src/token.ts:2-35 | Symbols are one to three characters long; the longer ones are exactly `++ -- ... == === != !==`. |
| LexProps.NumberIsLongest | src/lexer.ts:204-221 | A NUMBER literal is the consumed prefix. It matches the number pattern, and adding the next character breaks the match. |
| LexProps.WordIsLongest | src/lexer.ts:223-245 | A word token's literal is the longest identifier prefix, and its kind is the keyword-table entry or IDENT. |
| LexProps.UnknownCharacterFails | src/lexer.ts:165-178 | The scan fails with the first character exactly when that character starts no symbol, digit, quote or identifier. |
| LexProps.UnterminatedStringFails | src/lexer.ts:247-260 | A string fails exactly when its opening quote does not occur again. |
| LexProps.CaretIsUnknown | src/lexer.ts:165-178 | `^` is an unknown character, although it has a precedence and an infix function. |
| LexProps.DoIsAName | src/token.ts:51-83 | `do` has no keyword-table entry, so it scans as IDENT `do`. |
| LexProps.GreaterIsSingle | src/lexer.ts:153-156 | `>` is a one-character token whatever follows it. |
| LexProps.LoneAssignment | src/lexer.ts:113-130 | `=` not followed by `=` is EQ `=`. |
| LexProps.GreaterEqualIsTwoTokens | src/lexer.ts:113-156 | `>=` scans as GT `>`, and then EQ `=`. |
| LexProps.UntrimmedStart | src/lexer.ts:72-91 | Text that starts with `/` has its token start set by the comment it opens, if any. |
| ParseSpec.Tok | src/lexer.ts:10-12 | From the end of the stream on, every token is EOF. |
| ParseSpec.ExpectPeek | src/parser.ts:274-279 | Succeeds, advancing one token, exactly when the peek token has the expected kind; otherwise it fails naming both kinds. |
| ParseSpec.SkipSemi | src/parser.ts:166-172 | Advances by one exactly when the next token is a semicolon, and otherwise stays put. |
| ParseSpec.Grouped | src/parser.ts:233-238 | A parsed group ends on a `)` token after the `(`. |
| ParseSpec.ParseLet | src/parser.ts:75-86 | A parsed declaration records the keyword it started with, and the name after it, which is followed by `=`. A keyword other than `let`, `const` or `var` fails as not a declaration. A missing name fails expecting IDENT, and a missing `=` fails expecting EQ, each naming the token found. |
| ParseSpec.ParamsStopAtClose | src/parser.ts:109 | A parameter list that parses ends with `)` or EOF current. |
| ParseSpec.BlockStopsAtClose | src/parser.ts:158 | A block that parses ends with `}` or EOF current. |
| Parsing.Parser.constructor | src/parser.ts:32-48 | After two advances the current and peek tokens are the first two of the stream. |
| Parsing.Parser.NextToken | src/parser.ts:261-264 | The peek token becomes current, and the position advances by one. |
| Parsing.Parser.CurrentPrecedence | src/parser.ts:266-268 | The current token's table entry, or LOWEST when it has none. |
| Parsing.Parser.PeekPrecedence | src/parser.ts:270-272 | The peek token's table entry, or LOWEST when it has none. |
| Parsing.Parser.ExpectPeek | src/parser.ts:274-279 | Result and new position are exactly `ParseSpec.ExpectPeek`. |
| Parsing.Parser.ParseProgram | src/parser.ts:50-58 | The result is exactly `ParseSpec.ParseProgram` of the stream. This is the corrected loop; see Findings. |
| Parsing.Parser.ParseStatement | src/parser.ts:60-73 | Result and new position are exactly `ParseSpec.ParseStatement`. |
| Parsing.Parser.ParseLetStatement | src/parser.ts:75-86 | Result and new position are exactly `ParseSpec.ParseLet`. |
| Parsing.Parser.ParseReturnStatement | src/parser.ts:88-91 | Result and new position are exactly `ParseSpec.ParseReturn`. |
| Parsing.Parser.ParseFunctionStatement | src/parser.ts:93-101 | Result and new position are exactly `ParseSpec.ParseFunction`. |
| Parsing.Parser.ParseFunctionParams | src/parser.ts:103-152 | Result and new position are exactly `ParseSpec.ParseParams` from the token after `(`. This is the corrected loop; see Findings. |
| Parsing.Parser.ParseParameter | src/parser.ts:110-148 | One turn of the parameter loop is exactly `ParseSpec.ParamStep`. This is the corrected turn: after a rest parameter it also rejects a second `...`, where the source rejects only a plain name; see Findings. |
| Parsing.Parser.ParseRestParameter | src/parser.ts:110-124 | A `...name` turn before any rest parameter is exactly `ParseSpec.ParamStep`, as the source's `...` branch is written. This includes the error when `=` follows. |
| Parsing.Parser.ParseNamedParameter | src/parser.ts:125-143 | A named-parameter turn, with its optional default, is exactly `ParseSpec.ParamStep`. |
| Parsing.Parser.ParseBlockStatement | src/parser.ts:154-164 | Result and new position are exactly `ParseSpec.ParseBlock`. |
| Parsing.Parser.ParseExpressionStatement | src/parser.ts:166-172 | Result and new position are exactly `ParseSpec.ParseExpressionStatement`. |
| Parsing.Parser.ParseExpression | src/parser.ts:174-195 | Result and new position are exactly `ParseSpec.ParseExpression` at the old position and the given precedence. |
| Parsing.Parser.ParseInfixLoop | src/parser.ts:181-194 | The loop's result and new position are exactly `ParseSpec.InfixLoop`. |
| Parsing.Parser.ParsePrefixFn | src/parser.ts:174-179 | Result and new position are exactly `ParseSpec.Prefix`. |
| Parsing.Parser.ParseNumber | src/parser.ts:197-203 | A number node valued at the current literal read without underscores. |
| Parsing.Parser.ParseString | src/parser.ts:205-211 | A string node holding the current literal. |
| Parsing.Parser.ParseIdent | src/parser.ts:213-219 | An identifier node named by the current literal. |
| Parsing.Parser.ParsePrefix | src/parser.ts:221-231 | Result and new position are exactly `ParseSpec.PrefixOperator`. The operand is parsed at PREFIX. |
| Parsing.Parser.ParseGroupedExpression | src/parser.ts:233-238 | Result and new position are exactly `ParseSpec.Grouped`. |
| Parsing.Parser.ParseInfix | src/parser.ts:240-252 | Result and new position are exactly `ParseSpec.Infix`. The right operand is parsed at the operator's own precedence. |
| ParseProps.NoPrefixFunctionFails | src/parser.ts:174-178 | An expression starting with any kind other than NUMBER, STRING, IDENT, MINUS or L_PAREN fails, naming that kind. |
| ParseProps.LiteralPrefix | src/parser.ts:197-219 | A number, string or name is a complete prefix: it succeeds without advancing and builds no operator node. |
| ParseProps.NoInfixFunctionStops | src/parser.ts:181-189 | With `;`, EOF or a kind without an infix function as peek, the loop returns the left operand without consuming anything. |
| ParseProps.EqualityEndsExpression | src/parser.ts:181-189 | A name followed by `==` is the whole expression, at every precedence. |
| ParseProps.EqualityIsNotAProgram | src/parser.ts:50-73 | `a == b` fails: after `a`, the next statement starts with `==`, which has no prefix function. |
| ParseProps.GroupHasNoNode | src/parser.ts:233-238 | A group's value is the expression inside it, and it ends one token after that expression. |
| ParseProps.UnclosedGroupFails | src/parser.ts:236 | A group whose expression is not followed by `)` fails, naming the token found instead. |
| Precedence.RoundTrip | src/parser.ts:174-252 | Any tree the parser can build, written as tokens with the fewest parentheses that keep its shape, parses back to the same tree and consumes every token. |
| Precedence.ParseUnparse | src/parser.ts:174-195 | Inside any stream, when the token after a tree's tokens would end an operand at the tree's own binding, the expression routine, called there at a precedence below the tree's top operator, reads those tokens and reaches its infix loop with that tree as the left operand and the tree's last token current. The loop may still extend the tree; `ParseEmbedded` and `ParseWhole` give the cases where it stops. |
| Precedence.ParseWhole | src/parser.ts:174-195 | A stream holding exactly the tokens of a tree parses to that tree, ending at its last token. |
| Precedence.ParseEmbedded | src/parser.ts:174-195 | Inside any stream, the tokens of a tree followed by a token that ends every expression parse at LOWEST to that tree, ending at its last token. |
| Precedence.InfixKind | src/token.ts:100-105 | Each operator with an infix function is spelled by its kind's text and binds between SUM and PRODUCT. |
| Vectors.SumOfProduct | src/parser.test.ts:37 | `1 + 2 * 3` parses, by the corrected loop and by the loop as written, to one statement that prints `(1 + (2 * 3))`. |
| Vectors.NegatedFactor | src/parser.test.ts:38 | `-1 * 3` parses, by the corrected loop and by the loop as written, to one statement that prints `((-1) * 3)`. |
| Vectors.NegatedRight | src/parser.test.ts:39 | `3 * -1` parses, by the corrected loop and by the loop as written, to one statement that prints `(3 * (-1))`. |
| Vectors.Mixed | src/parser.test.ts:41 | `a + b / c %d - e` parses, by the corrected loop and by the loop as written, to one statement that prints `((a + ((b / c) % d)) - e)`. |
| Vectors.GroupedSum | src/parser.test.ts:42 | `(a + b) * c` parses, by the corrected loop and by the loop as written, to one statement that prints `((a + b) * c)`. |
| Vectors.TwoGroups | src/parser.test.ts:43 | `a * (b + c) + (d + e)` parses, by the corrected loop and by the loop as written, to one statement that prints `((a * (b + c)) + (d + e))`. |
| Vectors.Chain | src/parser.test.ts:234-262 | `a * b * multiplier` is left-associative: by both loops it is one statement, `((a * b) * multiplier)`. |
| Vectors.WholeExpressionProgram | src/parser.ts:50-73 | For the corrected loop, a stream holding exactly one tree's tokens is a program of one expression statement, that tree. |
| Vectors.AsWrittenOnTrees | src/parser.ts:50-58 | The loop as written reads the same one statement from the tokens of a tree of two or more tokens, and no statement from a tree of one token. |
| Vectors.ProgramPrints | src/parser.test.ts:44-51 | A stream holding exactly one tree's tokens is, for the corrected loop, a one-statement program that prints as that tree. The loop as written gives the same program when the tree has two or more tokens. |
| Findings.TwoRestParamsAccepted | src/parser.ts:110-124 | As written, `(...a, ...b)` gives two rest parameters; the corrected loop rejects it as "rest parameter must be last". |
| Findings.RestIsLast | src/parser.ts:103-152 | In every list the corrected loop accepts, only the last parameter can be a rest parameter, and no rest parameter has a default. |
| Findings.ParamsAgreeWithoutSecondRest | src/parser.ts:103-152 | On every list the corrected loop accepts, the loop as written gives the same result. |
| Findings.SingleTokenProgramDropped | src/parser.ts:50-58 | As written, the program `x` has no statements; the corrected loop gives the one statement `x`. |
| Findings.LoopsAgree | src/parser.ts:50-58 | On a stream without EOF, the loop as written and the corrected loop give the same result whenever no turn of the corrected loop starts on the last token. |
| Findings.LastTurnDropped | src/parser.ts:50-58 | When a turn starts on the last token, the loop as written succeeds with the statements gathered so far, and the corrected loop's result is that of a turn from the last token with those statements. |
| Findings.DanglingLetAccepted | src/parser.ts:50-86 | As written, `a; let` is the program `a`; the corrected loop fails expecting a name after `let`. |
| Statements.LetAt | src/parser.ts:75-86 | `let`, `const` or `var`, a name, `=` and the tokens of a tree, followed by a token that ends it, are a declaration of that name with that keyword and value, taking one semicolon after it. |
| Statements.ReturnAt | src/parser.ts:88-91 | `return` and the tokens of a tree, followed by a token that ends it, are a return of that tree, taking one semicolon after it. |
| Statements.ExpressionAt | src/parser.ts:166-172 | The tokens of a tree, followed by a token that ends it, are an expression statement of that tree; the statement and the statement dispatcher each take one semicolon. |
| Statements.LetWritten | src/parser.ts:60-86 | `[k, x, =]`, the tokens of a tree and `;` are the declaration of `x` by `k` with that value, ending on the `;`. |
| Statements.ReturnWritten | src/parser.ts:60-91 | `return`, the tokens of a tree and `;` are a return of that tree, ending on the `;`. |
| Statements.ExpressionWritten | src/parser.ts:60-73 | The tokens of a tree and `;`, not followed by another `;`, are an expression statement of that tree, ending on the `;`. |
| Statements.StatementAt | src/parser.ts:60-73 | The tokens of a declaration, return or expression statement, not followed by `;`, are read back as that statement, ending on its semicolon. |
| Statements.ProgramAt | src/parser.ts:50-58 | The corrected program loop reads a sequence of written-out statements back, after the statements it already holds. |
| Statements.NoTurnOnLast | src/parser.ts:50-58 | On written-out statements the corrected loop never starts a turn on the last token, so the loop as written agrees with it. |
| Statements.StatementsRoundTrip | src/parser.ts:50-73 | Both program loops read the tokens of any sequence of declarations, returns and expression statements back as exactly that program. |
| Statements.BlockAt | src/parser.ts:154-164 | The block loop reads written-out statements back as a block, stopping on the `}` after them. |
| Statements.BodyAt | src/parser.ts:154-164 | The statements between a function's `{` and its `}` are read as its block, ending on the `}`. |
| Statements.ParamAt | src/parser.ts:110-148 | One turn of the parameter loop over a written-out parameter, plain, with a default or `...rest`, followed by `,` or `)`, adds exactly that parameter. |
| Statements.ParamsAt | src/parser.ts:103-152 | The parameter loop reads any list of plain, defaulted and rest parameters, with only the last a rest parameter, back as that list, stopping at the `)`. |
| Statements.FunctionParsed | src/parser.ts:93-101 | `function`, a name and `(`, a parameter list read up to `)`, then `{` and a block read up to `}`, are the function statement of that name, parameters and body. |
| Statements.FunctionStatementAt | src/parser.ts:60-101 | Such a function statement, not followed by `;`, is the statement at its keyword, ending at its `}`. |
| Statements.FunctionAt | src/parser.ts:60-164 | The tokens of a function with any writable parameter list and a body of written-out statements, not followed by `;`, are read back as that function. |
| Statements.ReturnBlockAt | src/parser.ts:154-164 | A body holding only `return` and the tokens of a tree, without a semicolon, is a block of that one return. |
| Statements.ReturningFunctionAt | src/parser.ts:60-164 | A function whose body is a single `return` without a semicolon is read back as that function. |
| Statements.OneStatementProgram | src/parser.ts:50-58 | A stream read whole as one statement is a program of that statement for both program loops. |
| Statements.FunctionRoundTrip | src/parser.ts:50-164 | Both program loops read the tokens of any function statement with a writable parameter list and written-out body back as that one function. |
| StatementVectors.ThreeFunctions | src/parser.ts:50-164 | Three functions written one after the other, the middle one a single-return function without a semicolon, are read back by both program loops as those three functions. |
| StatementVectors.DeclarationsParsed | src/parser.test.ts:54-94 | `const foo = 2; let bar = "foobar";` is, for both program loops, the two declarations with their keywords, names and values. |
| StatementVectors.ReturnSumParsed | src/parser.test.ts:96-122 | `return 3 + "foobar";` is, for both program loops, one return of the sum of 3 and the string `foobar`. |
| StatementVectors.FunctionsParsed | src/parser.test.ts:124-303 | The three functions `sum`, `product` and `consoleLog` are, for both program loops, exactly the three function statements expected: plain parameters, a default of 1, a default string and a rest parameter, and the bodies with their returns. |

## Left out

- Number values are exact decimals rather than IEEE doubles. `Number.parseFloat` rounding and JavaScript's number-to-text rules are out: exponent notation, `0.1 + 0.2`-style digits and literals beyond double precision. In particular `1.50` prints as `1.5` and `2.0` as `2`, as in JavaScript.
- The parser reads a pre-scanned token stream (`Tokenize`), where the source pulls one token at a time from the scanner. On text that scans without error the two agree. On text with a scanner error, the source throws either that error or an earlier parse error, whichever it meets first; the model does not decide between the two.
- The prefix and infix registries, and their `.bind(this)`, are a fixed case split over the token kind (`HasPrefixFn`, `HasInfixFn`, `Prefix`, `Infix`). The routines they register are all modelled.
- The `ts-pattern` library is out. Its `match` and `P.union` chains are plain `if` and `match`.
- The regular expressions of `isNumber` and `isValidIdentifier` are character predicates (`IsNumber`, `IsValidIdentifier`). The scanning loops test the prefix one character longer each turn, as the source does.
- `trimStart` strips only space, tab, line feed and carriage return. JavaScript also strips other Unicode blanks, which is out.
- The keyword lookup is a finite match on the sixteen words. A plain JavaScript object would also answer for inherited names such as `toString`; that is out.
- Error messages are datatype values (`LexError`, `ParseError`) naming the kinds involved, not message strings.
- `SINGLE_LINE_COMMENT`, `MULTI_LINE_COMMENT` and `FunctionExpression` are declared, but nothing produces them. They are declared in the model and used nowhere.
- Ast.ParenthesesCountOperators: proved only for trees where no name, string or operator text contains a parenthesis. A string literal whose text is `(` prints that `(` unquoted, and it belongs to no operator node, so the count does not hold for every tree.
- Characters are Dafny `char`s, so surrogate pairs and other UTF-16 detail are out.
- The `bun:test` test runner is out. The parser's vectors are restated as lemmas over the token streams their texts scan to. The step from each vector's text to its tokens is not modelled: no lemma runs the scanner over those texts.

## Findings

| source | as written | input that shows it | evidently intended | confidence | as-written member | corrected member |
|---|---|---|---|---|---|---|
| src/parser.ts:110-124 | `...` is accepted even after a rest parameter: only a plain name checks the rest flag. | `function f(...a, ...b) {}` gives two rest parameters. | Reject any parameter after a rest parameter, as JavaScript does ("rest parameter must be last formal parameter"). | not executed | Findings.TwoRestParamsAccepted | Findings.RestIsLast |
| src/parser.ts:50-58 | The program loop runs while the peek token is not EOF, so a last statement made of a single token is never parsed. | The program `x` gives no statement. | Loop while the current token is not EOF. | not executed | Findings.SingleTokenProgramDropped | Parsing.Parser.ParseProgram |

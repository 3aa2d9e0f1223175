# Monkey parser engine, modelled in Dafny

This project models the parser engine of the Monkey language interpreter
(`parser/parser.go`). That file is an early sketch of a Pratt parser, and the model
follows it as written:

- The parser keeps a two-token window (`curToken`, `peekToken`) over the lexer.
- It dispatches statements on the current token: `let`, `return`, or an expression statement.
- It checks a `let` for an identifier and then `=` through `expectPeek`.
- Its expression routine handles only identifiers, through the prefix registry.
- It keeps an append-only error list.

None of the statement parsers parses a value yet. Each one skips tokens up to the next `;`.

The modules are:

- `Tokens`: token categories and tokens.
- `Lexer`: the lexer as a token sequence followed by EOF forever (`TokenAt`), and the first semicolon at or after a position (`NextSemicolon`).
- `Ast`: identifiers, the three statement kinds, Go's `ast.Statement` interface values (`StatementRef`: the nil interface, or an interface holding a pointer that may be nil), and `Program`.
- `Precedences`: the precedence constants.
- `ParserSpec`: pure functions saying what a statement parse (`StatementAt`) and a whole pass (`Run`; `WrittenRun` for the loop as written) produce from the token stream and the current position. `Halts` is the exact condition under which a pass ends.
- `Parser`: the class `Parser`. Its methods change the window, the lexer read position and the error list in place. Each method states its new state outright, and the program loops are proved to follow `Run` and `WrittenRun`.
- `ParserProperties`: lemmas about whole passes, and worked inputs.

The dispatch maps (parser/parser.go:32-33, 73-75) are a map from token category to a `PrefixFn` tag. `New` fills it with the identifier entry only.

## Model

| member | source | states |
|---|---|---|
| `Precedences.LevelsStrictlyIncrease` | parser/parser.go:10-19 | the seven levels are LOWEST=1 through CALL=7, consecutive and strictly increasing |
| `Lexer.NextSemicolon` | parser/parser.go:105-108 | the result is a semicolon position at or after `k` |
| `Lexer.NextSemicolonIsFirst` | parser/parser.go:105-108 | no semicolon lies between `k` and the position `NextSemicolon` finds, so it is where a skip loop stops |
| `ParserSpec.ExpressionAt` | parser/parser.go:138-152 | with the registry built by `New`, an expression exists exactly when the token is `IDENT`, and it is the identifier holding that token's literal |
| `ParserSpec.StatementAt` | parser/parser.go:81-136 | a statement parse never moves the current token back |
| `ParserSpec.PassEndsAtEof` | parser/parser.go:58-71 | a pass that starts on EOF, such as one over an empty input, ends at once with no statement and no error |
| `ParserSpec.WrittenRun` | parser/parser.go:58-71 | the loop as written: it stores every statement value whose interface is not nil, a nil `let` pointer included, so every stored value is a non-nil interface |
| `ParserSpec.Run` | parser/parser.go:58-71 | the loop with the nil check corrected: it stores only values that hold a statement; it has no contract of its own, and `RunStoresNoNil`, `RunErrorsAreLetMismatches` and `RunIsWrittenRunWithoutNils` state its properties |
| `Parser.Parser.New` | parser/parser.go:38-51 | after construction `curToken` is the lexer's first token, `peekToken` its second, and the error list is empty |
| `Parser.Parser.NextToken` | parser/parser.go:53-56 | the new `curToken` is the old `peekToken` and the new `peekToken` is the lexer's next token; errors and the registry cannot change |
| `Parser.Parser.RegisterPrefix` | parser/parser.go:73-75 | the registry gains or replaces the entry for the given category |
| `Parser.Parser.CurTokenIs` | parser/parser.go:154-156 | on a consistent window, true exactly when the lexer's token at the cursor has category `t` |
| `Parser.Parser.PeekTokenIs` | parser/parser.go:158-160 | on a consistent window, true exactly when the lexer's token just after the cursor has category `t` |
| `Parser.Parser.ExpectPeek` | parser/parser.go:162-170 | returns true exactly when the peek category is `t`; on true the window advances once and the errors are unchanged; on false the window is unchanged and exactly one error `(t, actual peek category)` is appended to the old list |
| `Parser.Parser.Errors` | parser/parser.go:172-174 | returns the recorded errors |
| `Parser.Parser.PeekError` | parser/parser.go:176-180 | appends one error naming the expected category and the peek token's category, keeping earlier errors |
| `Parser.Parser.SkipToSemicolon` | parser/parser.go:106-108 | advances until the current token is the first semicolon at or after the starting position |
| `Parser.Parser.ParseLetStatement` | parser/parser.go:92-111 | nil with one error `(IDENT, actual)` when no identifier follows, nil with one error `(ASSIGN, actual)` when no `=` follows the name, and otherwise a let statement whose name is the identifier token's literal, with no error and the current token on the first semicolon after `=` |
| `Parser.Parser.ParseReturnStatement` | parser/parser.go:113-124 | a return statement carrying the `return` token, with the current token on the first semicolon after it |
| `Parser.Parser.ParseExpressionStatement` | parser/parser.go:126-136 | an expression statement carrying the first token and its expression, with the current token on the first semicolon at or after the start |
| `Parser.Parser.ParseExpression` | parser/parser.go:138-148 | an identifier with the current literal when the current token is `IDENT`, nil otherwise; the precedence is ignored, and neither the window nor the errors change |
| `Parser.Parser.ParseIdentifier` | parser/parser.go:150-152 | an identifier node holding the current token and its literal |
| `Parser.Parser.ParseStatement` | parser/parser.go:81-90 | returns the statement built by `StatementAt` as a non-nil interface value, moves the window to where it ends, and appends its errors |
| `Parser.Parser.ParseProgramAsWritten` | parser/parser.go:58-71 | the loop as written: stops with the current token on EOF, stores what `WrittenRun` stores, and appends its errors |
| `Parser.Parser.ParseProgram` | parser/parser.go:58-71 | the loop with the nil check corrected: stops with the current token on EOF, stores what `Run` stores, and appends its errors |
| `Parser.ParseSourceAsWritten` | parser/parser.go:38-71 | constructing a parser, parsing the program with the loop as written (`ParseProgramAsWritten`) and reading the errors yields `WrittenRun` from the first token, nil `let` pointers included |
| `Parser.ParseSource` | parser/parser.go:38-71 | constructing a parser, parsing the program with the nil check corrected (`ParseProgram`) and reading the errors yields `Run` from the first token |
| `ParserProperties.StatementOutcome` | parser/parser.go:81-136 | a statement parse yields nil exactly when it records an error; it records at most one error, and only for a `let`, naming an expected identifier or `=` and a different actual category; a statement it builds ends with the current token on a semicolon |
| `ParserProperties.StatementDispatch` | parser/parser.go:81-90 | `LET` yields a let statement or nil, `RETURN` a return statement, and every other token an expression statement over that token's expression |
| `ParserProperties.LetFailsOnMismatch` | parser/parser.go:95-103 | a `let` without an identifier, or with no `=` after the name, yields nil with exactly the error of the failed check, and leaves the window where that check left it |
| `ParserProperties.LetBindsIdentifier` | parser/parser.go:99-110 | a successful `let` saw an identifier and `=`, binds the identifier's literal, records nothing, and ends on the first semicolon after `=` |
| `ParserProperties.RunStoresNoNil` | parser/parser.go:62-68 | the corrected program loop stores only statement values that hold a statement |
| `ParserProperties.RunErrorsAreLetMismatches` | parser/parser.go:162-180 | every error of a pass expects an identifier or `=`, and names an actual category different from the expected one |
| `ParserProperties.RunIsWrittenRunWithoutNils` | parser/parser.go:62-68 | the corrected loop records the same errors as the loop as written, and stores the same statements with the nil entries dropped |
| `ParserProperties.WrittenRunNilPerError` | parser/parser.go:62-68 | as written, the program holds exactly one nil statement pointer per recorded error |
| `ParserProperties.MissingAssignStoresNil` | parser/parser.go:64-66 | for `let x 5;` the loop as written stores a nil statement and then the expression statement `5`, while the corrected loop stores only the latter; both record one error `(ASSIGN, INT)` |
| `ParserProperties.LetExample` | parser/parser.go:92-111 | `let x = y;` gives one let statement named `x` and no error |
| `ParserProperties.EmptyStatementsExample` | parser/parser.go:126-136 | `;;;` gives three expression statements without an expression, and no error |
| `ParserProperties.MissingSemicolonDiverges` | parser/parser.go:131-133 | a lone identifier with no semicolon after it never finishes parsing |

## Left out

- The lexer, token and ast packages are not part of this model. The lexer is a finite token sequence followed by EOF forever. Tokens carry no source position. AST nodes carry only the fields this parser touches; a let statement's `value` and a return statement's `returnValue` are always None, because no statement parser parses a value yet.
- main.go is not part of this model. It only looks up the OS user, prints a greeting and starts the REPL on stdin and stdout.
- `fmt.Sprintf` in `peekError` is not modelled. An error is the pair (expected category, actual peek category) that the message names.
- `registerInfix` and `infixParseFns` are left out. Nothing calls `registerInfix`, and the map is never created, so any call would panic.
- Precedence climbing, infix and prefix operators, grouping, `if`, function literals, calls and printing are not in this code, so they are not modelled. The precedence constants exist, but nothing uses them beyond the ignored argument of `parseExpression`.
- The skip-to-semicolon loops have no EOF guard. They never end when no `;` follows, because EOF repeats. The statement parsers therefore require a semicolon at or after the point where they start skipping. `ParseProgram` requires `Halts`, the exact condition for the whole loop to end. `MissingSemicolonDiverges` shows an input where it fails.
- The code records no "no prefix parse function" error for a token that cannot start an expression. It yields an expression statement with a nil expression instead. The model follows the code.
- Consequently `;;;` gives three statements, not the zero statements a finished parser would give. The model follows the code (`EmptyStatementsExample`).
- Go's zero-valued `Token` before `New`'s two advances is modelled as an `Illegal` token with empty text. Both advances overwrite it before `New` returns.

## Findings

| source | as written | input that shows it | evidently intended | confidence | as-written member | corrected member |
|---|---|---|---|---|---|---|
| parser/parser.go:62-68, 83-84, 95-103 | `parseLetStatement` returns a nil `*ast.LetStatement`. `ParseStatement` returns it as an `ast.Statement` interface value, which is not nil, so the `stmt != nil` check passes and a nil pointer is appended to `program.Statements` | `let x 5;` stores a nil statement and then the expression statement `5` (`ParserProperties.MissingAssignStoresNil`) | a failed statement is not stored, so every stored statement is a real node | high (Go interface semantics), not executed | `Parser.Parser.ParseProgramAsWritten` | `Parser.Parser.ParseProgram` |

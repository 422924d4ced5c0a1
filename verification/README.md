# Hydrogen front end in Dafny

A model of the front end of the Hydrogen compiler, a small compiler for a toy language.
It has two parts:

- The tokenizer (`Tokenizer::tokenize`, src/tokenization.hpp) turns source text into
  tokens. It produces keywords, identifiers, integer literals and punctuation. It skips
  white space and `//` and block comments. It stops with an error at any other character.
- The parser (`Parser`, src/parser.hpp) is a recursive-descent parser. It turns the tokens
  into the `node::` tree of a program and has these parts:
  - statements: `exit(e);`, `let x = e;`, `x = e;`, `{ ... }`, and `if (e) { ... }` with a
    chain of `elif`/`else`;
  - expressions: parsed by precedence climbing over `+ - * /`. `*` and `/` bind tighter,
    and equal precedence groups to the left.

Both parts are written as pure functions:

- The tokenizer works on the unread suffix of the source, so its cursor is implicit.
- Each parse function takes the token sequence and a cursor. It returns one of three
  results:
  - `NoMatch`: the source's empty `std::optional`; nothing was consumed.
  - `Match(node, next)`: a node and the advanced cursor.
  - `Fail(error)`: the source's `exit(EXIT_FAILURE)` after a diagnostic. The error is a
    kind, not a text.
- `FrontEnd.Compile` chains the two the way `main` does.

What is proved:

- The tokenizer emits well-formed tokens. It fails only on an unrecognized character that
  occurs in the input.
- Rendering tokens as text (each followed by a space) and tokenizing the text gives the
  tokens back.
- A small printer (module `Grammar`) writes a tree back as tokens. A shape predicate
  describes the trees the parser can build: precedence-climbing shape, and identifier
  tokens where names are bound. For every parse function:
  - its result is shaped (module `ParserShape`);
  - on tokens the tokenizer could produce, its result prints back to exactly the tokens it
    consumed (module `ParserSpelling`);
  - parsing the print of a shaped tree gives that tree back (module `ParserRoundTrip`).
- Together, a program parses successfully exactly when its tokens are the print of a shaped
  program, and that program is the result (`FrontEnd.CompileExactly`).

Modules, in dependency order:

- `Wrappers`
- `Tokens`
- `Lexer`
- `LexerRoundTrip`
- `LexerExamples`
- `Ast`
- `Grammar`
- `Prefix` (the "tokens at `pos` begin with `w`" vocabulary)
- `Parser`
- `ParserSpelling`
- `ParserShape`
- `ParserRoundTrip`
- `ParserExamples`
- `FrontEnd`

## Model

| member | source | states |
|---|---|---|
| Tokens.BinPrec | src/tokenization.hpp:31-44 | `+` and `-` have precedence 0, `*` and `/` precedence 1, and every other kind has none |
| Lexer.AlnumRun | src/tokenization.hpp:69-75 | the word scan consumes the longest alphanumeric prefix: all of it alphanumeric, and the next character (if any) is not |
| Lexer.DigitRun | src/tokenization.hpp:114-120 | the number scan consumes the longest digit prefix and stops before the first non-digit |
| Lexer.LineCommentLen | src/tokenization.hpp:125-133 | a `//` comment discards every character up to, not including, the first newline, or the rest of the input |
| Lexer.BlockCommentLen | src/tokenization.hpp:134-143 | the block-comment scan stops at the first closer (star, slash) or at the end of the input |
| Lexer.KeywordKind | src/tokenization.hpp:76-105 | a word is given a keyword kind exactly when it is one of `exit`, `let`, `if`, `elif`, `else` |
| Lexer.WordToken | src/tokenization.hpp:76-112 | a word becomes an identifier carrying the whole word exactly when it is not a keyword; keyword tokens carry no value |
| Lexer.PunctKind | src/tokenization.hpp:153-216 | exactly the ten characters `( ) ; = + * - / { }` map to a value-less punctuation kind |
| Lexer.Tokenize | src/tokenization.hpp:63-228 | on success every token is well formed (identifiers are non-keyword words, literals are digit runs, nothing else has a value); on failure the offending character occurs in the input and no rule accepts it; an input made only of recognized characters never fails |
| Lexer.TokenizeAfter | src/tokenization.hpp:63-228 | the same guarantees for the rest of the input after the current token |
| LexerRoundTrip.SpaceFirst | src/tokenization.hpp:177-181 | a leading white-space character produces no token |
| LexerRoundTrip.AlnumRunOf | src/tokenization.hpp:72-75 | the alphanumeric run of an alphanumeric word followed by a non-alphanumeric character is that word |
| LexerRoundTrip.DigitRunOf | src/tokenization.hpp:117-120 | the digit run of a digit string followed by a non-digit is that string |
| LexerRoundTrip.WordFirst | src/tokenization.hpp:69-112 | a maximal letter-started word becomes one word token, then the rest is tokenized |
| LexerRoundTrip.DigitFirst | src/tokenization.hpp:114-124 | a maximal digit run becomes one integer literal carrying the digits |
| LexerRoundTrip.PunctFirst | src/tokenization.hpp:153-216 | a punctuation character becomes its token, unless it is a `/` that opens a comment |
| LexerRoundTrip.SpellStep | src/tokenization.hpp:63-228 | the spelling of one well-formed token followed by a space tokenizes to that token, in front of the rest |
| LexerRoundTrip.RenderRoundTrip | src/tokenization.hpp:63-228 | tokenizing the rendering of any well-formed token sequence gives the sequence back |
| LexerRoundTrip.LineCommentStops | src/tokenization.hpp:129-132 | the line-comment scan stops at the first newline |
| LexerRoundTrip.LineCommentSkipped | src/tokenization.hpp:125-133 | a `//` comment and the newline after it contribute no tokens |
| LexerRoundTrip.LineCommentAtEnd | src/tokenization.hpp:125-133 | a `//` comment with no newline after it ends the input, whatever characters it holds |
| LexerRoundTrip.BlockCommentStops | src/tokenization.hpp:138-143 | the block-comment scan stops at the first closer |
| LexerRoundTrip.BlockCommentSkipped | src/tokenization.hpp:134-152 | a closed block comment, its closer included, contributes no tokens |
| LexerRoundTrip.BlockCommentUnclosed | src/tokenization.hpp:134-152 | an unclosed block comment swallows the rest of the input |
| LexerRoundTrip.UnrecognizedFails | src/tokenization.hpp:218-224 | a character outside every rule stops tokenizing with that character |
| LexerExamples.WholeWord | src/tokenization.hpp:69-112 | a whole input that is one letter-started alphanumeric word gives exactly one token: its keyword when it is one of the five keywords, otherwise an identifier carrying the word |
| LexerExamples.KeywordPrefixIsIdent | src/tokenization.hpp:76-112 | `exit1` and `elseif` are identifiers: keywords are matched against the whole run |
| LexerExamples.NumberThenWord | src/tokenization.hpp:69-124 | digits followed by a word give a literal carrying the digits and then the word's own token (keyword or identifier), because a word must start with a letter |
| LexerExamples.SlashIsDivision | src/tokenization.hpp:69-204 | `a/b` with two words gives the token of `a`, `/`, the token of `b` (each a keyword or an identifier): a `/` before a letter opens no comment |
| LexerExamples.CallTokens | src/tokenization.hpp:63-228 | a word, `(`, digits, `)` and `;` written together give the five tokens word, `(`, literal, `)`, `;` |
| LexerExamples.UnclosedCallTokens | src/tokenization.hpp:63-228 | a word, `(` and digits written together give three tokens, the literal ending at the end of the input |
| LexerExamples.ExitStatementTokens | src/tokenization.hpp:63-228 | `exit(` digits `);` gives the five tokens `exit ( literal ) ;` |
| LexerExamples.DollarFails | src/tokenization.hpp:218-224 | `$` is a lexical error |
| LexerExamples.AdjacentWordsMerge | src/tokenization.hpp:69-112 | `let` written directly before `x` gives the single identifier `letx` |
| Ast.OpKind | src/parser.hpp:26-49 | every binary node was built from one of the four operator kinds |
| Ast.MakeBin | src/parser.hpp:190-228 | the node for an operator records that operator and the two operands in order |
| Parser.Peek | src/parser.hpp:424-434 | `peek(offset)` is empty exactly past the end and otherwise is the token at cursor plus offset |
| Parser.PeekIsPeek | src/parser.hpp:424-434 | the lookahead tests of `parse_stmt` are `peek` followed by a kind comparison |
| Parser.TryConsume | src/parser.hpp:451-459 | the one-argument `try_consume` yields the next token exactly when it has the requested kind |
| Parser.Expect | src/parser.hpp:441-450 | the two-argument `try_consume` advances past exactly one token of the requested kind, and is otherwise fatal with that kind |
| Parser.TryConsumeAgrees | src/parser.hpp:441-459 | both `try_consume` overloads accept the same tokens and advance by one |
| Parser.ParseTerm | src/parser.hpp:118-153 | no term is parsed exactly when the next token is not a literal, an identifier or `(`; a parsed term consumes at least one token |
| Parser.ParseExpr | src/parser.hpp:155-163 | no expression is parsed exactly when no term starts at the cursor; otherwise at least one token is consumed |
| Parser.ExprLoop | src/parser.hpp:164-231 | the climbing loop never reports "no match" and never moves the cursor backwards |
| Parser.ParseScope | src/parser.hpp:233-246 | no scope is parsed exactly when the next token is not `{`; a parsed scope consumes at least one token |
| Parser.StmtList | src/parser.hpp:240-243 | the statement loop of a scope always ends, consuming statements, without a "no match" |
| Parser.ParseGuarded | src/parser.hpp:252-272 | `( Expr ) Scope` after `if` or `elif` is mandatory: it matches or fails, never "no match" |
| Parser.ParseIfPred | src/parser.hpp:248-293 | no predicate is parsed exactly when the next token is not `elif` or `else` |
| Parser.ParseStmt | src/parser.hpp:295-402 | no statement is parsed exactly when none of the five starts (`exit (`, `let ident =`, `ident =`, `{`, `if`) is at the cursor |
| Parser.ParseExit | src/parser.hpp:297-317 | after `exit (` the statement either matches or fails |
| Parser.ParseLet | src/parser.hpp:318-337 | after `let ident =` the statement either matches or fails |
| Parser.ParseAssign | src/parser.hpp:339-356 | after `ident =` the statement either matches or fails |
| Parser.ParseIf | src/parser.hpp:372-399 | after `if` the statement either matches or fails |
| ParserShape.ParseTermShape | src/parser.hpp:118-153 | a parsed term is shaped |
| ParserShape.ParseExprShape | src/parser.hpp:155-231 | a tree `parse_expr(min_prec)` returns has every operator at precedence at least `min_prec`, right operands one level tighter, and no operator after a looser left operand; the next token is no operator of precedence at least `min_prec` |
| ParserShape.ExprLoopShape | src/parser.hpp:164-231 | the climbing loop keeps the shape invariant and stops only before a token it may not consume |
| ParserShape.FoldStep | src/parser.hpp:180-228 | folding an operator and its right operand into the left operand keeps the loop invariant |
| ParserShape.ParseScopeShape | src/parser.hpp:233-246 | a parsed scope holds only shaped statements |
| ParserShape.StmtListShape | src/parser.hpp:240-243 | the statement loop of a scope collects only shaped statements |
| ParserShape.ParseGuardedShape | src/parser.hpp:252-272 | a parsed condition and scope are shaped |
| ParserShape.ParseIfPredShape | src/parser.hpp:248-293 | a parsed `elif`/`else` chain is shaped |
| ParserShape.ParseStmtShape | src/parser.hpp:295-402 | a parsed statement is shaped, and `let` and assignment bind identifier tokens |
| ParserShape.ParseProgShape | src/parser.hpp:404-421 | a parsed program is shaped |
| ParserSpelling.ParseTermSpells | src/parser.hpp:118-153 | on well-formed tokens a parsed term prints back to exactly the tokens it consumed |
| ParserSpelling.ParseExprSpells | src/parser.hpp:155-231 | a parsed expression prints back to exactly the tokens it consumed |
| ParserSpelling.ExprLoopSpells | src/parser.hpp:164-231 | the climbing loop extends the consumed span by the printed operator and right operand |
| ParserSpelling.ParseScopeSpells | src/parser.hpp:233-246 | a parsed scope prints back to exactly the tokens it consumed |
| ParserSpelling.StmtListSpells | src/parser.hpp:240-243 | the statements of a scope print back to the tokens the loop consumed |
| ParserSpelling.ParseGuardedSpells | src/parser.hpp:252-272 | a parsed `( Expr ) Scope` prints back to the tokens it consumed |
| ParserSpelling.ParseIfPredSpells | src/parser.hpp:248-293 | a parsed predicate chain prints back to the tokens it consumed |
| ParserSpelling.ParseStmtSpells | src/parser.hpp:295-402 | a parsed statement prints back to exactly the tokens it consumed |
| ParserSpelling.ProgLoopSpells | src/parser.hpp:408-419 | the statements of a program print back to the tokens from the cursor to the end |
| ParserSpelling.ParseProgSpells | src/parser.hpp:404-421 | a parsed program prints back to the whole token sequence |
| ParserRoundTrip.MakeBinOf | src/parser.hpp:190-228 | every binary node is the one built from its own operator and operands |
| ParserRoundTrip.TermRoundTrip | src/parser.hpp:118-153 | parsing the print of a shaped term returns it and consumes exactly its tokens |
| ParserRoundTrip.ExprRoundTrip | src/parser.hpp:155-231 | parsing the print of a tree shaped at `min_prec`, followed by a token the loop stops at, returns the tree |
| ParserRoundTrip.ClimbReaches | src/parser.hpp:155-231 | parsing the print of a shaped tree brings the climbing loop to the end of its tokens with that tree as left operand |
| ParserRoundTrip.ClimbBinary | src/parser.hpp:164-231 | the same for a tree whose top is an operator |
| ParserRoundTrip.ClimbStep | src/parser.hpp:180-228 | one loop iteration consumes the operator and the right operand and folds them into the left operand |
| ParserRoundTrip.StmtRoundTrip | src/parser.hpp:295-402 | parsing the print of a shaped statement returns it when no `elif`/`else` follows |
| ParserRoundTrip.ExitRoundTrip | src/parser.hpp:297-317 | the print of `exit(e);` parses back |
| ParserRoundTrip.LetRoundTrip | src/parser.hpp:318-337 | the print of `let x = e;` parses back |
| ParserRoundTrip.AssignRoundTrip | src/parser.hpp:339-356 | the print of `x = e;` parses back |
| ParserRoundTrip.StmtScopeRoundTrip | src/parser.hpp:358-371 | the print of a nested scope parses back as a scope statement |
| ParserRoundTrip.IfRoundTrip | src/parser.hpp:372-399 | the print of an `if` statement with its chain parses back |
| ParserRoundTrip.GuardedRoundTrip | src/parser.hpp:252-272 | the print of `( Expr ) Scope` parses back |
| ParserRoundTrip.ScopeRoundTrip | src/parser.hpp:233-246 | the print of a shaped scope parses back |
| ParserRoundTrip.StmtsRoundTrip | src/parser.hpp:240-243 | the print of shaped statements, followed by a token that starts no statement, is read back by the scope loop |
| ParserRoundTrip.PredRoundTrip | src/parser.hpp:248-293 | the print of a shaped `elif`/`else` chain parses back when no further `elif`/`else` follows |
| ParserRoundTrip.ElifRoundTrip | src/parser.hpp:250-276 | the print of an `elif` link parses back together with the rest of the chain |
| ParserRoundTrip.OptPredRoundTrip | src/parser.hpp:273-293 | an absent chain prints nothing and parses as "no match" |
| ParserRoundTrip.ProgLoopRoundTrip | src/parser.hpp:408-419 | the print of shaped statements running to the end of the tokens is read back by the program loop |
| ParserRoundTrip.ProgRoundTrip | src/parser.hpp:404-421 | parsing the print of any shaped program returns that program |
| ParserExamples.ParsesWhole | src/parser.hpp:155-231 | the print of a shaped expression parses back from position 0 to the end |
| ParserExamples.EqualPrecedenceGroupsLeft | src/parser.hpp:164-231 | `a op b op' c` with equal precedences groups as `(a op b) op' c` |
| ParserExamples.TighterRightBindsFirst | src/parser.hpp:164-231 | `a + b * c` groups as `a + (b * c)` |
| ParserExamples.TighterLeftBindsFirst | src/parser.hpp:164-231 | `a * b + c` groups as `(a * b) + c` |
| ParserExamples.RightOperandIsTighter | src/parser.hpp:180-182 | in every tree `parse_expr` returns, the root's right operand has at its top an operator strictly tighter than the root's |
| ParserExamples.UnclosedParen | src/parser.hpp:136-144 | `(` and a well-formed expression, followed by the end of the input or by any token that is neither `)` nor an operator, is fatal with a missing `)` |
| ParserExamples.DanglingAfter | src/parser.hpp:155-188 | any well-formed expression followed by an operator the parse may consume, with no term start after that operator, is fatal (ExpectedExpression), whether the loop that began the parse or a nested one consumes the operator |
| ParserExamples.DanglingOperator | src/parser.hpp:155-188 | an expression `e op rest`, with `e` well formed, `op` any operator and no term starting `rest`, is fatal: ExpectedExpression |
| ParserExamples.ExitWithoutClose | src/parser.hpp:297-311 | the tokens `exit ( literal` are a fatal missing `)` |
| ParserExamples.InvalidStatementRejected | src/parser.hpp:408-418 | a program whose first token starts no statement is rejected as an invalid statement |
| ParserExamples.EmptyProgram | src/parser.hpp:404-421 | no tokens is the empty program |
| FrontEnd.Compile | src/main.cpp:34-44 | tokenize, stop on a lexical error, then `parse_prog`; it has no contract of its own, and what it returns is stated by CompileSound, CompileLexicalError and CompileExactly |
| FrontEnd.CompileSound | src/main.cpp:34-44 | a compiled program is shaped and prints back to exactly the tokens of its source |
| FrontEnd.CompileRoundTrip | src/main.cpp:34-44 | every shaped program with well-formed tokens compiles back from its rendered text |
| FrontEnd.CompileLexicalError | src/main.cpp:34-36 | a lexical error is reported exactly when tokenizing fails, and it is the tokenizer's error |
| FrontEnd.CompileExactly | src/main.cpp:34-44 | tokenizable text compiles exactly when its tokens are the print of some shaped program |
| FrontEnd.ExitLiteralCompiles | src/main.cpp:34-44 | `exit(` digits `);` compiles to the one statement `exit` of that literal |
| FrontEnd.UnclosedExitFails | src/parser.hpp:297-311 | `exit(` digits with nothing after them is a syntax error: missing `)` |
| FrontEnd.CommentHidesUnrecognized | src/tokenization.hpp:125-133 | `//$` compiles to the empty program: characters inside comments are never checked |
| FrontEnd.UnrecognizedStops | src/tokenization.hpp:218-224 | `$` outside a comment stops compilation with a lexical error |

## Left out

- The command line, file reading, the echo of the source, code generation and the
  assembler and linker calls of src/main.cpp are not part of this model. `FrontEnd.Compile`
  stops at the parsed program.
- The arena allocator and the node pointers. Trees are values; allocation cannot fail in
  the model.
- compiler/hydrogen is an older prototype of the same tokenizer and is not part of this
  model.
- The diagnostic texts written to `std::cerr`. Every fatal exit is a `Fail` or `Failure`
  carrying the kind of error, such as the token kind that was missing.
- `<cctype>` is fixed to ASCII in the C locale. Non-ASCII characters are unrecognized. The
  source passes a possibly negative `char` to `isalpha`, which is undefined behaviour.
- The tokenizer's `peek`/`consume` and cursor: the model reads the unread suffix of the
  text, so the cursor is implicit. Resetting `m_index` to 0 at the end of `tokenize` has
  no effect on the result and is not modelled. The source's cursor is a signed `int`
  (src/tokenization.hpp:245), which would overflow on an input longer than `INT_MAX`
  characters; the model reads inputs of any length.
- The parser's `consume`: it is the cursor advance `pos + 1` wherever the source calls it.
- Integer literal values. Literals stay the digit strings the tokenizer produced. Neither
  the tokenizer nor the parser converts them, so there is no overflow to model.
- FrontEnd.Compile: it carries no contract of its own. Its properties are stated by
  FrontEnd.CompileSound, FrontEnd.CompileLexicalError and FrontEnd.CompileExactly.
- Parser.ParseProg and Parser.ProgLoop: they carry no contract of their own. Their
  properties are stated by ParserShape.ParseProgShape, ParserShape.ProgLoopShape,
  ParserSpelling.ParseProgSpells, ParserSpelling.ProgLoopSpells,
  ParserRoundTrip.ProgRoundTrip and ParserRoundTrip.ProgLoopRoundTrip.
- Parser.ParseTerm, Parser.ParseExpr, Parser.ParseScope, Parser.ParseIfPred and
  Parser.ParseStmt: their own contracts state only when they match and that they advance
  the cursor. Which node they return is stated by the ParserShape, ParserSpelling and
  ParserRoundTrip lemmas of the same name.
- Parser.ExprLoop, Parser.StmtList, Parser.ParseGuarded, Parser.ParseExit, Parser.ParseLet,
  Parser.ParseAssign and Parser.ParseIf: their own contracts state only that they never
  report "no match" and that the cursor does not move back. The node they build is stated
  by the same lemmas.
- Parser.ParseExpr: `min_prec` is an `int` in the source. The model uses `nat`, because
  every call passes 0 or a precedence plus one.
- LexerRoundTrip.RenderRoundTrip: stated for text with a space after every token. Tokens
  written with no separator can merge (`LexerExamples.AdjacentWordsMerge`). A `/` written
  directly before another `/` or `*` opens a comment.

## Notes on the tokenizer

- Characters inside a comment are never classified, so `//$` is accepted
  (`FrontEnd.CommentHidesUnrecognized`), while `$` anywhere the scan reaches is a lexical
  error (`FrontEnd.UnrecognizedStops`).

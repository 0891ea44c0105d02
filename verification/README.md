# MyLisp interpreter core in Dafny

A model of the core of MyLisp. MyLisp is a small Lisp dialect whose C++ interpreter reads a program
text into tokens, parses the tokens into a syntax tree, and evaluates the tree in a chain of
environments. The model covers each stage in the form the C++ code has:

- **Lexer** (`lexer.dfy`, `lexer_properties.dfy`) models `MyLisp/Lexer.cpp`:
  - a `Lexer` class holds the input and the cursor (`index`, `line`, `column`);
  - its methods (`GetNextToken`, `HandleNumber`, `TokenizeString`, ...) update the cursor in place;
  - each method is proved to compute a reference function (`NextToken`, `ScanNumber`, `ScanString`, ...).

  The lexer's properties are lemmas about those functions. `tokenizeString` loops forever on a newline
  inside a string literal, and the model keeps that behaviour: `Scan.Diverged` for one token, and
  `Tokenization.Hangs` for the whole input.
- **Legacy lexer** (`legacy_lexer.dfy`, `legacy_lexer_properties.dfy`) models the older single-pass
  tokenizer of `MyLisp/lexer.cpp`, one method per branch of its loop. The model keeps the code's
  behaviour: the newline that ends a `;` comment is skipped by the loop's `++i` without being counted,
  so the following tokens are reported one line too early (`CommentNewlineNotCounted`).
- **Syntax tree** (`ast.dfy`) models `include/Shattang/MyLisp/ASTNode.h`: one datatype with a
  constructor per node class, and `GetType` mapping each class to its `NodeType` tag.
- **Parser** (`parser.dfy`, `parser_properties.dfy`) models `MyLisp/Parser.cpp`:
  - a `Parser` class holds the token stream, the current position and the `isParsingDefine` flag;
  - there is one method per `parse*` routine;
  - each method is proved to agree with a reference function on token positions (`ExpressionAt`, `IfAt`, ...);
  - thrown `runtime_error`s become a `ParseError` result.

  Proved properties include:
  - the paren balancing of `parseExpression`;
  - the dispatch on keywords;
  - the shapes of `let`, `set` and parameter lists;
  - the rejection of nested `define`;
  - `std::stol` on integer literals.

  The example program of `MyLispRunner/main.cpp` declares a function inside another one, so by
  `NestedDefineRejected` it is one the parser refuses.
- **Type system** (`type_system.dfy`) models `MyLisp/TypeSystem.cpp`: the eight-way `Value` variant,
  `IsType`, `ConvertTo` (with its two widenings) and the type names.
- **Functions** (`functions.dfy`) models `MyLisp/Function.cpp` and the binding part of
  `MyLisp/UserDefinedFunction.cpp`: argument validation, both as written and as intended (see
  Findings), and the binding of parameters.
- **Environments**:
  - `environment.dfy`, module `Scopes`, models `include/Shattang/MyLisp/Environment.h`. An
    `Environment` class has a parent link and updates its own maps in place. Its abstract state is
    the chain of scopes (`Frames()`, root first), and the lookups search that chain innermost first.
  - `local_environment.dfy` models `MyLisp/Environment.cpp`: two maps, no parent, and getters that
    throw when the name is missing.
- **Evaluator** (`evaluator.dfy`, `interpreter.dfy`, `evaluator_properties.dfy`) models
  `MyLisp/ASTEvaluator.cpp` together with `Function::execute` and `UserDefinedFunction::doExecute`,
  which call each other:
  - `Evaluator` defines the meaning of a node as a function of the scope chain, with one unit of
    fuel per node;
  - `Interpreter` has the methods that walk the tree over real `Environment` objects, and each is
    proved equal to that meaning;
  - `EvaluatorProperties` states what the switch promises: literals, innermost-binding lookup,
    declaration versus assignment, one branch of `if`, and for and while loops that end or do not;
  - it also proves that a callee runs on the caller's chain (dynamic scoping).

Shared pieces: `wrappers.dfy` (Option, Result) and `chars.dfy` (the `<cctype>` classes used).

## Model

| member | source | states |
|---|---|---|
| TypeSystem.IsType | MyLisp/TypeSystem.cpp:6-29 | true exactly when the value holds the alternative the tag names |
| TypeSystem.Widen | MyLisp/TypeSystem.cpp:42-49 | each long becomes the double of the same value, in order, with the length kept |
| TypeSystem.ConvertTo | MyLisp/TypeSystem.cpp:31-60 | a success holds the target type; a failure carries the value's kind name and the target's name, as TypeConversionException does |
| TypeSystem.ExactlyOneTag | MyLisp/TypeSystem.cpp:6-29 | every value satisfies IsType for one tag and no other |
| TypeSystem.TypeNamesDistinct | MyLisp/TypeSystem.cpp:62-85 | two tags have the same name exactly when they are the same tag |
| TypeSystem.NamesAgree | MyLisp/TypeSystem.cpp:87-125 | the kind name of a value equals a tag's name exactly when the value has that type |
| TypeSystem.ConvertSucceedsExactly | MyLisp/TypeSystem.cpp:31-60 | conversion succeeds exactly for long to DOUBLE, long vector to DOUBLE_VECTOR, or a value already of the target type |
| TypeSystem.ConvertWidens | MyLisp/TypeSystem.cpp:35-49 | a long converts to the double of the same value, and a long vector to the element-wise widened vector |
| TypeSystem.ConvertIdentity | MyLisp/TypeSystem.cpp:51-56 | for any other target, a value of that type converts to itself |
| Ast.TagIdentifiesClass | include/Shattang/MyLisp/ASTNode.h:9-24 | two nodes have the same getType tag exactly when they are of the same node class |
| Ast.EveryTagUsed | include/Shattang/MyLisp/ASTNode.h:9-24 | each of the thirteen NodeType tags is the tag of some node |
| Functions.FixedCount | MyLisp/Function.cpp:36 | the fixed parameters are all of them, or all but a variadic last one |
| Functions.ValidateAsWritten | MyLisp/Function.cpp:26-68 | the check as written is undefined exactly for no parameters and no arguments |
| Functions.ZeroParameterCallUndefined | MyLisp/Function.cpp:28-36 | a function without parameters is never accepted as written: no arguments reaches `params_.back()` of an empty vector |
| Functions.Validate | MyLisp/Function.cpp:26-68 | the two checking loops compute ValidateArguments |
| Functions.ValidateAgreesWhereDefined | MyLisp/Function.cpp:26-68 | wherever the written check is defined, the corrected one accepts the same lists and rejects with the same message |
| Functions.ValidateIffMatches | MyLisp/Function.cpp:36-68 | arguments are accepted exactly when they match the signature: each fixed argument has its parameter's type, and the rest exist only after a variadic last parameter and all have its type |
| Functions.OnlyLastFlagMatters | MyLisp/Function.cpp:36-62 | validation depends on the parameter types and on the variadic flag of the last parameter only |
| Functions.PackVariadic | MyLisp/UserDefinedFunction.cpp:24-28 | the variadic arguments pack into the vector of the declared scalar type, element for element, and vector-typed variadics have no packed value |
| Functions.BindFixedBindsEach | MyLisp/UserDefinedFunction.cpp:18-21 | with distinct names, the first n parameters are bound to the first n arguments and nothing else is bound |
| Functions.BindArguments | MyLisp/UserDefinedFunction.cpp:16-28 | binding fails exactly for a variadic last parameter of vector type |
| Functions.BindArgumentsBindsEach | MyLisp/UserDefinedFunction.cpp:16-28 | with distinct names, each fixed parameter is bound to its argument, and the variadic one to the pack of the rest |
| Scopes.FindVariable | include/Shattang/MyLisp/Environment.h:28-29 | the scope found binds the name and no inner scope does; none is found only when no scope binds it |
| Scopes.FindFunction | include/Shattang/MyLisp/Environment.h:34-35 | the same for functions, which live in a separate map |
| Scopes.BindVariableAt | include/Shattang/MyLisp/Environment.h:31-32 | only the one scope's variable map changes, at that name |
| Scopes.BindFunction | include/Shattang/MyLisp/Environment.h:37-38 | only the innermost scope's function map changes, at that name |
| Scopes.SetThenLookupVariable | include/Shattang/MyLisp/Environment.h:28-32 | after setVariable the name reads the new value and every other name reads as before |
| Scopes.SetElsewhereKeepsLookup | include/Shattang/MyLisp/Environment.h:28-32 | writing one name in any scope leaves the lookup of every other name unchanged |
| Scopes.AssignThenLookup | include/Shattang/MyLisp/Environment.h:28-29 | overwriting the binding where it was found keeps that scope the innermost binder and makes the new value the one read |
| Scopes.InnermostIsUnique | include/Shattang/MyLisp/Environment.h:28-29 | a scope that binds the name with no inner scope binding it is the one found |
| Scopes.Environment.Frames | include/Shattang/MyLisp/Environment.h:47-49 | one scope per environment on the parent chain, this one's own last |
| Scopes.Environment.constructor | include/Shattang/MyLisp/Environment.h:23 | a new environment has empty maps and extends its parent's chain by one empty scope |
| Scopes.Environment.GetVariable | include/Shattang/MyLisp/Environment.h:28-29 | returns the environment holding the innermost binding, or null exactly when no scope binds the name |
| Scopes.Environment.GetInParent | include/Shattang/MyLisp/Environment.h:28-29 | the search continued in the parent finds the same binding as the whole chain |
| Scopes.Environment.GetFunction | include/Shattang/MyLisp/Environment.h:34-35 | returns the innermost function of that name, searching parents |
| Scopes.Environment.WriteVariable | MyLisp/ASTEvaluator.cpp:56-60 | the write through getVariable's pointer changes the found binding only, and nothing when the name is unbound |
| Scopes.Environment.OverwriteOwn | MyLisp/ASTEvaluator.cpp:56-60 | the write lands in this environment's own scope |
| Scopes.Environment.WriteInParent | MyLisp/ASTEvaluator.cpp:56-60 | the write lands where the search in the parent chain finds the name |
| Scopes.Environment.SetVariable | include/Shattang/MyLisp/Environment.h:31-32 | binds in this environment only; the chain changes as BindVariable says |
| Scopes.Environment.SetFunction | include/Shattang/MyLisp/Environment.h:37-38 | binds the function in this environment only |
| LocalEnvironment.Environment.constructor | include/Shattang/MyLisp/Environment.h:47-48 | both maps start empty |
| LocalEnvironment.Environment.Variable | MyLisp/Environment.cpp:33-44 | the bound value exactly when the name is bound, otherwise the error "Variable not found" for that name |
| LocalEnvironment.Environment.FunctionNamed | MyLisp/Environment.cpp:14-25 | the stored function exactly when the name is bound, otherwise "Function not found" for that name |
| LocalEnvironment.Environment.AddFunction | MyLisp/Environment.cpp:9-12 | stores or replaces the function under its name; every other name answers as before |
| LocalEnvironment.Environment.GetFunction | MyLisp/Environment.cpp:14-25 | returns what FunctionNamed answers and changes nothing |
| LocalEnvironment.Environment.SetVariable | MyLisp/Environment.cpp:28-31 | overwrites or creates the binding of the name; every other name answers as before |
| LocalEnvironment.Environment.GetVariable | MyLisp/Environment.cpp:33-44 | returns what Variable answers and changes nothing |
| Lexer.Whitespace | MyLisp/Lexer.cpp:111-123 | one character is consumed; a newline moves to column 1 of the next line, anything else one column right |
| Lexer.CommentBody | MyLisp/Lexer.cpp:101-104 | stops at the first newline or at the end, with the columns counted on the same line |
| Lexer.SkipComment | MyLisp/Lexer.cpp:99-109 | ends at the end of the input or just after a newline |
| Lexer.SkipTrivia | MyLisp/Lexer.cpp:62-76 | stops at the end or at a character that is neither white space nor ';' |
| Lexer.SkipExponentMarker | MyLisp/Lexer.cpp:164-172 | moves past the marker and at most one sign, on the same line |
| Lexer.NumberLoop | MyLisp/Lexer.cpp:156-186 | ends on the same line ahead of where it started, or fails inside the input |
| Lexer.IdentEnd | MyLisp/Lexer.cpp:201-204 | the end of the longest run of identifier characters |
| Lexer.StringLoop | MyLisp/Lexer.cpp:239-250 | stops at the closing quote, at the end (unterminated), or stuck at a newline, with no quote or newline before |
| Lexer.Dispatch | MyLisp/Lexer.cpp:78-93 | a non-terminal token always moves the cursor forward, within the input |
| Lexer.NextToken | MyLisp/Lexer.cpp:60-97 | a non-terminal token always moves the cursor forward, within the input |
| Lexer.TokensFrom | MyLisp/Lexer.cpp:264-277 | a finished tokenization ends with its one and only END_OF_FILE or ERROR token; a hanging one has none before the hang |
| Lexer.Lexer.constructor | include/Shattang/MyLisp/Lexer.h:38-39 | starts at index 0, line 1, column 1 |
| Lexer.Lexer.Advance | MyLisp/Lexer.cpp:54-58 | one character right on the same line |
| Lexer.Lexer.HandleWhitespace | MyLisp/Lexer.cpp:111-123 | moves the cursor as Whitespace says |
| Lexer.Lexer.HandleComment | MyLisp/Lexer.cpp:99-109 | moves the cursor as SkipComment says |
| Lexer.Lexer.MakeToken | MyLisp/Lexer.cpp:125-130 | the one-character token at the cursor, then one step right |
| Lexer.Lexer.MakeErrorToken | MyLisp/Lexer.cpp:132-138 | an ERROR token with the message, then one step right |
| Lexer.Lexer.MakeEOFToken | MyLisp/Lexer.cpp:140-143 | an empty END_OF_FILE token at the cursor, which stays put |
| Lexer.Lexer.TokenizeFloat | MyLisp/Lexer.cpp:222-226 | a FLOAT token over the text from the start to the cursor, at the current position |
| Lexer.Lexer.TokenizeInteger | MyLisp/Lexer.cpp:228-232 | an INTEGER token over the text from the start to the cursor, at the current position |
| Lexer.Lexer.HandleNumber | MyLisp/Lexer.cpp:145-196 | the token and cursor ScanNumber gives |
| Lexer.Lexer.HandleAlpha | MyLisp/Lexer.cpp:198-220 | the token and cursor ScanAlpha gives |
| Lexer.Lexer.TokenizeString | MyLisp/Lexer.cpp:234-262 | the token and cursor ScanString gives, or divergence where the loop never ends |
| Lexer.Lexer.GetNextToken | MyLisp/Lexer.cpp:60-97 | the token and cursor NextToken gives |
| Lexer.Tokenize | MyLisp/Lexer.cpp:264-277 | the tokens TokensFrom gives from the start |
| LexerProperties.WhitespaceIsSkipped | MyLisp/Lexer.cpp:66-70 | a white-space character yields no token: scanning goes on after it |
| LexerProperties.CommentIsSkipped | MyLisp/Lexer.cpp:72-76 | a comment yields no token, and the newline ending it is counted |
| LexerProperties.SingleCharacterTokens | MyLisp/Lexer.cpp:78-93 | '(' and ')' give OPEN_PAREN and CLOSE_PAREN, and a character that starts no token gives "Unknown character"; each is that one character at the position before it, and one character is consumed |
| LexerProperties.NumberLoopDots | MyLisp/Lexer.cpp:159-163 | the number loop takes at most one '.', and its flag records whether it took one |
| LexerProperties.NumberLoopExponents | MyLisp/Lexer.cpp:164-177 | the number loop takes at most one exponent marker, and its flag records it |
| LexerProperties.NumberLoopStops | MyLisp/Lexer.cpp:178-181 | the loop stops only at the end or at a character it cannot take |
| LexerProperties.NumberLoopBadExponent | MyLisp/Lexer.cpp:173-176 | the loop fails only at an exponent marker (and sign) that no digit follows |
| LexerProperties.NumberTokenKind | MyLisp/Lexer.cpp:188-195 | a number token is FLOAT exactly when its text holds a '.' or an exponent marker, and INTEGER otherwise |
| LexerProperties.BadExponentIsError | MyLisp/Lexer.cpp:173-176 | an exponent without digits gives the "Invalid scientific notation" ERROR token |
| LexerProperties.LoneSignIsInteger | MyLisp/Lexer.cpp:151-154 | a lone '+' or '-' at the end of the input is an INTEGER token |
| LexerProperties.IdentifierToken | MyLisp/Lexer.cpp:198-220 | an identifier is the longest run of identifier characters; exactly "true" and "false" are booleans |
| LexerProperties.StringToken | MyLisp/Lexer.cpp:234-262 | a string token runs from quote to quote; an unterminated one is an ERROR; a newline before the closing quote diverges |
| LexerProperties.StringNewlineNeverLeaves | MyLisp/Lexer.cpp:241-245 | at a newline, the loop of tokenizeString never moves the index however often it runs |
| LexerProperties.StringLoopIsTheLoop | MyLisp/Lexer.cpp:239-250 | StringLoop's stopping cursor is what running the loop body reaches |
| LexerProperties.EndOfFileRepeats | MyLisp/Lexer.cpp:96 | at the end, END_OF_FILE comes back forever without moving |
| LegacyLexer.NewlineFrom | MyLisp/lexer.cpp:84-85 | the first newline at or after the index, or the end |
| LegacyLexer.NumberRun | MyLisp/lexer.cpp:158-180 | a run of digits with at most one '.', stopping at the first character it cannot take |
| LegacyLexer.QuoteFrom | MyLisp/lexer.cpp:213-216 | the first '"' at or after the index, or the end |
| LegacyLexer.SymbolRun | MyLisp/lexer.cpp:230-233 | the end of the run of alnum, '-' and '_' characters |
| LegacyLexer.TokenAt | MyLisp/lexer.cpp:89-241 | the token made at an index carries the pass's line and column, and its last character lies inside the input |
| LegacyLexer.PassAt | MyLisp/lexer.cpp:65-243 | each pass of the loop moves forward |
| LegacyLexer.ReadNumber | MyLisp/lexer.cpp:154-182 | the number text is the sign or digit plus NumberRun, and the loop index ends on its last character |
| LegacyLexer.ReadString | MyLisp/lexer.cpp:210-227 | the string branch makes the token TokenAt gives |
| LegacyLexer.ReadSymbol | MyLisp/lexer.cpp:228-235 | the symbol text is the letter plus SymbolRun |
| LegacyLexer.ReadToken | MyLisp/lexer.cpp:89-241 | the token-making branches make the token TokenAt gives |
| LegacyLexer.Tokenize | MyLisp/lexer.cpp:61-246 | the loop emits exactly the tokens Scan gives from index 0, line 1, column 1 |
| LegacyLexerProperties.WhitespaceYieldsNothing | MyLisp/lexer.cpp:68-80 | white space yields nothing; a newline starts column 1 of the next line |
| LegacyLexerProperties.CommentYieldsNothing | MyLisp/lexer.cpp:82-87 | a comment yields nothing, and scanning resumes after its newline with line and column as they were before the ';' |
| LegacyLexerProperties.CommentNewlineNotCounted | MyLisp/lexer.cpp:82-87 | after a comment line, the next token is reported on line 1 |
| LegacyLexerProperties.TokenPass | MyLisp/lexer.cpp:65-243 | a pass emits a token exactly when its character is neither blank nor ';'; such a token carries the pass's position and the pass moves exactly one column, whatever the token's length |
| LegacyLexerProperties.ColumnCountsTokens | MyLisp/lexer.cpp:242 | without blanks or comments, the k-th token is reported at the start column plus k, whatever its length |
| LegacyLexerProperties.SingleCharacterTokens | MyLisp/lexer.cpp:90-101 | '(', ')', '\'', '*', '/' and '%' each give their one-character token |
| LegacyLexerProperties.ComparisonTokens | MyLisp/lexer.cpp:102-151 | '<' and '>' take a following '='; '=' and '!' need one, or give an ERROR token |
| LegacyLexerProperties.NumberRunDots | MyLisp/lexer.cpp:157-175 | a number takes at most one '.' |
| LegacyLexerProperties.NumberTokens | MyLisp/lexer.cpp:152-193 | a sign or digit before a digit starts a NUMBER; otherwise '+' is PLUS, '-' is MINUS, and a digit is a one-digit NUMBER |
| LegacyLexerProperties.StringTokens | MyLisp/lexer.cpp:211-227 | a string token runs from quote to quote inclusive; an unterminated one is an ERROR |
| LegacyLexerProperties.SymbolAndInvalidTokens | MyLisp/lexer.cpp:228-240 | a letter starts a SYMBOL run; any other character is an "Invalid character" ERROR |
| Parser.Stol | MyLisp/Parser.cpp:438 | std::stol either throws or yields a value inside the long range |
| Parser.ConsumeAt | MyLisp/Parser.cpp:557-571 | consume succeeds exactly when the current token has the expected kind, and moves one token |
| Parser.CountOpens | MyLisp/Parser.cpp:294-298 | the run of opening parentheses ends inside the stream |
| Parser.CloseRun | MyLisp/Parser.cpp:343-347 | at most as many closing parentheses as were opened are consumed |
| Parser.ExpressionAt | MyLisp/Parser.cpp:289-356 | a successful parse consumes at least one token and stops inside the stream |
| Parser.FormAt | MyLisp/Parser.cpp:302-340 | the same for the dispatched form |
| Parser.IfAt | MyLisp/Parser.cpp:358-367 | the same for `if` |
| Parser.BoundsAt | MyLisp/Parser.cpp:380-382 | the three bounds consume tokens and stop inside the stream |
| Parser.ForAt | MyLisp/Parser.cpp:369-391 | a successful `for` consumes tokens and stops inside the stream |
| Parser.WhileAt | MyLisp/Parser.cpp:393-406 | the same for `while` |
| Parser.SetAt | MyLisp/Parser.cpp:408-422 | the same for `set` |
| Parser.TypedNameAt | MyLisp/Parser.cpp:458-472 | a `( name type )` group is four tokens and yields the name and type texts |
| Parser.LetAt | MyLisp/Parser.cpp:454-477 | a successful `let` consumes tokens and stops inside the stream |
| Parser.ParamsAt | MyLisp/Parser.cpp:498-517 | the parameter list stops at its closing parenthesis |
| Parser.SignatureAt | MyLisp/Parser.cpp:489-525 | name, parameters and return type consume tokens and stop inside the stream |
| Parser.DefineAt | MyLisp/Parser.cpp:480-535 | a successful `define` consumes tokens and stops inside the stream |
| Parser.CallAt | MyLisp/Parser.cpp:538-554 | the same for a call |
| Parser.AtomAt | MyLisp/Parser.cpp:425-451 | an atom is one token and holds no declaration |
| Parser.UntilClose | MyLisp/Parser.cpp:547-551 | the loop stops at a closing parenthesis |
| Parser.ScriptAt | MyLisp/Parser.cpp:278-286 | the loop stops at END_OF_FILE |
| Parser.Parser.constructor | MyLisp/Parser.cpp:275 | the parser starts at the first token with the define flag cleared |
| Parser.Parser.Consume | MyLisp/Parser.cpp:557-571 | the cursor moves as ConsumeAt says, and stays put on an error |
| Parser.Parser.Parse | MyLisp/Parser.cpp:278-286 | the statements and cursor ScriptAt gives, or its error |
| Parser.Parser.ConsumeOpens | MyLisp/Parser.cpp:294-298 | consumes CountOpens opening parentheses |
| Parser.Parser.ConsumeCloses | MyLisp/Parser.cpp:343-347 | consumes CloseRun closing parentheses and returns how many are still open |
| Parser.Parser.ParseExpression | MyLisp/Parser.cpp:289-356 | the node, cursor and flag ExpressionAt gives, or its error |
| Parser.Parser.ParseForm | MyLisp/Parser.cpp:302-340 | the node, cursor and flag FormAt gives, or its error |
| Parser.Parser.ParseIf | MyLisp/Parser.cpp:358-367 | what IfAt gives |
| Parser.Parser.ParseBounds | MyLisp/Parser.cpp:380-382 | what BoundsAt gives |
| Parser.Parser.ParseForIteration | MyLisp/Parser.cpp:369-391 | what ForAt gives |
| Parser.Parser.ParseWhileIteration | MyLisp/Parser.cpp:393-406 | what WhileAt gives |
| Parser.Parser.ParseSet | MyLisp/Parser.cpp:408-422 | what SetAt gives |
| Parser.Parser.ParseAtom | MyLisp/Parser.cpp:425-451 | what AtomAt gives |
| Parser.Parser.ParseTypedName | MyLisp/Parser.cpp:458-472 | what TypedNameAt gives |
| Parser.Parser.ParseLet | MyLisp/Parser.cpp:454-477 | what LetAt gives |
| Parser.Parser.ParseParameters | MyLisp/Parser.cpp:498-517 | what ParamsAt gives |
| Parser.Parser.ParseSignature | MyLisp/Parser.cpp:489-525 | what SignatureAt gives |
| Parser.Parser.ParseDefine | MyLisp/Parser.cpp:480-535 | what DefineAt gives, with the flag cleared again on success |
| Parser.Parser.ParseFunctionCall | MyLisp/Parser.cpp:538-554 | what CallAt gives |
| Parser.Parser.ParseUntilClose | MyLisp/Parser.cpp:547-551 | what UntilClose gives |
| Parser.ParseSource | MyLispRunner/main.cpp:62-65 | a Lexer and a Parser over the text give what ReadSource gives |
| ParserProperties.CountOpensIsTheRun | MyLisp/Parser.cpp:294-298 | the opening parentheses unwrapped are exactly the run of them at the position |
| ParserProperties.CloseRunIsTheRun | MyLisp/Parser.cpp:343-347 | the closing parentheses consumed are a run that stops early only at a token that is not one |
| ParserProperties.ExpressionBalancesParentheses | MyLisp/Parser.cpp:289-356 | an expression parses exactly when its form parses and every opened parenthesis is closed right after it, with the form's value |
| ParserProperties.TooFewClosesAreMismatched | MyLisp/Parser.cpp:350-353 | a parsed form with too few closing parentheses fails with "Mismatched parentheses" at the first token that is not one |
| ParserProperties.ExtraParenthesesChangeNothing | MyLisp/Parser.cpp:291-353 | one extra pair of parentheses around a wrapped expression gives the same node |
| ParserProperties.KeywordsIgnoreWrapping | MyLisp/Parser.cpp:304-327 | a keyword form parses the same with or without opening parentheses before it |
| ParserProperties.BareSymbolIsVariable | MyLisp/Parser.cpp:332-335 | an unwrapped non-keyword symbol is a variable reference |
| ParserProperties.WrappedSymbolIsCall | MyLisp/Parser.cpp:328-331 | a wrapped non-keyword symbol is a call whose arguments run to the closing parenthesis |
| ParserProperties.BodiesStopAtCloseParen | MyLisp/Parser.cpp:384-388 | a parsed `for`, `while`, `define` or call body is followed by a closing parenthesis |
| ParserProperties.AtomKinds | MyLisp/Parser.cpp:425-451 | each literal kind gives its node, INTEGER through stol and FLOAT through stod; any other kind is "Unexpected token" |
| ParserProperties.TypedNameShape | MyLisp/Parser.cpp:458-472 | the group parses exactly when its four tokens are right, and each error names the first wrong token |
| ParserProperties.LetShape | MyLisp/Parser.cpp:454-477 | `let` parses exactly when its group and value parse, giving the declaration of that name, type and value |
| ParserProperties.SetShape | MyLisp/Parser.cpp:408-422 | `set` needs a name, then gives the assignment of the parsed value |
| ParserProperties.ParamsAreGroups | MyLisp/Parser.cpp:498-517 | the parameter list is four tokens per parameter, each read from its own group |
| ParserProperties.NestedDefineRejected | MyLisp/Parser.cpp:482-483 | `define` inside a define fails with "Nested function definition not supported" |
| ParserProperties.ExpressionAdmissible | MyLisp/Parser.cpp:480-535 | a parsed expression has no define inside a define body, and none at all while the flag is set |
| ParserProperties.ScriptAdmissible | MyLisp/Parser.cpp:278-286 | every statement of a parsed script is admissible |
| ParserProperties.AcceptedProgramsHaveNoNestedDefine | MyLisp/Parser.cpp:480-535 | an accepted program never holds a function declaration inside another |
| ParserProperties.StolReadsDecimalText | MyLisp/Parser.cpp:438 | stol reads back every long from its decimal text |
| ParserProperties.StolNeedsDigits | MyLisp/Parser.cpp:438 | text without digits ("", a lone sign, blanks) makes stol throw |
| ParserProperties.StolRejectsAboveLong | MyLisp/Parser.cpp:438 | stol throws (out of range) on the decimal text of every number above the long range |
| ParserProperties.IntegerOutOfRangeIsInvalid | MyLisp/Parser.cpp:437-438 | an integer literal one past the long range is an invalid-number error |
| ParserProperties.ErrorEndedStreamNeverParses | MyLisp/Parser.cpp:447-448 | a stream ending in an ERROR token never parses |
| ParserProperties.LexicalErrorRejectsProgram | MyLisp/Parser.cpp:447-448 | a text whose tokenization ends in ERROR is rejected |
| ParserProperties.CallOnVariable | MyLisp/Parser.cpp:538-554 | `( f a )` is the call of f on the variable a |
| ParserProperties.CallExample | MyLisp/Parser.cpp:278-286 | the program `(f a)` is the script holding that one call |
| ParserProperties.WrappedCallExample | MyLisp/Parser.cpp:291-298 | `((f a))` is the same script |
| Evaluator.ResolveParams | MyLisp/ASTEvaluator.cpp:70-74 | one function parameter per declared parameter, with its name and resolved type |
| Evaluator.Eval | MyLisp/ASTEvaluator.cpp:8-153 | evaluation keeps the depth of the scope chain: a callee's scope is gone on return |
| Evaluator.EvalNode | MyLisp/ASTEvaluator.cpp:10-152 | the same for each case of the switch |
| Evaluator.EvalDeclaration | MyLisp/ASTEvaluator.cpp:45-51 | the same for declarations |
| Evaluator.EvalAssignment | MyLisp/ASTEvaluator.cpp:52-66 | the same for assignments |
| Evaluator.Assign | MyLisp/ASTEvaluator.cpp:56-64 | the same for the write |
| Evaluator.EvalCondition | MyLisp/ASTEvaluator.cpp:98-99 | the same for conditions |
| Evaluator.EvalIf | MyLisp/ASTEvaluator.cpp:95-107 | the same for `if` |
| Evaluator.EvalBody | MyLisp/ASTEvaluator.cpp:130-133 | the same for bodies |
| Evaluator.EvalArgs | MyLisp/ASTEvaluator.cpp:87-91 | the arguments are appended, one value per node, after the ones already done |
| Evaluator.EvalFor | MyLisp/ASTEvaluator.cpp:108-136 | the same depth for `for` |
| Evaluator.ForLoop | MyLisp/ASTEvaluator.cpp:126-135 | the same for the counting loop |
| Evaluator.WhileLoop | MyLisp/ASTEvaluator.cpp:137-149 | the same for `while` |
| Evaluator.WhilePass | MyLisp/ASTEvaluator.cpp:141-147 | the same for one pass |
| Evaluator.EvalCall | MyLisp/ASTEvaluator.cpp:78-94 | the same for calls |
| Evaluator.Execute | MyLisp/Function.cpp:20-24 | the same for execute |
| Evaluator.DoExecute | MyLisp/UserDefinedFunction.cpp:10-38 | the same for doExecute: the local environment is dropped on return |
| Interpreter.Evaluate | MyLisp/ASTEvaluator.cpp:8-153 | on real environments, the result and the resulting scopes are exactly Eval's |
| Interpreter.EvaluateNode | MyLisp/ASTEvaluator.cpp:10-152 | the same as EvalNode |
| Interpreter.EvaluateDeclaration | MyLisp/ASTEvaluator.cpp:45-51 | the same as EvalNode on a declaration |
| Interpreter.EvaluateAssignment | MyLisp/ASTEvaluator.cpp:52-66 | the same as EvalNode on an assignment |
| Interpreter.AssignVariable | MyLisp/ASTEvaluator.cpp:56-64 | the same as Assign |
| Interpreter.EvaluateCall | MyLisp/ASTEvaluator.cpp:78-94 | the same as EvalNode on a call |
| Interpreter.EvaluateIf | MyLisp/ASTEvaluator.cpp:95-107 | the same as EvalNode on `if` |
| Interpreter.EvaluateFor | MyLisp/ASTEvaluator.cpp:108-136 | the same as EvalNode on `for` |
| Interpreter.EvaluateCondition | MyLisp/ASTEvaluator.cpp:98-99 | the same as EvalCondition |
| Interpreter.EvaluateBody | MyLisp/ASTEvaluator.cpp:130-133 | the same as EvalBody |
| Interpreter.EvaluateArgs | MyLisp/ASTEvaluator.cpp:87-91 | the same as EvalArgs |
| Interpreter.RunFor | MyLisp/ASTEvaluator.cpp:126-135 | the same as ForLoop |
| Interpreter.RunWhile | MyLisp/ASTEvaluator.cpp:140-148 | the same as WhileLoop |
| Interpreter.Execute | MyLisp/Function.cpp:20-24 | the same as Execute: validation, then doExecute |
| Interpreter.DoExecute | MyLisp/UserDefinedFunction.cpp:10-38 | the same as DoExecute |
| Interpreter.RunUserFunction | MyLisp/UserDefinedFunction.cpp:10-38 | a local environment on the caller's chain, bound and run; the same as DoExecute |
| Interpreter.BindParameters | MyLisp/UserDefinedFunction.cpp:16-28 | the local variables become exactly BindArguments', and its functions are untouched |
| EvaluatorProperties.LiteralsEvaluateToThemselves | MyLisp/ASTEvaluator.cpp:25-44 | each literal is its own value and changes no scope |
| EvaluatorProperties.SymbolReadsInnermostBinding | MyLisp/ASTEvaluator.cpp:12-24 | a symbol reads the innermost binding, and is "Undefined symbol" exactly when none exists |
| EvaluatorProperties.DeclarationBindsInCurrentScope | MyLisp/ASTEvaluator.cpp:45-51 | a declaration binds in the current scope only, shadowing outer bindings; a failing value binds nothing |
| EvaluatorProperties.AssignWritesWhereFound | MyLisp/ASTEvaluator.cpp:56-64 | an assignment overwrites the binding where it is found and nothing else; an unbound name is "Undefined variable" with no change |
| EvaluatorProperties.AssignmentEvaluatesThenWrites | MyLisp/ASTEvaluator.cpp:52-66 | the value is evaluated first, and a failing value writes nothing |
| EvaluatorProperties.FunctionDeclarationBindsInCurrentScope | MyLisp/ASTEvaluator.cpp:67-77 | a function declaration binds the user function in the current scope and leaves every variable alone |
| EvaluatorProperties.IfTakesOneBranch | MyLisp/ASTEvaluator.cpp:95-107 | exactly one branch runs, chosen by a bool condition; any other condition is an error |
| EvaluatorProperties.EmptyForRangeRunsNoPass | MyLisp/ASTEvaluator.cpp:126-135 | for any bound expressions that evaluate to longs with start not below end, the loop runs no pass and binds no index |
| EvaluatorProperties.ForLoopEndsOnLastIndex | MyLisp/ASTEvaluator.cpp:126-135 | with a positive step, the index is bound to start, start + step, ... while below end; a body reading the index ends with the last of them, start + ((end - start - 1) / step) * step, as the loop's value and as the binding left in the current scope |
| EvaluatorProperties.ForLoopExample | MyLisp/ASTEvaluator.cpp:126-135 | `(for i 0 10 3 i)` ends with 9 and leaves i bound to 9 |
| EvaluatorProperties.ForBoundsMustBeIntegers | MyLisp/ASTEvaluator.cpp:115-120 | bounds that are not all longs are an error once all three are evaluated |
| EvaluatorProperties.NonPositiveStepNeverFinishes | MyLisp/ASTEvaluator.cpp:127 | with a step that is not positive and start below end, the loop never ends with a value |
| EvaluatorProperties.WhileFalseRunsNoPass | MyLisp/ASTEvaluator.cpp:140-148 | a first false condition runs no pass; a condition that is not a bool is an error |
| EvaluatorProperties.WhileTrueNeverFinishes | MyLisp/ASTEvaluator.cpp:141 | `(while true ...)` never ends with a value |
| EvaluatorProperties.WhilePassThenStop | MyLisp/ASTEvaluator.cpp:140-148 | a condition that is true, then false after the body, runs one pass and returns that pass's body value, in the scopes the second condition leaves |
| EvaluatorProperties.WhileFlagRunsOnePass | MyLisp/ASTEvaluator.cpp:140-148 | `(while flag (set flag false) v)` with flag true runs one pass: it returns v and only flag changes, to false, where it is bound |
| EvaluatorProperties.UndefinedFunctionEvaluatesNoArgument | MyLisp/ASTEvaluator.cpp:81-85 | an undefined callee fails before any argument is evaluated |
| EvaluatorProperties.ValidationPrecedesExecution | MyLisp/Function.cpp:20-24 | invalid arguments stop the call before the body runs, with the scopes unchanged |
| EvaluatorProperties.EmptyBodyReturnsZero | MyLisp/UserDefinedFunction.cpp:30-37 | an empty body returns the default value, the long 0 |
| EvaluatorProperties.ReturnTypeIgnored | MyLisp/UserDefinedFunction.cpp:30-37 | the declared result type never affects a call |
| EvaluatorProperties.ParameterReadsItsArgument | MyLisp/UserDefinedFunction.cpp:18-21 | with distinct names, a body reading fixed parameter i returns argument i, and the caller's scopes are unchanged |
| EvaluatorProperties.CalleeReadsCallerVariables | MyLisp/UserDefinedFunction.cpp:13 | a non-parameter name in the callee reads the caller's binding (dynamic scoping) |
| EvaluatorProperties.CalleeAssignmentReachesCaller | MyLisp/UserDefinedFunction.cpp:13 | an assignment in the callee to a caller's variable survives the return |
| EvaluatorProperties.CalleeDeclarationStaysLocal | MyLisp/UserDefinedFunction.cpp:13 | a declaration in the callee leaves the caller's scopes unchanged |
| EvaluatorProperties.ScriptIsUnknownNodeType | MyLisp/ASTEvaluator.cpp:150-151 | evaluating a whole script node is "Unknown ASTNode type" |

## Left out

- Printing, `main`'s console output, and every `toString`, `TokenTypeToString` and `ASTNodeTypeToString` are left out, because they produce text only. `Token::ToString` of the older lexer is left out for the same reason.
- ASTPrettyPrinter is not part of this model.
- Exception messages are kept as error constructors with the data they print. The exact wording and the "at line, column" suffixes are not modelled.
- Text is a sequence of characters, each standing for one byte of the source's `std::string`. On ASCII input the two agree. A non-ASCII character is one column and one "Unknown character" or "Invalid character" token in the model, where the source moves over each of its 2 to 4 UTF-8 bytes separately, and passing a byte above 0x7F in a signed `char` to `std::isalpha` and its companions is undefined behaviour.
- `std::stod` is a parameter of the parser: it is `None` where it throws. Double arithmetic and rounding are not modelled: a double is a `real`, and the widening of a long is exact.
- The evaluator counts fuel, one unit per node. It ends in `OutOfFuel` where the source would loop forever or overflow the stack, so the model says nothing about runs longer than the fuel.
- RunFor: `i += step` past the long range is undefined behaviour in the source. The model stops with `IndexOverflow` instead.
- The parser works on the finished token list instead of pulling tokens one by one. `ReadSource` therefore reports a lexer that hangs even when the parser would have failed on an earlier token.
- Parser.Parser.ParseDefine: after an error, the model says nothing about the cursor or the define flag. The source leaves the flag set, but no caller continues after a thrown error.
- The source writes the parts of `parseExpression`, `parseDefine` and `parseForIteration`, and the expression loops, inline. The model splits them into helper methods: ConsumeOpens, ConsumeCloses, ParseForm, ParseBounds, ParseSignature, ParseTypedName, ParseParameters and ParseUntilClose.
- `getName`, `evaluate` and `getTypeSystem` of Environment are not modelled. The type system is stateless, so the environment does not carry it.
- Built-in functions are the `builtin` parameter of `Host`. Their definitions are not part of this model, and they cannot change the environment.
- The mapping from a parameter's type symbol to its type and variadic flag is the `resolveType` parameter of `Host`. The source takes it from `SymbolNode::getType`, which does not yield a value type.
- Functions.PackVariadic: the source binds a `std::vector<Value>`, which no alternative of `Value` can hold. The model packs the arguments into the vector alternative of the declared scalar type, and a variadic parameter of vector type cannot be bound (`UnrepresentableVariadic`).
- Function objects are values in the model. A later `setFunction` under the same name does not affect a call already in progress, which in the source holds a raw pointer.

## Findings

| source | as written | input that shows it | evidently intended | confidence | as-written member | corrected member |
|---|---|---|---|---|---|---|
| MyLisp/Function.cpp:28-36 | with no parameters and no arguments, the empty-list check falls through and `params_.back()` is read on an empty vector (UserDefinedFunction.cpp:16 does the same) | `(define f () Integer 1)` then `(f)` | a function without parameters accepts exactly the empty argument list | not executed | Functions.ZeroParameterCallUndefined | Functions.ValidateIffMatches |

# Lexer and parser of a small compiler, modelled in Dafny

This project models the front end of a single-file compiler
(`compiler.c++`). The model covers three parts.

- The lexer `Lexer::tokenize` turns source text into tokens. It relies on
  four fixed tables:
  - a multi-character table (`*"`, `"*`);
  - a single-character table (operators, newline, brackets, comma, quote);
  - a keyword table, of which only the first 13 entries are consulted;
  - two regular expressions (number and identifier).

  Outside *raw mode*, spaces and tabs separate tokens. A quote or `*"`
  turns raw mode on, and a quote, `"*` or newline turns it off.
- The parser `Parser::_parse` rewrites a list of elements in passes until a
  pass changes nothing. Tokens become:
  - number and null literals;
  - single-line and multiline string literals;
  - unary and binary operations;
  - function calls and references.

  It also records errors, shown below, and the `static` keyword guard. A
  second overload wraps the lexer's tokens as elements.

  | error | when |
  |---|---|
  | Unexpected operator | operator at the start, or a clash with a neighbouring operator |
  | EOF while looking for operands | operator at the end |
  | Unexpected operator (expected operand before / after operator) | a line break next to an operator |
  | Expected closing quote | a string left unclosed |
  | Multiline string errors | a multiline string left unclosed, or a missing continuation |
  | Unexpected closing multiline string | a stray `"*` |
  | Missing closing bracket | an unclosed call |
  | Unexpected comma | a call argument that starts with a comma |
- The helpers are `escape`, `split_string` and `get_type`.

Layout:

- `lexer.dfy` (module `Lexer`):
  - the token kinds, the tables and the two patterns;
  - one loop iteration `Step`, the loop `Run`, and `Lex(code)`, which is `tokenize` as a function;
  - the imperative `Tokenize`, proved to compute `Lex`.
- `lexer_tables.dfy` (module `LexerTables`): facts about the tables, such as shadowed and unconsulted entries.
- `lexer_properties.dfy` (module `LexerProperties`): line numbers, classification, raw mode, and the round trip.
- `parser.dfy` (module `Parser`):
  - the `Element` datatype;
  - one rule per token kind, `RuleAt`;
  - a pass `PassFrom`, the fixed point `Reduce`, and `Parse` / `ParseTokens`.

  Termination of `Reduce` counts the token elements that remain.
- `parser_engine.dfy` (module `ParserEngine`): the source's loops and in-place erasures as methods. Each method is proved equal to the rule or pass it implements.
- `parser_properties.dfy` (module `ParserProperties`): the rules' outcomes, error cases and call-argument collection.
- `strings.dfy` (module `Strings`):
  - `escape` and `split_string`, each as a loop proved against a recursive definition;
  - the partners of those definitions: unescaping and joining.
- `wrappers.dfy` (module `Wrappers`): `Option` and `Min`.

## Model

| member | source | states |
|---|---|---|
| Lexer.Ordinal | compiler.c++:53-70 | a token kind's position in the kind enumeration is below 16 |
| Lexer.KindBit | compiler.c++:72-76 | the mask bit of a kind is `1 << ordinal`, as the raw-mode masks are built |
| Lexer.ToggleRaw | compiler.c++:347-354 | the bit-mask test on the start and stop masks equals the raw-mode rule `RawAfter` stated on kinds (quote or `*"` turns raw on; quote, `"*` or newline turns it off) |
| Lexer.Width | compiler.c++:258-268 | a recognised symbol spans one or two characters and never runs past the input |
| Lexer.KeywordFrom | compiler.c++:327-332 | the keyword search yields only type, null, number or keyword kinds |
| Lexer.DigitPrefix | compiler.c++:86 | the digit prefix is all digits and is followed by a non-digit or the end |
| Lexer.Classify | compiler.c++:324-343 | a flushed buffer is never classified as a quote, multiline delimiter or newline |
| Lexer.StepAdvance | compiler.c++:252-389 | one iteration is the boundary/absorb step applied to the recognised symbol and the character at the last index it consumed |
| Lexer.RunAdvance | compiler.c++:252-389 | the loop from `i` is the loop from one past the consumed symbol, on the advanced state |
| Lexer.LexemeAtPair | compiler.c++:261 | `code.substr(i, 2) == lexeme` holds exactly when both lexeme characters are at `i` and `i + 1`, including at the end of the input |
| Lexer.MatchMultiChar | compiler.c++:258-268 | the multi-character loop finds `*"` or `"*` at `i` when present (and then the width is 2), otherwise reports no match |
| Lexer.MatchSingleChar | compiler.c++:269-278 | the single-character table loop returns the table's kind for the character, `Unknown` when absent |
| Lexer.ClassifyBuffer | compiler.c++:327-343 | the keyword loop, then the pattern loop, give the buffer's classification |
| Lexer.RecogniseSymbol | compiler.c++:254-278 | the recognised special token, with the current line, and the index of its last character |
| Lexer.Absorb | compiler.c++:279-389 | the state after an iteration: flush the buffer, push the symbol, update raw mode and line, or append the character |
| Lexer.Tokenize | compiler.c++:240-394 | the imperative `tokenize` returns exactly `Lex(source)` |
| Lexer.RawAfter | compiler.c++:72-76 | definition; no contract: raw mode after a token of each kind (quote flips it, `*"` sets it, `"*` and newline clear it); Lexer.ToggleRaw ties it to the bit masks |
| Lexer.SymbolAt | compiler.c++:254-278 | definition; no contract: the multi-character table first, then the single-character table; LexerTables.SymbolShape states its shape |
| Lexer.IsNumberLexeme | compiler.c++:86 | definition; no contract: the number pattern on the whole lexeme |
| Lexer.IsIdentifierLexeme | compiler.c++:87 | definition; no contract: the identifier pattern on the whole lexeme |
| Lexer.Emit | compiler.c++:360-377 | definition; no contract: pushing a symbol token, updating raw mode and the line counter; LexerProperties.EmitInv is its invariant |
| Lexer.Advance | compiler.c++:279-389 | definition; no contract: one iteration's effect on the state; LexerProperties.AdvanceInv, BlankStep and SymbolStep state its cases |
| Lexer.Step | compiler.c++:252-389 | definition; no contract: one iteration of the loop; LexerProperties.StepSound is its invariant |
| Lexer.Run | compiler.c++:252-390 | definition; no contract: the loop; LexerProperties.RunSound and RunSplit state its properties |
| Lexer.Lex | compiler.c++:240-394 | definition; no contract: `tokenize` as a function; Lexer.Tokenize computes it and LexerProperties.LexSound, LexLines and LexRoundTrip state what it returns |
| LexerTables.OperatorList | compiler.c++:159-191 | the first fifteen operator characters map to `Operator`; `}`, `@`, `?` and backslash are not in the single-character table |
| LexerTables.KeywordClasses | compiler.c++:102-155 | the consulted keywords by class: void/num/str are types, NULL/null null, true/false numbers, the rest keywords; nothing else is a keyword |
| LexerTables.BlankIsUnknown | compiler.c++:168-191 | spaces and tabs are not symbols |
| LexerTables.ServeIsIdentifier | compiler.c++:116-137 | `serve`, entry 13 of the keyword list and so past the consulted count, is classified as an identifier |
| LexerTables.StructureIsIdentifier | compiler.c++:117-137 | `structure`, entry 14 of the keyword list and so past the consulted count, is classified as an identifier |
| LexerTables.ArrowIsTwoSymbols | compiler.c++:222-230 | `->` is past the consulted multi-character count: it lexes as operator `-` then operator `>` |
| LexerTables.FlushKeepsRaw | compiler.c++:347-354 | a flushed buffer never changes raw mode |
| LexerTables.SymbolShape | compiler.c++:258-278 | a one-wide symbol is the single-character table's entry; a two-wide one is `*"` or `"*` at that position |
| LexerProperties.FlushInv | compiler.c++:311-357 | flushing keeps tokens well-formed and well-numbered; the flushed token is never a newline |
| LexerProperties.EmitInv | compiler.c++:289-305 | pushing a symbol keeps the invariant; the newline count rises by one exactly for a line feed |
| LexerProperties.AdvanceInv | compiler.c++:279-389 | one iteration keeps the invariant and counts line feeds |
| LexerProperties.StepSound | compiler.c++:252-389 | one iteration preserves soundness relative to the consumed prefix |
| LexerProperties.RunSound | compiler.c++:252-390 | the loop preserves soundness to the end |
| LexerProperties.LexSound | compiler.c++:244-375 | every token's line is one plus the newline tokens before it; all tokens are well-formed; there are as many newline tokens as line feeds in the input |
| LexerProperties.NewlineKind | compiler.c++:184-212 | a well-formed token is a newline token iff its value is a line feed |
| LexerProperties.LexLines | compiler.c++:244-375 | the first token is on line 1; each next token's line is the previous one plus one exactly after a newline token |
| LexerProperties.LexNewlines | compiler.c++:252-389 | tokens of kind newline are exactly those with value `\n`, and they match the input's line feeds |
| LexerProperties.BlankStep | compiler.c++:279-389 | a blank in raw mode is appended; outside raw mode it flushes a pending buffer or is dropped |
| LexerProperties.SymbolStep | compiler.c++:279-377 | a table symbol always flushes the buffer and is pushed after it with the current line, updating raw mode and line |
| LexerProperties.RunSplit | compiler.c++:252 | the loop is the loop up to `n` and then on from `n`, when no two-character symbol straddles `n` |
| LexerProperties.LexTail | compiler.c++:243-389 | the appended space flushes the pending buffer unless raw mode lasts to the end, in which case that buffer is dropped |
| LexerProperties.PlainAdvanceRaw | compiler.c++:279-354 | without a quote, an iteration keeps raw mode off and a blank leaves the buffer empty |
| LexerProperties.PlainAdvance | compiler.c++:279-389 | without raw mode, an iteration appends the character (unless blank) to the token values plus buffer |
| LexerProperties.PlainStep | compiler.c++:252-389 | the round-trip invariant survives one iteration of a quote-free input |
| LexerProperties.PlainRun | compiler.c++:252-390 | the round-trip invariant survives the loop |
| LexerProperties.LexRoundTrip | compiler.c++:240-394 | for input without `"`, the token values concatenated are the input with spaces and tabs removed |
| Parser.GetType | compiler.c++:510-523 | `num` gives the number type, `str` the string type, and every other name void |
| Parser.TypeName | compiler.c++:510-523 | each type has a name that `get_type` maps back to it |
| Parser.QuoteEnd | compiler.c++:578-587 | the string scan stops at the first element that is not a non-quote, non-newline token |
| Parser.MlScan | compiler.c++:615-643 | the multiline scan, if it stops on `"*`, saw no `"*` before it |
| Parser.FirstOf | compiler.c++:825-831 | the first index from `k` holding a token of the given kinds, or the end |
| Parser.PassFrom | compiler.c++:532-1143 | a pass keeps safety, never grows the elements or token count, only records errors (as a prefix extension), and sets `successful` false exactly when it records one |
| Parser.Reduce | compiler.c++:530-1147 | the fixed point keeps the same guarantees; it terminates because each pass with progress removes a token |
| Parser.Parse | compiler.c++:525-1150 | `successful` iff there are no errors; elements and token count never grow |
| Parser.Wrap | compiler.c++:1152-1159 | the token overload wraps each token, in order, as a token element with its line, value and kind |
| Parser.RuleKept | compiler.c++:534-1141 | every rule at `i` never grows the elements or the token count, removes a token whenever it reports progress, keeps the next index past the rewritten span, keeps `static` declarations excluded, and clears `successful` exactly when it records an error |
| Parser.Splice | compiler.c++:595-604 | definition; no contract: one `erase` of a span followed by storing the new elements at its start |
| Parser.EraseAt | compiler.c++:730 | definition; no contract: `erase(begin()+k)`, erasing nothing at the end |
| Parser.LeadingInt | compiler.c++:541 | definition; no contract: `stoi`; ParserProperties.LeadingIntOf states its value |
| Parser.NumberRule | compiler.c++:537-545 | definition; no contract: ParserProperties.NumberLiteral states its result |
| Parser.NullRule | compiler.c++:547-553 | definition; no contract: ParserProperties.NullLiteral states its result |
| Parser.QuoteRule | compiler.c++:573-607 | definition; no contract: ParserProperties.QuoteClosed, QuoteUnclosed and QuoteAtEnd state its cases |
| Parser.MultilineRule | compiler.c++:610-688 | definition; no contract: ParserProperties.MultilineOneLine, MultilineUnclosed, MultilineContinuationMissing and MultilineExpectedClosing state its cases |
| Parser.MultilineFailure | compiler.c++:645-678 | definition; no contract: ParserEngine.FailMultiline computes it |
| Parser.ShiftedLine | compiler.c++:664-676 | definition; no contract: the line read through `elements[j]` after the erasure |
| Parser.MultilineEndRule | compiler.c++:690-698 | definition; no contract: ParserProperties.StrayMultilineEnd states its result |
| Parser.BuildOperation | compiler.c++:801-817 | definition; no contract: ParserProperties.BinaryOperator, PrefixTilde and PostfixAt state its results |
| Parser.OperatorRule | compiler.c++:699-819 | definition; no contract: ParserProperties.OperatorAtStart, OperatorNewlineNeighbour, OperatorClash, OperatorAtEnd, LeftOperandDefers, RightOperandDefers and OperatorOutcome state its cases |
| Parser.CollectArgs | compiler.c++:844-867 | definition; no contract: ParserProperties.ArgsErrorIff, ArgsAreSlotHeads and SlotHeadsAreArgs state its result |
| Parser.CallRule | compiler.c++:839-886 | definition; no contract: ParserProperties.CallOutcome states its result |
| Parser.IdentifierRule | compiler.c++:820-896 | definition; no contract: ParserProperties.CallOutcome, CallUnclosed and Reference state its cases |
| Parser.KeywordRule | compiler.c++:898-912 | definition; no contract: ParserProperties.KeywordStaticGuard states its result |
| Parser.RuleAt | compiler.c++:534-1141 | definition; no contract: the switch on the token type; Parser.RuleKept states what every rule keeps |
| Parser.Apply | compiler.c++:532-1143 | definition; no contract: one turn of the for-loop on the parse state; ParserEngine.StepAt computes it |
| ParserEngine.ScanQuote | compiler.c++:578-587 | the lookahead loop stops at `QuoteEnd` and concatenates the values it passed |
| ParserEngine.ScanMultiline | compiler.c++:615-643 | the in-string / continuation loop stops and accumulates as `MlScan` says |
| ParserEngine.FindFirst | compiler.c++:825-831 | the matching-bracket loop finds `FirstOf` |
| ParserEngine.CollectArguments | compiler.c++:844-867 | the argument loop gives the arguments or the comma error as `CollectArgs` |
| ParserEngine.EraseSpan | compiler.c++:870-883 | erasing `close - i` times at `i` leaves `s[..i] + s[close..]` |
| ParserEngine.ReduceQuote | compiler.c++:573-607 | the quote branch, with its erasures, equals `QuoteRule` |
| ParserEngine.FailMultiline | compiler.c++:645-678 | the two multiline failure paths equal `MultilineFailure` |
| ParserEngine.ReduceMultiline | compiler.c++:610-688 | the multiline branch equals `MultilineRule` |
| ParserEngine.EraseOperands | compiler.c++:804-814 | the operand erasures leave the operator at `at` between the untouched neighbours |
| ParserEngine.BuildOperator | compiler.c++:801-817 | building an operation in place equals `BuildOperation` |
| ParserEngine.ReduceOperator | compiler.c++:699-819 | the operator branch equals `OperatorRule` |
| ParserEngine.ReduceCall | compiler.c++:839-886 | the call construction and its error cleanup equal `CallRule` |
| ParserEngine.ReduceIdentifier | compiler.c++:820-896 | the identifier branch equals `IdentifierRule` |
| ParserEngine.ApplyRule | compiler.c++:534-1141 | the switch on the element's token type equals `RuleAt` |
| ParserEngine.StepAt | compiler.c++:532-1143 | one turn of the for-loop updates elements, errors, flags and index as `Apply` of `RuleAt` |
| ParserEngine.RunPass | compiler.c++:531-1143 | one pass of the for-loop equals `PassFrom` from index 0 |
| ParserEngine.ParseElements | compiler.c++:525-1150 | the do-while returns `Parse(input)` |
| ParserEngine.WrapTokens | compiler.c++:1153-1159 | the wrapping loop equals `Wrap` |
| ParserEngine.ParseTokenStream | compiler.c++:1152-1162 | the token overload returns `ParseTokens(tokens)` |
| ParserProperties.LeadingIntOf | compiler.c++:541 | `stoi` of digits followed by a non-digit is the value of those digits |
| ParserProperties.NumberLiteral | compiler.c++:537-545 | a number token `d` or `d.f` becomes a number literal with value `d` in place, with progress |
| ParserProperties.NullLiteral | compiler.c++:547-553 | a null token becomes a void literal in place, with progress |
| ParserProperties.StrayMultilineEnd | compiler.c++:690-698 | a stray `"*` is erased with an "unexpected closing multiline string" error, without progress |
| ParserProperties.Untouched | compiler.c++:534-1141 | non-token elements and tokens of type, newline, bracket, comma or unknown kind are left alone |
| ParserProperties.QuoteClosed | compiler.c++:598-605 | a closed single-line string becomes a string literal of the inner values, its text the quotes around them |
| ParserProperties.QuoteUnclosed | compiler.c++:589-597 | a string stopped by a newline or non-token is erased through that stopper with an "expected closing quote" error |
| ParserProperties.QuoteAtEnd | compiler.c++:578-597 | a string running to the end is erased to the end with the same error |
| ParserProperties.MlScanLine | compiler.c++:620-643 | a one-line multiline body up to `"*` is the concatenated values |
| ParserProperties.MlScanContinuation | compiler.c++:627-642 | a newline followed by a quote continues the string with `\n` |
| ParserProperties.MlScanAbandoned | compiler.c++:637-640 | a newline not followed by a quote ends the scan there |
| ParserProperties.MultilineOneLine | compiler.c++:679-686 | a one-line multiline string becomes a string literal |
| ParserProperties.MultilineUnclosed | compiler.c++:645-678 | a failed multiline string leaves an error element at `i` and the prefix unchanged, without progress; the scan did not stop on `"*`, the error is on the stop's line (the start's at the end of input) and is either a missing continuation or an expected closing `"*` |
| ParserProperties.MultilineStop | compiler.c++:611-643 | the multiline scan, after the one skipped newline, stops past the start and within the elements |
| ParserProperties.MultilineContinuationMissing | compiler.c++:645-676 | when a `"*` follows the stop with no `*"` or `"*` between, the error is "continuation missing" at the stop's line and the start through that `"*` become one error element |
| ParserProperties.MultilineExpectedClosing | compiler.c++:645-664 | when every `"*` after the stop has a `*"` before it, the error is "expected closing multiline string" and the start through the stop become one error element |
| ParserProperties.BinaryOperator | compiler.c++:801-817 | a binary operator between two expressions becomes an operation with both operands, text joined, at `i - 1` |
| ParserProperties.PrefixTilde | compiler.c++:801-817 | `~` before an expression becomes a prefix operation with no left operand |
| ParserProperties.PostfixAt | compiler.c++:801-817 | `@` after an expression becomes a postfix operation with no right operand |
| ParserProperties.LeftOperandDefers | compiler.c++:735-750 | a left neighbour that is not yet an expression (and no clash) defers the operator |
| ParserProperties.RightOperandDefers | compiler.c++:784-799 | a right neighbour that is not yet an expression (and no clash) defers the operator |
| ParserProperties.OperatorNewlineNeighbour | compiler.c++:711-770 | a newline before an operator other than `~` erases the operator with "operand before", with the `~` hint exactly for `-`; a newline after an operator other than `@`, once the left operand is ready, erases it with "operand after" |
| ParserProperties.OperatorClash | compiler.c++:724-782 | an operator left of one other than `~` that is not `@` is an error naming it and erases the element after the operator (nothing at the end); an operator right of one other than `@` that is not `~` is an error with the `~` hint exactly for `-`, and erases that right neighbour |
| ParserProperties.OperatorErrorShape | compiler.c++:703-782 | every operator error is on the operator's line, gives no progress, and erases the operator, the element after it, or nothing at the end |
| ParserProperties.OperatorOutcome | compiler.c++:699-819 | progress only without error; no error and no progress leaves the elements unchanged; progress leaves an operation just before the next index |
| ParserProperties.OperatorAtStart | compiler.c++:703-710 | an operator other than `~` at index 0 is erased with "unexpected operator" |
| ParserProperties.OperatorAtEnd | compiler.c++:754-761 | an operator other than `@` at the end is erased with "EOF while looking for operands" |
| ParserProperties.OperandSlots | compiler.c++:804-814 | which indices the operand pointers are taken from: `i - 1` unless `~`, and `i + 1` before the left erasure (index `i` after it) unless `@` |
| ParserProperties.PointedOperandsShifted | compiler.c++:805-816 | the element those pointers designate after the erasures: the left one is the new operation itself, the right one is the element after the right operand |
| ParserProperties.PointedOperandsExample | compiler.c++:805-816 | for `a + b c` the operation carries `a` and `b`, while the source's pointers designate the operation and `c` |
| ParserProperties.ArgsErrorIff | compiler.c++:847-867 | argument collection fails iff some comma sits where an argument may start |
| ParserProperties.ArgsStep | compiler.c++:847-867 | one turn of the argument loop: a slot start becomes the next argument, a comma reopens a slot |
| ParserProperties.ArgsAreSlotHeads | compiler.c++:847-867 | every collected argument is a copy of the element heading a slot |
| ParserProperties.SlotHeadsAreArgs | compiler.c++:847-867 | every slot head is among the collected arguments, so a trailing comma is no error |
| ParserProperties.CallToFirstClose | compiler.c++:825-831 | a call extends to the first closing bracket after `(` |
| ParserProperties.CallOutcome | compiler.c++:839-886 | an identifier call is replaced through the bracket by a call with the collected arguments, or by an error element with the comma error |
| ParserProperties.CallUnclosed | compiler.c++:832-838 | with no closing bracket, "missing closing bracket" is recorded and the elements are left alone |
| ParserProperties.Reference | compiler.c++:888-894 | an identifier not followed by `(` becomes a reference |
| ParserProperties.KeywordStaticGuard | compiler.c++:898-912 | a keyword leaves the elements alone and errs exactly for `static` at the end or before a non-keyword |
| ParserProperties.WrapCount | compiler.c++:1155-1159 | wrapping gives one token element per token |
| ParserProperties.NoStaticIsSafe | compiler.c++:898-915 | tokens with no `static` keyword never reach the excluded declaration branches |
| ParserProperties.ParseTokensShape | compiler.c++:1152-1162 | from tokens: `successful` iff no errors, and no more elements or tokens than tokens given |
| Strings.EscapedChar | compiler.c++:11-24 | a character's replacement is two characters long exactly for line feed, tab and quote (one otherwise), holds no line feed or tab, and reads back as the character unless it is a backslash |
| Strings.Escape | compiler.c++:8-27 | definition; no contract: Strings.EscapeConcat, EscapeOneLine, EscapeLength and UnescapeEscape state its properties |
| Strings.Unescape | compiler.c++:8-27 | definition; no contract: the inverse partner of `escape`, which Strings.UnescapeEscape relates to it |
| Strings.SplitFrom | compiler.c++:37-46 | the pieces from `prev` on, the search resuming `step` characters after each occurrence; there is always at least one piece, the rest after the last occurrence |
| Strings.SplitFixed | compiler.c++:30-49 | definition; no contract: the split with the search resuming past the whole delimiter; Strings.SplitFixedJoin states its round trip |
| Strings.Join | compiler.c++:30-49 | definition; no contract: the partner of `split_string`, which Strings.JoinSplitFrom relates to the split |
| Strings.EscapeString | compiler.c++:8-27 | the loop builds `Escape(str)` |
| Strings.EscapeConcat | compiler.c++:10-25 | escaping distributes over concatenation |
| Strings.EscapeOneLine | compiler.c++:12-17 | an escaped string has no line feed or tab |
| Strings.EscapeLength | compiler.c++:12-23 | escaping adds exactly one character per line feed, tab or quote |
| Strings.UnescapeEscape | compiler.c++:8-27 | for input without a backslash, unescaping the escaped text gives the input back |
| Strings.EscapeCollision | compiler.c++:12-23 | a literal backslash-n and a line feed escape alike, so the backslash-free condition is needed |
| Strings.Find | compiler.c++:39 | `find` returns the first match from `prev`, or none |
| Strings.SplitFromFound | compiler.c++:39-43 | a match at `pos` yields piece `str[prev..pos]` and continues from `pos + step` |
| Strings.Split | compiler.c++:30-49 | an empty delimiter is the only failure |
| Strings.SplitString | compiler.c++:30-49 | the loop computes `Split` |
| Strings.JoinSplitFrom | compiler.c++:39-46 | the corrected split, joined with the delimiter, gives back the suffix it split |
| Strings.SplitFixedJoin | compiler.c++:30-49 | the corrected split (advancing by the delimiter's length), joined, gives back the input |
| Strings.SplitFromPieces | compiler.c++:39-46 | no piece of the corrected split contains the delimiter |
| Strings.SplitOneChar | compiler.c++:30-49 | for a one-character delimiter, as at the only call (line 1246), the split as written is the corrected one and joins back to the input |
| Strings.SplitOverlapExample | compiler.c++:42 | `split_string("a::b", "::")` gives `["a", ":b"]`, which does not join back |

## Left out

- The `debug` field of tokens and elements, and the column counter, are not modelled: nothing reads them in the modelled core.
- Lexer.IsIdentifierLexeme: source text is modelled as a sequence of characters, while the source iterates over bytes, where a non-ASCII character is several bytes. The identifier pattern's wildcard `.` (after a backslash) takes one character in the model and one byte in the source, so `a\éb` is an identifier in the model and an unknown token in the source. ASCII input is classified alike.
- Lexer.Classify: the regular expressions are modelled as predicates on the whole lexeme; the wildcard `.` of the identifier pattern is any character but `\n` and `\r`.
- ParserProperties.LeadingIntOf: `std::stoi` is modelled as the value of the leading digits (without bound); its overflow, sign and whitespace handling and its exception are not modelled. `true`/`false` are number tokens, for which the source's `stoi` throws; the model gives 0.
- Reads the source makes past the end of the element list, such as the quote scan's stopper at the end and the multiline scan's terminator, are undefined behaviour there; the model reads them as "no terminator". Reading a non-token's token type is modelled as "not a match": in the multiline lookahead (line 656), and in the quote scan's test of its stopper (line 589), where a non-token stopper counts as "not a closing quote". The left-clash `erase(begin()+i+1)` at line 730 erases the end iterator when the operator is the last element; the model erases nothing there.
- Parser.ShiftedLine: the line of an error element after an erasure is the line of the element that slid into that index, or the start token's line when none did.
- The right-operand clash message quotes the left neighbour's value (line 774); the model records the error kind, not the message text.
- The bodies of the `static macro` and `static func` branches are not modelled. Together with the recursive `_parse` call at line 978 they are excluded by the precondition `Safe`: no `macro` or `func` keyword token comes anywhere after a `static` keyword token, adjacent or not. The stronger form is needed because erasures between the two can make them adjacent in a later pass. ParserProperties.NoStaticIsSafe shows that token lists without a `static` keyword satisfy it.
- Pointers: a string literal points at a local string; operand, name and token pointers point into the vector. The model stores values. The as-written operand pointers are modelled in ParserProperties.PointedOperands (see Findings). Invalidation of pointers by later erasures is not modelled.
- `main`, the argument parser, file reading and printing are left out (I/O).
- Strings.Split: an empty delimiter makes the source's `substr` throw `out_of_range`; it is modelled as `None`.
- Three behaviours of the code a reader may not expect, which the model follows:
  - a call's arguments are copies of the elements occupying the slots when the call is built; they are out of the sequence and are not reduced by later passes (ParserProperties.ArgsAreSlotHeads);
  - a trailing comma in a call is accepted; only a comma where an argument may start is an error (ParserProperties.ArgsErrorIff, ParserProperties.SlotHeadsAreArgs);
  - the left-operand clash erases the element after the operator (line 730), not the clashing neighbour (ParserProperties.OperatorClash).

## Findings

| source | as written | input that shows it | evidently intended | confidence | as-written member | corrected member |
|---|---|---|---|---|---|---|
| compiler.c++:805-814 | operand pointers `&elements[i-1]` and `&elements[i+1]` are taken before the erasures, which shift the vector, and the left one ends up naming the slot the operation is stored in | elements `a + b c` | the operation refers to its operands `a` and `b` | not executed | ParserProperties.PointedOperandsExample | ParserProperties.BinaryOperator |
| compiler.c++:42 | after a match the search resumes at `pos + 1`, so a delimiter longer than one character leaves its tail in the next piece | `split_string("a::b", "::")` | `["a", "b"]`, resuming at `pos + delimiter.size()` | not executed | Strings.SplitOverlapExample | Strings.SplitFixedJoin |
